/** Plain text from a parsed page: words gathered into lines, cut at certain elements. */
module HtmlText {
  import opened Texts
  import opened UrlEscape

  datatype Node =
    | TextNode(data: string)
    | Element(name: string, attrs: seq<(string, string)>, children: seq<Node>)
    | Document(children: seq<Node>)
    | OtherNode

  function LowerChar(c: char): char {
    if 'A' <= c <= 'Z' then (c as int + 32) as char else c
  }

  function Lower(s: string): string {
    seq(|s|, i requires 0 <= i < |s| => LowerChar(s[i]))
  }

  predicate IsBlock(name: string) {
    name == "p" || name == "table" || name == "thead" || name == "tr"
  }

  /** The value of the first src attribute. */
  function Source(attrs: seq<(string, string)>): string {
    if attrs == [] then "" else if attrs[0].0 == "src" then attrs[0].1 else Source(attrs[1..])
  }

  function Absolute(url: string, domain: string): (r: string)
    ensures url != "" ==> r != ""
  {
    if url == "" || url[0] != '/' then url
    else if |url| > 1 && url[1] == '/' then "https:" + url
    else "https://" + domain + url
  }

  // --------------------------------------------- what a page says, independently

  /** A page read in order: words, images, and the places no line may cross. */
  datatype Event = Word(text: string) | Image(url: string) | Cut

  function Events(n: Node, domain: string): seq<Event>
    decreases n, 0
  {
    match n
    case TextNode(data) =>
      var s := TrimSpace(data);
      if s == "" then [] else [Word(s)]
    case Element(name, attrs, children) =>
      var tag := Lower(name);
      if tag == "img" then
        [Cut] + (if Source(attrs) == "" then [] else [Image(Absolute(Source(attrs), domain))])
      else if tag == "br" then [Cut]
      else if IsBlock(tag) then [Cut] + AllEvents(children, domain) + [Cut]
      else AllEvents(children, domain)
    case Document(children) => AllEvents(children, domain)
    case OtherNode => []
  }

  function AllEvents(ns: seq<Node>, domain: string): seq<Event>
    decreases ns, 1
  {
    if ns == [] then [] else Events(ns[0], domain) + AllEvents(ns[1..], domain)
  }

  function PieceOf(e: Event): seq<string> {
    match e
    case Word(s) => [s]
    case Image(u) => [u]
    case Cut => []
  }

  /** Everything a page says. */
  function Pieces(es: seq<Event>): seq<string> {
    if es == [] then [] else PieceOf(es[0]) + Pieces(es[1..])
  }

  function Lone(words: seq<string>): seq<seq<string>> {
    if words == [] then [] else [words]
  }

  /** The lines still to come, each as its pieces, when these words are pending. */
  function LinesFrom(words: seq<string>, es: seq<Event>): seq<seq<string>>
    decreases |es|
  {
    if es == [] then Lone(words)
    else match es[0]
      case Word(s) => LinesFrom(words + [s], es[1..])
      case Image(u) => Lone(words) + ([[u]] + LinesFrom([], es[1..]))
      case Cut => Lone(words) + LinesFrom([], es[1..])
  }

  function Lines(es: seq<Event>): seq<seq<string>> {
    LinesFrom([], es)
  }

  function LineTexts(lines: seq<seq<string>>): (r: seq<string>)
    ensures |r| == |lines| && forall i :: 0 <= i < |lines| ==> r[i] == Join(lines[i], " ")
  {
    seq(|lines|, i requires 0 <= i < |lines| => Join(lines[i], " "))
  }

  /** A page as plain text; the line separator is a backslash and an n. */
  function PlainText(es: seq<Event>): string {
    Join(LineTexts(Lines(es)), "\\n")
  }

  // -------------------------------------------------------------- its properties

  function Flatten(lines: seq<seq<string>>): seq<string> {
    if lines == [] then [] else lines[0] + Flatten(lines[1..])
  }

  lemma {:induction false} FlattenConcat(a: seq<seq<string>>, b: seq<seq<string>>)
    ensures Flatten(a + b) == Flatten(a) + Flatten(b)
  {
    if a == [] {
      assert a + b == b;
    } else {
      assert (a + b)[1..] == a[1..] + b;
      FlattenConcat(a[1..], b);
    }
  }

  lemma FlattenOne(line: seq<string>)
    ensures Flatten([line]) == line && Flatten(Lone(line)) == line
  {
    assert [line][1..] == [];
  }

  /** Nothing is lost, doubled or moved: the pieces of the lines are what the page says. */
  lemma {:induction false} LinesHoldAllPieces(words: seq<string>, es: seq<Event>)
    ensures Flatten(LinesFrom(words, es)) == words + Pieces(es)
    decreases |es|
  {
    FlattenOne(words);
    if es != [] {
      match es[0]
      case Word(s) =>
        LinesHoldAllPieces(words + [s], es[1..]);
      case Image(u) =>
        var rest := LinesFrom([], es[1..]);
        LinesHoldAllPieces([], es[1..]);
        assert Flatten(rest) == Pieces(es[1..]);
        FlattenOne([u]);
        FlattenConcat([[u]], rest);
        FlattenConcat(Lone(words), [[u]] + rest);
      case Cut =>
        LinesHoldAllPieces([], es[1..]);
        FlattenConcat(Lone(words), LinesFrom([], es[1..]));
    }
  }

  predicate GoodEvent(e: Event) {
    match e
    case Word(s) => s != ""
    case Image(u) => u != ""
    case Cut => true
  }

  predicate AllGood(es: seq<Event>) {
    forall i :: 0 <= i < |es| ==> GoodEvent(es[i])
  }

  predicate NoneEmpty(line: seq<string>) {
    forall i :: 0 <= i < |line| ==> line[i] != ""
  }

  predicate GoodLines(lines: seq<seq<string>>) {
    forall i :: 0 <= i < |lines| ==> lines[i] != [] && NoneEmpty(lines[i])
  }

  /** No line is empty, and none holds an empty piece. */
  lemma {:induction false} LinesAreGood(words: seq<string>, es: seq<Event>)
    requires NoneEmpty(words) && AllGood(es)
    ensures GoodLines(LinesFrom(words, es))
    decreases |es|
  {
    if es != [] {
      match es[0]
      case Word(s) => LinesAreGood(words + [s], es[1..]);
      case Image(u) => LinesAreGood([], es[1..]);
      case Cut => LinesAreGood([], es[1..]);
    }
  }

  /** A cut ends one line and begins another. */
  lemma {:induction false} CutsAreBoundaries(words: seq<string>, before: seq<Event>, after: seq<Event>)
    ensures LinesFrom(words, before + ([Cut] + after)) == LinesFrom(words, before) + Lines(after)
    decreases |before|
  {
    var es := before + ([Cut] + after);
    if before == [] {
      assert es == [Cut] + after && es[1..] == after;
    } else {
      assert es[1..] == before[1..] + ([Cut] + after);
      match before[0]
      case Word(s) => CutsAreBoundaries(words + [s], before[1..], after);
      case Image(u) =>
        CutsAreBoundaries([], before[1..], after);
        assert Lone(words) + ([[u]] + (LinesFrom([], before[1..]) + Lines(after)))
            == Lone(words) + ([[u]] + LinesFrom([], before[1..])) + Lines(after);
      case Cut =>
        CutsAreBoundaries([], before[1..], after);
        assert Lone(words) + (LinesFrom([], before[1..]) + Lines(after))
            == Lone(words) + LinesFrom([], before[1..]) + Lines(after);
    }
  }

  /** An image is a line of its own. */
  lemma {:induction false} ImagesStandAlone(words: seq<string>, before: seq<Event>, url: string, after: seq<Event>)
    ensures LinesFrom(words, before + ([Image(url)] + after)) == LinesFrom(words, before) + ([[url]] + Lines(after))
    decreases |before|
  {
    var es := before + ([Image(url)] + after);
    var end := [[url]] + Lines(after);
    if before == [] {
      assert es == [Image(url)] + after && es[1..] == after;
    } else {
      assert es[1..] == before[1..] + ([Image(url)] + after);
      match before[0]
      case Word(s) => ImagesStandAlone(words + [s], before[1..], url, after);
      case Image(u) =>
        ImagesStandAlone([], before[1..], url, after);
        assert Lone(words) + ([[u]] + (LinesFrom([], before[1..]) + end))
            == Lone(words) + ([[u]] + LinesFrom([], before[1..])) + end;
      case Cut =>
        ImagesStandAlone([], before[1..], url, after);
        assert Lone(words) + (LinesFrom([], before[1..]) + end)
            == Lone(words) + LinesFrom([], before[1..]) + end;
    }
  }

  /** Words with nothing between them share a line. */
  lemma {:induction false} WordsShareALine(words: seq<string>, es: seq<Event>)
    requires forall i :: 0 <= i < |es| ==> es[i].Word?
    ensures LinesFrom(words, es) == Lone(words + Pieces(es))
    decreases |es|
  {
    if es == [] {
      assert words + [] == words;
    } else {
      WordsShareALine(words + [es[0].text], es[1..]);
      assert words + [es[0].text] + Pieces(es[1..]) == words + Pieces(es);
    }
  }

  lemma {:induction false} EventsAreGood(n: Node, domain: string)
    ensures AllGood(Events(n, domain))
    decreases n, 0
  {
    match n
    case Element(_, _, children) => AllEventsAreGood(children, domain);
    case Document(children) => AllEventsAreGood(children, domain);
    case _ =>
  }

  lemma {:induction false} AllEventsAreGood(ns: seq<Node>, domain: string)
    ensures AllGood(AllEvents(ns, domain))
    decreases ns, 1
  {
    if ns != [] {
      EventsAreGood(ns[0], domain);
      AllEventsAreGood(ns[1..], domain);
    }
  }

  /** The lines of any page: all its pieces in order, none empty. */
  lemma PageLines(page: Node, domain: string)
    ensures var lines := Lines(Events(page, domain));
      Flatten(lines) == Pieces(Events(page, domain)) && GoodLines(lines)
  {
    EventsAreGood(page, domain);
    LinesHoldAllPieces([], Events(page, domain));
    LinesAreGood([], Events(page, domain));
  }

  // ------------------------------------------------------------ lines and elements

  /** The children the walk goes into. */
  function Visited(n: Node): seq<Node> {
    match n
    case Element(name, _, children) => if Lower(name) == "img" || Lower(name) == "br" then [] else children
    case Document(children) => children
    case _ => []
  }

  predicate BlockElement(n: Node) {
    n.Element? && IsBlock(Lower(n.name))
  }

  function Edge(n: Node): seq<Event> {
    if BlockElement(n) then [Cut] else []
  }

  /** A place in a page: which visited child to take, again and again. */
  predicate Place(n: Node, path: seq<nat>)
    decreases |path|
  {
    path == [] || (path[0] < |Visited(n)| && Place(Visited(n)[path[0]], path[1..]))
  }

  function NodeAt(n: Node, path: seq<nat>): Node
    requires Place(n, path)
    decreases |path|
  {
    if path == [] then n else NodeAt(Visited(n)[path[0]], path[1..])
  }

  /** What the page says before a place. */
  function Before(n: Node, path: seq<nat>, domain: string): seq<Event>
    requires Place(n, path)
    decreases |path|
  {
    if path == [] then []
    else
      Edge(n) + AllEvents(Visited(n)[..path[0]], domain) + Before(Visited(n)[path[0]], path[1..], domain)
  }

  /** What it says after it. */
  function Behind(n: Node, path: seq<nat>, domain: string): seq<Event>
    requires Place(n, path)
    decreases |path|
  {
    if path == [] then []
    else
      Behind(Visited(n)[path[0]], path[1..], domain) + (AllEvents(Visited(n)[path[0] + 1..], domain) + Edge(n))
  }

  lemma {:induction false} AllEventsSplit(ns: seq<Node>, i: nat, domain: string)
    requires i < |ns|
    ensures AllEvents(ns, domain)
         == AllEvents(ns[..i], domain) + (Events(ns[i], domain) + AllEvents(ns[i + 1..], domain))
  {
    if i > 0 {
      AllEventsSplit(ns[1..], i - 1, domain);
      assert ns[..i][1..] == ns[1..][..i - 1] && ns[1..][i..] == ns[i + 1..];
      EventsAssoc(Events(ns[0], domain), AllEvents(ns[..i][1..], domain), Events(ns[i], domain) + AllEvents(ns[i + 1..], domain));
    }
  }

  lemma EventsAssoc(a: seq<Event>, b: seq<Event>, c: seq<Event>)
    ensures a + (b + c) == (a + b) + c
  {}

  lemma EventsOfVisited(n: Node, domain: string)
    requires Visited(n) != []
    ensures Events(n, domain) == Edge(n) + AllEvents(Visited(n), domain) + Edge(n)
  {}

  lemma Nested(e: seq<Event>, l: seq<Event>, b: seq<Event>, x: seq<Event>, a: seq<Event>, r: seq<Event>)
    ensures e + (l + ((b + (x + a)) + r)) + e == (e + l + b) + (x + (a + (r + e)))
  {}

  /** A page is what it says before a place, at it, and after it. */
  lemma {:induction false} EventsAround(n: Node, path: seq<nat>, domain: string)
    requires Place(n, path)
    ensures Events(n, domain)
         == Before(n, path, domain) + (Events(NodeAt(n, path), domain) + Behind(n, path, domain))
    decreases |path|
  {
    if path == [] {
      assert [] + (Events(n, domain) + []) == Events(n, domain);
    } else {
      var i, ns := path[0], Visited(n);
      EventsAround(ns[i], path[1..], domain);
      AllEventsSplit(ns, i, domain);
      EventsOfVisited(n, domain);
      Nested(Edge(n), AllEvents(ns[..i], domain), Before(ns[i], path[1..], domain),
             Events(NodeAt(ns[i], path[1..]), domain), Behind(ns[i], path[1..], domain), AllEvents(ns[i + 1..], domain));
    }
  }

  lemma LinesHold(es: seq<Event>)
    ensures Flatten(Lines(es)) == Pieces(es)
  {
    LinesHoldAllPieces([], es);
  }

  /** A p, table, thead or tr anywhere in a page keeps to itself: the lines of the page are
      those of what comes before it, those of its own children and those of what comes after,
      and each of the three holds exactly its own pieces. So no line has a piece from inside
      the element together with one from outside. */
  lemma BlocksKeepToThemselves(page: Node, path: seq<nat>, domain: string)
    requires Place(page, path) && BlockElement(NodeAt(page, path))
    ensures var inside := AllEvents(NodeAt(page, path).children, domain);
      var before, after := Before(page, path, domain), Behind(page, path, domain);
      && Lines(Events(page, domain)) == Lines(before) + (Lines(inside) + Lines(after))
      && Flatten(Lines(before)) == Pieces(before) && Flatten(Lines(inside)) == Pieces(inside)
      && Flatten(Lines(after)) == Pieces(after)
  {
    EventsAround(page, path, domain);
    BlockEvents(NodeAt(page, path), domain);
    BlockLines(Before(page, path, domain), AllEvents(NodeAt(page, path).children, domain), Behind(page, path, domain));
  }

  lemma BlockEvents(n: Node, domain: string)
    requires BlockElement(n)
    ensures Events(n, domain) == [Cut] + AllEvents(n.children, domain) + [Cut]
  {}

  lemma BlockLines(before: seq<Event>, inside: seq<Event>, after: seq<Event>)
    ensures Lines(before + (([Cut] + inside + [Cut]) + after)) == Lines(before) + (Lines(inside) + Lines(after))
    ensures Flatten(Lines(before)) == Pieces(before) && Flatten(Lines(inside)) == Pieces(inside)
    ensures Flatten(Lines(after)) == Pieces(after)
  {
    assert ([Cut] + inside + [Cut]) + after == [Cut] + (inside + ([Cut] + after));
    CutsAreBoundaries([], before, inside + ([Cut] + after));
    CutsAreBoundaries([], inside, after);
    LinesHold(before);
    LinesHold(inside);
    LinesHold(after);
  }

  /** A br anywhere in a page ends one line and begins another. */
  lemma BreaksSeparate(page: Node, path: seq<nat>, domain: string)
    requires Place(page, path) && NodeAt(page, path).Element? && Lower(NodeAt(page, path).name) == "br"
    ensures Lines(Events(page, domain)) == Lines(Before(page, path, domain)) + Lines(Behind(page, path, domain))
  {
    EventsAround(page, path, domain);
    assert Events(NodeAt(page, path), domain) == [Cut];
    CutsAreBoundaries([], Before(page, path, domain), Behind(page, path, domain));
  }

  /** An img anywhere in a page does so too, with a line of its own if it has an address. */
  lemma ImagesSeparate(page: Node, path: seq<nat>, domain: string)
    requires Place(page, path) && NodeAt(page, path).Element? && Lower(NodeAt(page, path).name) == "img"
    ensures var url := Absolute(Source(NodeAt(page, path).attrs), domain);
      Lines(Events(page, domain))
      == Lines(Before(page, path, domain)) + ((if url == "" then [] else [[url]]) + Lines(Behind(page, path, domain)))
  {
    EventsAround(page, path, domain);
    ImageSays(NodeAt(page, path), domain);
    ImageLines(Before(page, path, domain), Absolute(Source(NodeAt(page, path).attrs), domain), Behind(page, path, domain));
  }

  function ImageOf(url: string): seq<Event> {
    [Cut] + if url == "" then [] else [Image(url)]
  }

  lemma ImageSays(n: Node, domain: string)
    requires n.Element? && Lower(n.name) == "img"
    ensures Events(n, domain) == ImageOf(Absolute(Source(n.attrs), domain))
  {}

  lemma ImageLines(before: seq<Event>, url: string, after: seq<Event>)
    ensures Lines(before + (ImageOf(url) + after))
         == Lines(before) + ((if url == "" then [] else [[url]]) + Lines(after))
  {
    if url == "" {
      assert ImageOf(url) == [Cut];
      CutsAreBoundaries([], before, after);
      assert [] + Lines(after) == Lines(after);
    } else {
      assert ImageOf(url) + after == [Cut] + ([Image(url)] + after);
      CutsAreBoundaries([], before, [Image(url)] + after);
      assert ([Image(url)] + after)[1..] == after;
    }
  }

  // ------------------------------------------------------------------- flattening

  /** The lines done and the words pending after some events. */
  datatype Progress = Progress(done: seq<seq<string>>, pending: seq<string>)

  function Feed(p: Progress, e: Event): Progress {
    match e
    case Word(s) => p.(pending := p.pending + [s])
    case Image(u) => Progress(p.done + Lone(p.pending) + [[u]], [])
    case Cut => Progress(p.done + Lone(p.pending), [])
  }

  function FeedAll(p: Progress, es: seq<Event>): Progress
    decreases |es|
  {
    if es == [] then p else FeedAll(Feed(p, es[0]), es[1..])
  }

  lemma {:induction false} FeedConcat(p: Progress, x: seq<Event>, y: seq<Event>)
    ensures FeedAll(p, x + y) == FeedAll(FeedAll(p, x), y)
    decreases |x|
  {
    if x == [] {
      assert x + y == y;
    } else {
      assert (x + y)[1..] == x[1..] + y;
      FeedConcat(Feed(p, x[0]), x[1..], y);
    }
  }

  /** At every point: the lines done, and those to come from the pending words. */
  lemma {:induction false} FeedYieldsLines(p: Progress, es: seq<Event>)
    ensures var q := FeedAll(p, es);
      q.done + Lone(q.pending) == p.done + LinesFrom(p.pending, es)
    decreases |es|
  {
    if es != [] {
      FeedYieldsLines(Feed(p, es[0]), es[1..]);
      match es[0]
      case Word(s) =>
      case Image(u) =>
        assert p.done + Lone(p.pending) + [[u]] + LinesFrom([], es[1..])
            == p.done + (Lone(p.pending) + ([[u]] + LinesFrom([], es[1..])));
      case Cut =>
        assert p.done + Lone(p.pending) + LinesFrom([], es[1..])
            == p.done + (Lone(p.pending) + LinesFrom([], es[1..]));
    }
  }

  /** The two shared lists of the walk, as texts. */
  ghost predicate Shows(tmp: seq<string>, final: seq<string>, p: Progress) {
    tmp == p.pending && NoneEmpty(tmp) && final == LineTexts(p.done)
  }

  lemma LineTextsSnoc(lines: seq<seq<string>>, line: seq<string>)
    ensures LineTexts(lines + [line]) == LineTexts(lines) + [Join(line, " ")]
  {}
}
