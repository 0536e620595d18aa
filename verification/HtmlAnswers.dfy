/** What the flatteners make of single elements, addresses and a small page. */
module HtmlAnswers {
  import opened Texts
  import opened UrlEscape
  import opened HtmlText
  import opened HtmlFlattener

  const CAPITALS: string := "ABCDEFGHIJKLMNOPQRSTUVWXYZ"
  const SMALLS: string := "abcdefghijklmnopqrstuvwxyz"

  /** Names are compared in small letters. */
  lemma LowerOf(s: string, i: nat)
    requires i < |s|
    ensures |Lower(s)| == |s|
    ensures s[i] !in CAPITALS ==> Lower(s)[i] == s[i]
    ensures forall k :: 0 <= k < 26 && s[i] == CAPITALS[k] ==> Lower(s)[i] == SMALLS[k]
  {
    LettersStand();
    if 'A' <= s[i] <= 'Z' {
      assert s[i] == CAPITALS[s[i] as int - 'A' as int];
    }
  }

  lemma LettersStand()
    ensures |CAPITALS| == |SMALLS| == 26
    ensures forall k :: 0 <= k < 26 ==> CAPITALS[k] as int == 'A' as int + k && SMALLS[k] as int == 'a' as int + k
  {}

  /** An address with two slashes gets the scheme, one with one slash the scheme and the domain,
      and any other is taken as it is. */
  lemma AddressIs(url: string, domain: string)
    ensures |url| >= 2 && url[0] == '/' && url[1] == '/' ==> Absolute(url, domain) == "https:" + url
    ensures |url| >= 1 && url[0] == '/' && !(|url| >= 2 && url[1] == '/') ==>
      Absolute(url, domain) == "https://" + domain + url
    ensures url == "" || url[0] != '/' ==> Absolute(url, domain) == url
  {}

  /** The second flattener's domain. */
  lemma FixedDomain(url: string)
    requires |url| >= 1 && url[0] == '/' && !(|url| >= 2 && url[1] == '/')
    ensures Absolute(url, GD_DOMAIN) == "https://www.gitlab.hfjy.com" + url
  {
    assert "https://" + GD_DOMAIN == "https://www.gitlab.hfjy.com";
  }

  /** What an element means by its name: four names set their content off, an image is its
      address between cuts and its content is not looked at, a break is a cut, and any other
      element is its content. */
  lemma ElementIs(name: string, attrs: seq<(string, string)>, children: seq<Node>, domain: string)
    ensures var es := Events(Element(name, attrs, children), domain);
      && (Lower(name) in ["p", "table", "thead", "tr"] ==> es == [Cut] + AllEvents(children, domain) + [Cut])
      && (Lower(name) == "br" ==> es == [Cut])
      && (Lower(name) == "img" ==>
            es == [Cut] + if Source(attrs) == "" then [] else [Image(Absolute(Source(attrs), domain))])
      && (Lower(name) !in ["p", "table", "thead", "tr", "br", "img"] ==> es == AllEvents(children, domain))
  {}

  /** A text is its trimmed words, a document its content, and anything else nothing. */
  lemma OtherNodesAre(data: string, children: seq<Node>, domain: string)
    ensures Events(TextNode(data), domain) == (if TrimSpace(data) == "" then [] else [Word(TrimSpace(data))])
    ensures Events(Document(children), domain) == AllEvents(children, domain)
    ensures Events(OtherNode, domain) == []
  {}

  lemma EventsAssoc(a: seq<Event>, b: seq<Event>, c: seq<Event>)
    ensures a + (b + c) == a + b + c
  {}

  /** Contents are taken in order. */
  lemma {:induction false} ContentsInOrder(x: seq<Node>, n: Node, y: seq<Node>, domain: string)
    ensures AllEvents(x + [n] + y, domain) == AllEvents(x, domain) + (Events(n, domain) + AllEvents(y, domain))
    decreases |x|
  {
    var ns := x + [n] + y;
    if x == [] {
      assert ns[1..] == y;
    } else {
      ContentsInOrder(x[1..], n, y, domain);
      assert ns[1..] == x[1..] + [n] + y && ns[0] == x[0];
      EventsAssoc(Events(x[0], domain), AllEvents(x[1..], domain), Events(n, domain) + AllEvents(y, domain));
    }
  }

  /** The address is that of the first src attribute. */
  lemma {:induction false} FirstSource(before: seq<(string, string)>, url: string, after: seq<(string, string)>)
    requires forall i :: 0 <= i < |before| ==> before[i].0 != "src"
    ensures Source(before) == "" && Source(before + [("src", url)] + after) == url
  {
    var all := before + [("src", url)] + after;
    if before != [] {
      FirstSource(before[1..], url, after);
      assert all[1..] == before[1..] + [("src", url)] + after;
      assert before[0].0 != "src";
    }
  }

  /** Pieces of a line are joined by a space, lines by a backslash and an n. */
  lemma TwoLines(es: seq<Event>, a: string, b: string, c: string)
    requires Lines(es) == [[a, b], [c]]
    ensures PlainText(es) == a + " " + b + "\\n" + c
  {
    var x := a + " " + b;
    assert [a, b][1..] == [b];
    assert Join([a, b], " ") == x && Join([c], " ") == c;
    assert LineTexts([[a, b], [c]]) == [x, c];
    assert [x, c][1..] == [c];
    assert Join([x, c], "\\n") == x + "\\n" + c;
  }

  lemma {:induction false} CleanedConcat(x: string, y: string)
    ensures Cleaned(x + y) == Cleaned(x) + Cleaned(y)
  {
    ReplaceConcat(x, y, '\r', "");
    var (x1, y1) := (Replace(x, '\r', ""), Replace(y, '\r', ""));
    ReplaceConcat(x1, y1, '\n', "");
    var (x2, y2) := (Replace(x1, '\n', ""), Replace(y1, '\n', ""));
    ReplaceConcat(x2, y2, '\t', " ");
    ReplaceConcat(Replace(x2, '\t', " "), Replace(y2, '\t', " "), '+', "%2B");
  }

  lemma ReplaceSingle(c: char, d: char, to: string)
    ensures Replace([c], d, to) == if c == d then to else [c]
    ensures Replace("", d, to) == ""
  {
    assert [c][1..] == "";
    assert Replace([c], d, to) == (if c == d then to else [c]) + Replace("", d, to);
  }

  /** Before the parsing: line ends go, a tab is a space, a plus its percent code. */
  lemma CleanedCharacter(c: char)
    ensures Cleaned([c]) == if c == '\r' || c == '\n' then "" else if c == '\t' then " "
                            else if c == '+' then "%2B" else [c]
    ensures Cleaned("") == ""
  {
    ReplaceSingle(c, '\r', "");
    ReplaceSingle(c, '\n', "");
    ReplaceSingle(c, '\t', " ");
    ReplaceSingle(' ', '+', "%2B");
    ReplaceSingle(c, '+', "%2B");
  }
}
