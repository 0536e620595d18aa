/** The two flatteners as they run: a walk over the page that shares two growing lists. */
module HtmlFlattener {
  import opened Texts
  import opened UrlEscape
  import opened HtmlText

  datatype Result = Text(value: string) | ParseError

  const GD_DOMAIN := "www.gitlab.hfjy.com"

  /** The page text before it is parsed: one line, tabs as spaces, pluses escaped. */
  function Cleaned(s: string): string {
    Replace(Replace(Replace(Replace(s, '\r', ""), '\n', ""), '\t', " "), '+', "%2B")
  }

  /** What both flatteners are meant to return. */
  function Flattened(s: string, domain: string, htmlParse: string -> Option<Node>): Result {
    match htmlParse(Cleaned(s))
    case None => ParseError
    case Some(page) => Text(PlainText(Events(page, domain)))
  }

  function ChildrenOf(n: Node): seq<Node> {
    match n
    case Element(_, _, children) => children
    case Document(children) => children
    case _ => []
  }

  lemma JoinedIsEmpty(xs: seq<string>, sep: string)
    requires NoneEmpty(xs)
    ensures Join(xs, sep) == "" <==> xs == []
  {
    if xs != [] {
      JoinNonEmpty(xs, sep);
    }
  }

  /** The pending words become a line, if there are any. */
  lemma SavedShows(tmp: seq<string>, final: seq<string>, p: Progress, r: string)
    requires Shows(tmp, final, p) && r == Join(tmp, " ")
    ensures Shows([], if r == "" then final else final + [r], Feed(p, Cut))
  {
    JoinedIsEmpty(tmp, " ");
    LineTextsSnoc(p.done, tmp);
    assert tmp == [] ==> p.done + Lone(tmp) == p.done;
  }

  /** A word goes to the pending list; an address, with nothing pending, is a line. */
  lemma PushedShows(tmp: seq<string>, final: seq<string>, p: Progress, s: string)
    requires Shows(tmp, final, p) && s != ""
    ensures Shows(tmp + [s], final, Feed(p, Word(s)))
    ensures tmp == [] ==> Shows([], final + [s], Feed(p, Image(s)))
  {
    LineTextsSnoc(p.done, [s]);
    assert tmp == [] ==> p.done + Lone(tmp) == p.done;
  }

  lemma FedOne(p: Progress, e: Event, es: seq<Event>)
    ensures FeedAll(p, [e] + es) == FeedAll(Feed(p, e), es)
    ensures FeedAll(p, es + [e]) == Feed(FeedAll(p, es), e)
  {
    assert ([e] + es)[1..] == es;
    FeedConcat(p, es, [e]);
    assert [e][1..] == [];
  }

  lemma BlockFed(p: Progress, es: seq<Event>)
    ensures FeedAll(p, [Cut] + es + [Cut]) == Feed(FeedAll(Feed(p, Cut), es), Cut)
  {
    assert [Cut] + es + [Cut] == [Cut] + (es + [Cut]);
    FedOne(p, Cut, es + [Cut]);
    FedOne(Feed(p, Cut), Cut, es);
  }

  /** With nothing pending, an image adds its address, if it has one. */
  lemma ImageShows(final: seq<string>, p: Progress, url: string)
    requires Shows([], final, Feed(p, Cut))
    ensures Shows([], if url == "" then final else final + [url], FeedAll(p, ImageOf(url)))
  {
    FedOne(p, Cut, []);
    if url == "" {
      assert ImageOf(url) == [Cut];
    } else {
      FedOne(p, Cut, [Image(url)]);
      FedOne(Feed(p, Cut), Image(url), []);
      PushedShows([], final, Feed(p, Cut), url);
    }
  }

  /** The address of an image, as the code finds it: the first src attribute decides. */
  method FindSource(attrs: seq<(string, string)>) returns (url: string)
    ensures url == Source(attrs)
  {
    for i := 0 to |attrs|
      invariant Source(attrs) == Source(attrs[i..])
    {
      assert attrs[i..][1..] == attrs[i + 1..];
      if attrs[i].0 == "src" {
        return attrs[i].1;
      }
    }
    url := "";
  }

  /** The loop that ends both flatteners. */
  method JoinLines(final: seq<string>) returns (r: string)
    requires NoneEmpty(final)
    ensures r == Join(final, "\\n")
  {
    r := "";
    var first := true;
    for i := 0 to |final|
      invariant first <==> i == 0
      invariant r == Join(final[..i], "\\n")
    {
      assert final[..i + 1] == final[..i] + [final[i]];
      JoinSnoc(final[..i], final[i], "\\n");
      if |final[i]| > 0 {
        if first {
          first := false;
        } else {
          r := r + "\\n";
        }
        r := r + final[i];
      }
    }
    assert final[..|final|] == final;
  }

  lemma ShownLinesAreNotEmpty(page: Node, domain: string, final: seq<string>)
    requires Shows([], final, Feed(FeedAll(Progress([], []), Events(page, domain)), Cut))
    ensures NoneEmpty(final) && Join(final, "\\n") == PlainText(Events(page, domain))
  {
    var es := Events(page, domain);
    var q := FeedAll(Progress([], []), es);
    FeedYieldsLines(Progress([], []), es);
    assert [] + LinesFrom([], es) == LinesFrom([], es);
    assert final == LineTexts(Lines(es));
    PageLines(page, domain);
    forall i | 0 <= i < |final|
      ensures final[i] != ""
    {
      JoinedIsEmpty(Lines(es)[i], " ");
    }
  }

  // ---------------------------------------------------------- common/string_html.go

  class Flattener {
    var tmp: seq<string>
    var final: seq<string>

    constructor ()
      ensures tmp == [] && final == []
    {
      tmp, final := [], [];
    }

    method SaveTmpList(ghost p: Progress)
      requires Shows(tmp, final, p)
      modifies this
      ensures Shows(tmp, final, Feed(p, Cut))
    {
      var r := "";
      for i := 0 to |tmp|
        invariant tmp == old(tmp) && final == old(final)
        invariant r == Join(tmp[..i], " ")
      {
        assert tmp[..i + 1] == tmp[..i] + [tmp[i]];
        JoinSnoc(tmp[..i], tmp[i], " ");
        JoinedIsEmpty(tmp[..i], " ");
        if |tmp[i]| > 0 {
          if |r| == 0 {
            r := tmp[i];
          } else {
            r := r + (" " + tmp[i]);
          }
        }
      }
      assert tmp[..|tmp|] == tmp;
      SavedShows(tmp, final, p, r);
      tmp := [];
      if |r| > 0 {
        final := final + [r];
      }
    }

    method Parse(node: Node, domain: string, ghost p: Progress)
      requires Shows(tmp, final, p)
      modifies this
      ensures Shows(tmp, final, FeedAll(p, Events(node, domain)))
      decreases node, 1
    {
      match node
      case TextNode(data) =>
        var s := TrimSpace(data);
        if |s| > 0 {
          FedOne(p, Word(s), []);
          PushedShows(tmp, final, p, s);
          tmp := tmp + [s];
        }
      case Element(data, attrs, children) =>
        var name := Lower(data);
        if name == "img" {
          SaveTmpList(p);
          var url := FindSource(attrs);
          ImageShows(final, p, Absolute(url, domain));
          assert Events(node, domain) == ImageOf(Absolute(url, domain));
          if |url| > 0 {
            if url[0] == '/' {
              if |url| > 1 && url[1] == '/' {
                url := "https:" + url;
              } else {
                url := "https://" + domain + url;
              }
            }
            final := final + [url];
          }
        } else if name == "br" {
          FedOne(p, Cut, []);
          SaveTmpList(p);
        } else if name == "p" || name == "table" || name == "thead" || name == "tr" {
          ghost var es := AllEvents(children, domain);
          BlockFed(p, es);
          SaveTmpList(p);
          ParseChildren(node, domain, Feed(p, Cut));
          SaveTmpList(FeedAll(Feed(p, Cut), es));
        } else {
          ParseChildren(node, domain, p);
        }
      case Document(_) =>
        ParseChildren(node, domain, p);
      case OtherNode =>
    }

    method ParseChildren(node: Node, domain: string, ghost p: Progress)
      requires Shows(tmp, final, p)
      modifies this
      ensures Shows(tmp, final, FeedAll(p, AllEvents(ChildrenOf(node), domain)))
      decreases node, 0
    {
      var children := ChildrenOf(node);
      ghost var q := p;
      for i := 0 to |children|
        invariant Shows(tmp, final, q)
        invariant FeedAll(p, AllEvents(children, domain)) == FeedAll(q, AllEvents(children[i..], domain))
      {
        assert children[i..][0] == children[i] && children[i..][1..] == children[i + 1..];
        FeedConcat(q, Events(children[i], domain), AllEvents(children[i + 1..], domain));
        Parse(children[i], domain, q);
        q := FeedAll(q, Events(children[i], domain));
      }
      assert children[|children|..] == [];
    }
  }

  method HTML2PlainText(s: string, defaultDomain: string, htmlParse: string -> Option<Node>) returns (r: Result)
    ensures r == Flattened(s, defaultDomain, htmlParse)
  {
    var q := Replace(s, '\r', "");
    q := Replace(q, '\n', "");
    q := Replace(q, '\t', " ");
    q := Replace(q, '+', "%2B");
    match htmlParse(q)
    case None =>
      r := ParseError;
    case Some(page) =>
      var lists := new Flattener();
      lists.Parse(page, defaultDomain, Progress([], []));
      lists.SaveTmpList(FeedAll(Progress([], []), Events(page, defaultDomain)));
      ShownLinesAreNotEmpty(page, defaultDomain, lists.final);
      var text := JoinLines(lists.final);
      r := Text(text);
  }

  // ------------------------------------------- service/gd_adapter_question.go: the copy

  class GdAdapter {
    var tmp: seq<string>
    var final: seq<string>

    constructor ()
      ensures tmp == [] && final == []
    {
      tmp, final := [], [];
    }

    method SaveTmpList(ghost p: Progress)
      requires Shows(tmp, final, p)
      modifies this
      ensures Shows(tmp, final, Feed(p, Cut))
    {
      var r := "";
      for i := 0 to |tmp|
        invariant tmp == old(tmp) && final == old(final)
        invariant r == Join(tmp[..i], " ")
      {
        assert tmp[..i + 1] == tmp[..i] + [tmp[i]];
        JoinSnoc(tmp[..i], tmp[i], " ");
        JoinedIsEmpty(tmp[..i], " ");
        if |tmp[i]| > 0 {
          if |r| == 0 {
            r := tmp[i];
          } else {
            r := r + (" " + tmp[i]);
          }
        }
      }
      assert tmp[..|tmp|] == tmp;
      SavedShows(tmp, final, p, r);
      tmp := [];
      if |r| > 0 {
        final := final + [r];
      }
    }

    /** An address without a domain is put on this one. */
    static method Address(url: string) returns (r: string)
      requires url != ""
      ensures r == Absolute(url, GD_DOMAIN)
    {
      r := url;
      if url[0] == '/' {
        if |url| > 1 && url[1] == '/' {
          r := "https:" + url;
        } else {
          assert "https://www.gitlab.hfjy.com" == "https://" + GD_DOMAIN;
          r := "https://www.gitlab.hfjy.com" + url;
        }
      }
    }

    method ParseNode(node: Node, ghost p: Progress)
      requires Shows(tmp, final, p)
      modifies this
      ensures Shows(tmp, final, FeedAll(p, Events(node, GD_DOMAIN)))
      decreases node, 1
    {
      match node
      case TextNode(data) =>
        var s := TrimSpace(data);
        if |s| > 0 {
          FedOne(p, Word(s), []);
          PushedShows(tmp, final, p, s);
          tmp := tmp + [s];
        }
      case Element(data, attrs, children) =>
        var name := Lower(data);
        if name == "img" {
          SaveTmpList(p);
          var url := FindSource(attrs);
          ImageShows(final, p, Absolute(url, GD_DOMAIN));
          assert Events(node, GD_DOMAIN) == ImageOf(Absolute(url, GD_DOMAIN));
          if |url| > 0 {
            url := Address(url);
            final := final + [url];
          }
        } else if name == "br" {
          FedOne(p, Cut, []);
          SaveTmpList(p);
        } else if name == "p" || name == "table" || name == "thead" || name == "tr" {
          ghost var es := AllEvents(children, GD_DOMAIN);
          BlockFed(p, es);
          SaveTmpList(p);
          ParseChildren(node, Feed(p, Cut));
          SaveTmpList(FeedAll(Feed(p, Cut), es));
        } else {
          ParseChildren(node, p);
        }
      case Document(_) =>
        ParseChildren(node, p);
      case OtherNode =>
    }

    method ParseChildren(node: Node, ghost p: Progress)
      requires Shows(tmp, final, p)
      modifies this
      ensures Shows(tmp, final, FeedAll(p, AllEvents(ChildrenOf(node), GD_DOMAIN)))
      decreases node, 0
    {
      var children := ChildrenOf(node);
      ghost var q := p;
      for i := 0 to |children|
        invariant Shows(tmp, final, q)
        invariant FeedAll(p, AllEvents(children, GD_DOMAIN)) == FeedAll(q, AllEvents(children[i..], GD_DOMAIN))
      {
        assert children[i..][0] == children[i] && children[i..][1..] == children[i + 1..];
        FeedConcat(q, Events(children[i], GD_DOMAIN), AllEvents(children[i + 1..], GD_DOMAIN));
        ParseNode(children[i], q);
        q := FeedAll(q, Events(children[i], GD_DOMAIN));
      }
      assert children[|children|..] == [];
    }

    /** The same text the other flattener gives for this domain. */
    static method Parse(s: string, htmlParse: string -> Option<Node>) returns (r: Result)
      ensures r == Flattened(s, GD_DOMAIN, htmlParse)
    {
      var q := Replace(s, '\r', "");
      q := Replace(q, '\n', "");
      q := Replace(q, '\t', " ");
      q := Replace(q, '+', "%2B");
      match htmlParse(q)
      case None =>
        r := ParseError;
      case Some(page) =>
        var lists := new GdAdapter();
        lists.ParseNode(page, Progress([], []));
        lists.SaveTmpList(FeedAll(Progress([], []), Events(page, GD_DOMAIN)));
        ShownLinesAreNotEmpty(page, GD_DOMAIN, lists.final);
        var text := JoinLines(lists.final);
        r := Text(text);
    }
  }
}
