/** Escaping of stored texts: percent-encoding (section 2.1 of RFC 3986) in the form of a
    query component, then three replacements. A text is a run of bytes, one per char. */
module UrlEscape {
  import opened Texts
  import opened StringLists

  type Bytes = s: string | IsBytes(s)

  predicate IsBytes(s: string) {
    forall i :: 0 <= i < |s| ==> (s[i] as int) < 256
  }

  // ------------------------------------------------------------------ trimming

  predicate AsciiSpace(c: char) {
    c == ' ' || 9 <= c as int <= 13
  }

  /** The two- and three-byte forms of the remaining white-space runes. */
  predicate WideSpace(s: string) {
    if |s| == 2 then s[0] as int == 0xC2 && (s[1] as int == 0x85 || s[1] as int == 0xA0)
    else
      |s| == 3
      && var a, b, c := s[0] as int, s[1] as int, s[2] as int;
         || (a == 0xE1 && b == 0x9A && c == 0x80)
         || (a == 0xE2 && b == 0x80 && (0x80 <= c <= 0x8A || c == 0xA8 || c == 0xA9 || c == 0xAF))
         || (a == 0xE2 && b == 0x81 && c == 0x9F)
         || (a == 0xE3 && b == 0x80 && c == 0x80)
  }

  /** How many bytes a white-space rune at the front takes; zero if there is none. */
  function SpaceAhead(s: string): (n: nat)
    ensures n <= |s|
  {
    if |s| >= 1 && AsciiSpace(s[0]) then 1
    else if |s| >= 2 && WideSpace(s[..2]) then 2
    else if |s| >= 3 && WideSpace(s[..3]) then 3
    else 0
  }

  function SpaceBehind(s: string): (n: nat)
    ensures n <= |s|
  {
    if |s| >= 1 && AsciiSpace(s[|s| - 1]) then 1
    else if |s| >= 2 && WideSpace(s[|s| - 2..]) then 2
    else if |s| >= 3 && WideSpace(s[|s| - 3..]) then 3
    else 0
  }

  function TrimLeft(s: string): (r: string)
    ensures IsBytes(s) ==> IsBytes(r)
    ensures SpaceAhead(r) == 0
    decreases |s|
  {
    if SpaceAhead(s) == 0 then s else TrimLeft(s[SpaceAhead(s)..])
  }

  function TrimRight(s: string): (r: string)
    ensures IsBytes(s) ==> IsBytes(r)
    ensures SpaceBehind(r) == 0 && r <= s
    decreases |s|
  {
    if SpaceBehind(s) == 0 then s else TrimRight(s[..|s| - SpaceBehind(s)])
  }

  function TrimSpace(s: string): (r: string)
    ensures IsBytes(s) ==> IsBytes(r)
  {
    TrimRight(TrimLeft(s))
  }

  /** A text that neither starts nor ends with a space is left alone. */
  lemma NothingToTrim(s: string)
    requires SpaceAhead(s) == 0 && SpaceBehind(s) == 0
    ensures TrimSpace(s) == s
  {}

  lemma PrefixStartsTight(r: string, l: string)
    requires r <= l && SpaceAhead(l) == 0
    ensures SpaceAhead(r) == 0
  {
    if |r| >= 1 {
      assert r[0] == l[0];
    }
    if |r| >= 2 {
      assert r[..2] == l[..2];
    }
    if |r| >= 3 {
      assert r[..3] == l[..3];
    }
  }

  /** What is trimmed has nothing left to trim. */
  lemma TrimmedOnce(s: string)
    ensures TrimSpace(TrimSpace(s)) == TrimSpace(s)
  {
    PrefixStartsTight(TrimSpace(s), TrimLeft(s));
    NothingToTrim(TrimSpace(s));
  }

  // ------------------------------------------------------------------ escaping

  predicate Alphanumeric(c: char) {
    'a' <= c <= 'z' || 'A' <= c <= 'Z' || IsDigit(c)
  }

  predicate Unreserved(c: char) {
    Alphanumeric(c) || c == '-' || c == '_' || c == '.' || c == '~'
  }

  function HexDigit(v: nat): (c: char)
    requires v < 16
    ensures IsDigit(c) || 'A' <= c <= 'F'
  {
    if v < 10 then DigitChar(v) else ('A' as int + v - 10) as char
  }

  function PercentCode(c: char): string
    requires (c as int) < 256
  {
    ['%', HexDigit(c as int / 16), HexDigit(c as int % 16)]
  }

  function QueryEscape(s: Bytes): string {
    if s == "" then ""
    else (if Unreserved(s[0]) then [s[0]] else if s[0] == ' ' then "+" else PercentCode(s[0])) + QueryEscape(s[1..])
  }

  /** strings.Replace for one character, everywhere. */
  function Replace(s: string, c: char, to: string): string {
    if s == "" then "" else (if s[0] == c then to else [s[0]]) + Replace(s[1..], c, to)
  }

  function Escape(s: Bytes): string {
    Replace(Replace(Replace(QueryEscape(TrimSpace(s)), ':', "%3A"), '_', "%5F"), '+', "%20")
  }

  // ---------------------------------------------------------------- unescaping

  function HexValue(c: char): Option<nat> {
    if IsDigit(c) then Some(c as int - '0' as int)
    else if 'a' <= c <= 'f' then Some(c as int - 'a' as int + 10)
    else if 'A' <= c <= 'F' then Some(c as int - 'A' as int + 10)
    else None
  }

  /** None stands for a malformed percent code. */
  function QueryUnescape(s: string): Option<string>
    decreases |s|
  {
    if s == "" then Some("")
    else if s[0] == '%' then
      if |s| < 3 then None
      else match (HexValue(s[1]), HexValue(s[2]), QueryUnescape(s[3..]))
        case (Some(h), Some(l), Some(rest)) => Some([(16 * h + l) as char] + rest)
        case _ => None
    else match QueryUnescape(s[1..])
      case Some(rest) => Some([if s[0] == '+' then ' ' else s[0]] + rest)
      case None => None
  }

  function Unescape(s: string): string {
    match QueryUnescape(s)
    case Some(r) => r
    case None => s
  }

  // ---------------------------------------------------------------- round trip

  /** What becomes of one byte. */
  function Escaped(c: char): string
    requires (c as int) < 256
  {
    if c == '_' then "%5F" else if c == ' ' then "%20"
    else if Unreserved(c) then [c] else PercentCode(c)
  }

  function EscapeAll(s: Bytes): string {
    if s == "" then "" else Escaped(s[0]) + EscapeAll(s[1..])
  }

  lemma {:induction false} ReplaceConcat(x: string, y: string, c: char, to: string)
    ensures Replace(x + y, c, to) == Replace(x, c, to) + Replace(y, c, to)
  {
    if x == "" {
      assert x + y == y;
    } else {
      assert (x + y)[1..] == x[1..] + y;
      ReplaceConcat(x[1..], y, c, to);
    }
  }

  lemma {:induction false} ReplaceNothing(x: string, c: char, to: string)
    requires c !in x
    ensures Replace(x, c, to) == x
  {
    if x != "" {
      ReplaceNothing(x[1..], c, to);
    }
  }

  function ReplaceThree(r: string): string {
    Replace(Replace(Replace(r, ':', "%3A"), '_', "%5F"), '+', "%20")
  }

  lemma ReplaceOne(c: char)
    requires (c as int) < 256
    ensures ReplaceThree(if Unreserved(c) then [c] else if c == ' ' then "+" else PercentCode(c)) == Escaped(c)
  {
    var p := if Unreserved(c) then [c] else if c == ' ' then "+" else PercentCode(c);
    ReplaceNothing(p, ':', "%3A");
    if c == '_' {
      assert Replace("_", '_', "%5F") == "%5F" by { assert "_"[1..] == ""; }
      ReplaceNothing("%5F", '+', "%20");
    } else {
      ReplaceNothing(p, '_', "%5F");
      if c == ' ' {
        assert Replace("+", '+', "%20") == "%20" by { assert "+"[1..] == ""; }
      } else {
        ReplaceNothing(p, '+', "%20");
      }
    }
  }

  /** The four passes work byte by byte. */
  lemma {:induction false} EscapeIsBytewise(s: Bytes)
    ensures ReplaceThree(QueryEscape(s)) == EscapeAll(s)
  {
    if s != "" {
      var c := s[0];
      var p := if Unreserved(c) then [c] else if c == ' ' then "+" else PercentCode(c);
      var q := QueryEscape(s[1..]);
      ReplaceConcat(p, q, ':', "%3A");
      ReplaceConcat(Replace(p, ':', "%3A"), Replace(q, ':', "%3A"), '_', "%5F");
      ReplaceConcat(Replace(Replace(p, ':', "%3A"), '_', "%5F"), Replace(Replace(q, ':', "%3A"), '_', "%5F"), '+', "%20");
      ReplaceOne(c);
      EscapeIsBytewise(s[1..]);
    }
  }

  lemma UnescapeOne(c: char, rest: string)
    requires (c as int) < 256 && QueryUnescape(rest).Some?
    ensures QueryUnescape(Escaped(c) + rest) == Some([c] + QueryUnescape(rest).value)
  {
    var e := Escaped(c);
    if |e| == 1 {
      assert (e + rest)[1..] == rest;
    } else {
      assert (e + rest)[3..] == rest;
    }
  }

  lemma {:induction false} UnescapeAll(s: Bytes)
    ensures QueryUnescape(EscapeAll(s)) == Some(s)
  {
    if s != "" {
      UnescapeAll(s[1..]);
      UnescapeOne(s[0], EscapeAll(s[1..]));
      assert [s[0]] + s[1..] == s;
    }
  }

  /** Unescaping undoes escaping, but for the trimmed spaces. */
  lemma UnescapeEscape(s: Bytes)
    ensures Unescape(Escape(s)) == TrimSpace(s)
  {
    EscapeIsBytewise(TrimSpace(s));
    UnescapeAll(TrimSpace(s));
  }

  predicate Plain(c: char) {
    c != ',' && c != ':' && c != '_' && c != '+'
  }

  lemma {:induction false} EscapedIsPlain(s: Bytes)
    ensures forall i :: 0 <= i < |EscapeAll(s)| ==> Plain(EscapeAll(s)[i])
  {
    if s != "" {
      EscapedIsPlain(s[1..]);
    }
  }

  /** An escaped text holds none of the separators of the stored formats. */
  lemma EscapeHasNoSeparators(s: Bytes)
    ensures Free(Escape(s), ',') && Free(Escape(s), ':') && Free(Escape(s), '_') && Free(Escape(s), '+')
  {
    EscapeIsBytewise(TrimSpace(s));
    EscapedIsPlain(TrimSpace(s));
  }

  // -------------------------------------------------- the second form of escaping

  /** strings.Replace for a longer text, everywhere, from left to right. */
  function ReplaceText(s: string, code: string, to: string): string
    requires code != ""
    decreases |s|
  {
    if |s| < |code| then s
    else if s[..|code|] == code then to + ReplaceText(s[|code|..], code, to)
    else [s[0]] + ReplaceText(s[1..], code, to)
  }

  /** Escaping for identifiers: two codes become their characters again, and underscores,
      tildes and the plus of a space are left. */
  function EscapeForStr64(s: Bytes): string {
    ReplaceText(ReplaceText(QueryEscape(TrimSpace(s)), "%21", "!"), "%40", "@")
  }

  function QueryOne(c: char): string
    requires (c as int) < 256
  {
    if Unreserved(c) then [c] else if c == ' ' then "+" else PercentCode(c)
  }

  function Str64One(c: char): string
    requires (c as int) < 256
  {
    if c == '!' then "!" else if c == '@' then "@" else QueryOne(c)
  }

  function Str64All(s: Bytes): string {
    if s == "" then "" else Str64One(s[0]) + Str64All(s[1..])
  }

  /** One character other than the percent sign, or a percent sign and two others. */
  predicate Block(p: string) {
    (|p| == 1 && p[0] != '%') || (|p| == 3 && p[0] == '%' && p[1] != '%' && p[2] != '%')
  }

  lemma PassOver(c: char, rest: string, code: string, to: string)
    requires Block(code) && |code| == 3 && c != '%'
    ensures ReplaceText([c] + rest, code, to) == [c] + ReplaceText(rest, code, to)
  {
    var s := [c] + rest;
    assert s[1..] == rest;
    if |s| >= 3 {
      assert s[..3][0] == c && code[0] == '%';
    }
  }

  /** A code is replaced as a whole or left as a whole, whatever follows it. */
  lemma ReplaceBlock(p: string, rest: string, code: string, to: string)
    requires Block(p) && Block(code) && |code| == 3
    ensures ReplaceText(p + rest, code, to) == (if p == code then to else p) + ReplaceText(rest, code, to)
  {
    if |p| == 1 {
      assert p == [p[0]];
      PassOver(p[0], rest, code, to);
    } else {
      var s := p + rest;
      assert s[..3] == p && s[3..] == rest;
      if p != code {
        assert s[1..] == [p[1]] + ([p[2]] + rest);
        PassOver(p[1], [p[2]] + rest, code, to);
        PassOver(p[2], rest, code, to);
        assert p == [p[0]] + [p[1]] + [p[2]];
      }
    }
  }

  lemma CodeIsBlock(c: char)
    requires (c as int) < 256
    ensures Block(QueryOne(c))
    ensures QueryOne(c) == "%21" <==> c == '!'
    ensures QueryOne(c) == "%40" <==> c == '@'
  {
    assert HexDigit(2) == '2' && HexDigit(1) == '1' && HexDigit(4) == '4' && HexDigit(0) == '0';
  }

  lemma {:induction false} ReplacedBytewise(s: Bytes)
    ensures ReplaceText(ReplaceText(QueryEscape(s), "%21", "!"), "%40", "@") == Str64All(s)
  {
    if s != "" {
      var p, rest := QueryOne(s[0]), QueryEscape(s[1..]);
      CodeIsBlock(s[0]);
      ReplaceBlock(p, rest, "%21", "!");
      var p' := if p == "%21" then "!" else p;
      ReplaceBlock(p', ReplaceText(rest, "%21", "!"), "%40", "@");
      ReplacedBytewise(s[1..]);
    }
  }

  lemma UnescapeStr64One(c: char, rest: string)
    requires (c as int) < 256 && QueryUnescape(rest).Some?
    ensures QueryUnescape(Str64One(c) + rest) == Some([c] + QueryUnescape(rest).value)
  {
    var e := Str64One(c);
    if |e| == 1 {
      assert (e + rest)[1..] == rest;
    } else {
      assert e == Escaped(c);
      UnescapeOne(c, rest);
    }
  }

  lemma Str64OneIsPlain(c: char)
    requires (c as int) < 256
    ensures Str64One(c) != "" && Free(Str64One(c), ',') && Free(Str64One(c), ':')
    ensures Free(Str64One(c), '_') <==> c != '_'
  {}

  lemma {:induction false} Str64IsFree(s: Bytes)
    ensures Free(Str64All(s), ',') && Free(Str64All(s), ':')
    ensures Free(Str64All(s), '_') <==> Free(s, '_')
    ensures Str64All(s) == "" <==> s == ""
  {
    if s != "" {
      Str64IsFree(s[1..]);
      Str64OneIsPlain(s[0]);
      assert s == [s[0]] + s[1..];
    }
  }

  lemma {:induction false} Str64Undone(s: Bytes)
    ensures QueryUnescape(Str64All(s)) == Some(s)
  {
    if s != "" {
      Str64Undone(s[1..]);
      UnescapeStr64One(s[0], Str64All(s[1..]));
      assert [s[0]] + s[1..] == s;
    }
  }

  /** An identifier is unescaped to itself, trimmed; it holds no comma and no colon, but
      every underscore it had; and it is empty only if it was blank. */
  lemma EscapedForStr64(s: Bytes)
    ensures Unescape(EscapeForStr64(s)) == TrimSpace(s)
    ensures Free(EscapeForStr64(s), ',') && Free(EscapeForStr64(s), ':')
    ensures Free(EscapeForStr64(s), '_') <==> Free(TrimSpace(s), '_')
    ensures EscapeForStr64(s) == "" <==> TrimSpace(s) == ""
  {
    ReplacedBytewise(TrimSpace(s));
    Str64IsFree(TrimSpace(s));
    Str64Undone(TrimSpace(s));
  }

  predicate Graphic(c: char) {
    '!' <= c <= '~'
  }

  /** A text of visible ASCII characters has nothing to trim. */
  lemma GraphicIsTight(s: string)
    requires forall i :: 0 <= i < |s| ==> Graphic(s[i])
    ensures IsBytes(s) && TrimSpace(s) == s
  {
    if s != "" {
      assert Graphic(s[0]) && Graphic(s[|s| - 1]);
      assert |s| >= 2 ==> Graphic(s[|s| - 2]);
      assert |s| >= 3 ==> Graphic(s[|s| - 3]);
    }
    NothingToTrim(s);
  }

  /** A list of ids survives being stored escaped, as the child list of a package is. */
  lemma IdListSurvives(ns: seq<int>)
    ensures IsBytes(IntsText(ns)) && Unescape(Escape(IntsText(ns))) == IntsText(ns)
  {
    var s := IntsText(ns);
    IdTextChars(ns);
    assert forall i :: 0 <= i < |s| ==> IdChar(s[i]) ==> Graphic(s[i]);
    GraphicIsTight(s);
    UnescapeEscape(s);
  }

  predicate IdChar(c: char) {
    IsDigit(c) || c == '-' || c == ','
  }

  lemma {:induction false} IdTextChars(ns: seq<int>)
    ensures forall i :: 0 <= i < |IntsText(ns)| ==> IdChar(IntsText(ns)[i])
  {
    if ns != [] {
      var n := |ns| - 1;
      assert ns == ns[..n] + [ns[n]];
      IdTextChars(ns[..n]);
      IntsSnoc(ns[..n], ns[n]);
    }
  }

  // ----------------------------------------------- which bytes, and how written

  const HEX: string := "0123456789ABCDEF"

  lemma HexInOrder(v: nat)
    requires v < 16
    ensures |HEX| == 16 && HexDigit(v) == HEX[v]
  {}

  /** What escaping leaves as it is: letters, digits and three signs. */
  const KEPT: string := "-.~"

  /** Every byte alone: left if it is a letter, a digit or one of three signs; trimmed if it is
      a space; and otherwise a percent sign with its two hexadecimal digits. */
  lemma EscapedByte(c: char)
    requires (c as int) < 256 && !AsciiSpace(c)
    ensures Escape([c])
         == if 'a' <= c <= 'z' || 'A' <= c <= 'Z' || '0' <= c <= '9' || c in KEPT then [c]
            else ['%', HEX[c as int / 16], HEX[c as int % 16]]
  {
    HexInOrder(c as int / 16);
    HexInOrder(c as int % 16);
    NothingToTrim([c]);
    EscapeIsBytewise([c]);
    assert [c][1..] == [];
    assert EscapeAll([c]) == Escaped(c) + EscapeAll([]);
    assert c == '_' ==> HEX[5] == '5' && HEX[15] == 'F';
  }

  lemma TextAssoc(a: string, b: string, c: string)
    ensures a + (b + c) == a + b + c
  {}

  lemma {:induction false} EscapeAllConcat(x: Bytes, y: Bytes)
    ensures IsBytes(x + y) && EscapeAll(x + y) == EscapeAll(x) + EscapeAll(y)
  {
    if x == "" {
      assert x + y == y;
    } else {
      assert (x + y)[1..] == x[1..] + y && (x + y)[0] == x[0];
      EscapeAllConcat(x[1..], y);
      TextAssoc(Escaped(x[0]), EscapeAll(x[1..]), EscapeAll(y));
    }
  }

  lemma OneEscaped(c: char)
    requires (c as int) < 256
    ensures EscapeAll([c]) == Escaped(c)
  {
    assert [c][1..] == [];
    assert EscapeAll([c]) == Escaped(c) + EscapeAll([]);
  }

  lemma SpaceAtEnd(x: Bytes)
    ensures EscapeAll(x + [' ']) == EscapeAll(x) + "%20"
  {
    EscapeAllConcat(x, [' ']);
    OneEscaped(' ');
  }

  /** A space inside a text is written %20. */
  lemma EscapedSpace(x: Bytes, y: Bytes, s: Bytes)
    requires s == x + [' '] + y
    ensures EscapeAll(s) == EscapeAll(x) + "%20" + EscapeAll(y)
  {
    SpaceAtEnd(x);
    EscapeAllConcat(x + [' '], y);
  }

  // ------------------------------------------------------------- what is trimmed

  /** The code points with the White_Space property (Unicode Standard Annex 44) that are
      below 65536; there are none above. */
  predicate WhiteSpace(u: nat) {
    9 <= u <= 13 || u == 0x20 || u == 0x85 || u == 0xA0 || u == 0x1680 || 0x2000 <= u <= 0x200A
    || u == 0x2028 || u == 0x2029 || u == 0x202F || u == 0x205F || u == 0x3000
  }

  /** A code point's bytes (section 3 of RFC 3629). */
  function Utf8(u: nat): Bytes
    requires u < 0x10000
  {
    if u < 0x80 then [u as char]
    else if u < 0x800 then [(0xC0 + u / 64) as char, (0x80 + u % 64) as char]
    else [(0xE0 + u / 4096) as char, (0x80 + u / 64 % 64) as char, (0x80 + u % 64) as char]
  }

  lemma OneByteSpaces(c: char)
    requires (c as int) < 0x80
    ensures SpaceAhead([c]) == SpaceBehind([c]) == (if AsciiSpace(c) then 1 else 0)
  {}

  lemma TwoByteSpaces(s: Bytes)
    requires |s| == 2 && !AsciiSpace(s[0]) && !AsciiSpace(s[1])
    ensures SpaceAhead(s) == SpaceBehind(s) == (if WideSpace(s) then 2 else 0)
  {
    assert s[..2] == s && s[0..] == s;
  }

  lemma ThreeByteSpaces(s: Bytes)
    requires |s| == 3 && s[0] as int >= 0xE0 && !AsciiSpace(s[1]) && !AsciiSpace(s[2])
    requires 0x80 <= s[1] as int < 0xC0 && 0x80 <= s[2] as int < 0xC0
    ensures SpaceAhead(s) == SpaceBehind(s) == (if WideSpace(s) then 3 else 0)
  {
    assert s[..3] == s && s[0..] == s;
    assert s[..2][0] == s[0] && s[1..][0] == s[1];
    assert !WideSpace(s[..2]) && !WideSpace(s[1..]);
  }

  lemma WideIsWhite(u: nat)
    requires 0x80 <= u < 0x10000
    ensures WideSpace(Utf8(u)) <==> WhiteSpace(u)
  {}

  /** What counts as white space at either end of a text is exactly the code points with that
      property, by their bytes. */
  lemma SpacesAreWhite(u: nat)
    requires u < 0x10000
    ensures SpaceAhead(Utf8(u)) == (if WhiteSpace(u) then |Utf8(u)| else 0)
    ensures SpaceBehind(Utf8(u)) == (if WhiteSpace(u) then |Utf8(u)| else 0)
  {
    if u < 0x80 {
      OneByteSpaces(u as char);
    } else {
      WideIsWhite(u);
      if u < 0x800 {
        TwoByteSpaces(Utf8(u));
      } else {
        ThreeByteSpaces(Utf8(u));
      }
    }
  }
}
