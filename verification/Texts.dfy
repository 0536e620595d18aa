/** Splitting, joining and number printing, as strings.Split, strconv.Itoa and
    strconv.Atoi do them. */
module Texts {

  datatype Option<+T> = None | Some(value: T)

  predicate Free(s: string, sep: char) {
    sep !in s
  }

  predicate AllFree(xs: seq<string>, sep: char) {
    forall i :: 0 <= i < |xs| ==> Free(xs[i], sep)
  }

  /** strings.Split for a one-character separator; an empty text is one empty item. */
  function Split(s: string, sep: char): (r: seq<string>)
    ensures r != [] && AllFree(r, sep)
  {
    if s == "" then [""]
    else
      var tail := Split(s[1..], sep);
      assert Free(tail[0], sep);
      if s[0] == sep then [""] + tail else [[s[0]] + tail[0]] + tail[1..]
  }

  function Join(xs: seq<string>, sep: string): string {
    if xs == [] then ""
    else if |xs| == 1 then xs[0]
    else xs[0] + sep + Join(xs[1..], sep)
  }

  lemma {:induction false} SplitAtSep(x: string, rest: string, sep: char)
    requires Free(x, sep)
    ensures Split(x + [sep] + rest, sep) == [x] + Split(rest, sep)
  {
    if x == "" {
      assert x + [sep] + rest == [sep] + rest;
    } else {
      var s := x + [sep] + rest;
      assert s[1..] == x[1..] + [sep] + rest && s[0] == x[0];
      SplitAtSep(x[1..], rest, sep);
      assert [x[0]] + x[1..] == x;
    }
  }

  lemma {:induction false} SplitFree(x: string, sep: char)
    requires Free(x, sep)
    ensures Split(x, sep) == [x]
  {
    if x != "" {
      SplitFree(x[1..], sep);
      assert [x[0]] + x[1..] == x;
    }
  }

  /** A piece of a split text has no character the text has not. */
  lemma {:induction false} SplitKeepsFree(s: string, sep: char, c: char)
    requires Free(s, c)
    ensures AllFree(Split(s, sep), c)
  {
    if s != "" {
      SplitKeepsFree(s[1..], sep, c);
      var tail := Split(s[1..], sep);
      assert Free(tail[0], c);
    }
  }

  /** Splitting undoes joining. */
  lemma {:induction false} SplitJoin(xs: seq<string>, sep: char)
    requires xs != [] && AllFree(xs, sep)
    ensures Split(Join(xs, [sep]), sep) == xs
  {
    if |xs| == 1 {
      SplitFree(xs[0], sep);
    } else {
      var rest := Join(xs[1..], [sep]);
      assert AllFree(xs[1..], sep);
      SplitJoin(xs[1..], sep);
      SplitAtSep(xs[0], rest, sep);
      assert Join(xs, [sep]) == xs[0] + [sep] + rest;
      assert xs == [xs[0]] + xs[1..];
    }
  }

  lemma PiecesAssoc(c: char, a: seq<string>, b: seq<string>)
    requires a != []
    ensures [""] + (a + b) == ([""] + a) + b
    ensures [[c] + (a + b)[0]] + (a + b)[1..] == ([[c] + a[0]] + a[1..]) + b
  {
    assert (a + b)[0] == a[0] && (a + b)[1..] == a[1..] + b;
  }

  lemma {:induction false} SplitAcross(x: string, y: string, sep: char)
    ensures Split(x + [sep] + y, sep) == Split(x, sep) + Split(y, sep)
  {
    var s := x + [sep] + y;
    if x == "" {
      assert s == [sep] + y && s[1..] == y;
    } else {
      assert s[1..] == x[1..] + [sep] + y && s[0] == x[0];
      SplitAcross(x[1..], y, sep);
      PiecesAssoc(x[0], Split(x[1..], sep), Split(y, sep));
    }
  }

  lemma {:induction false} OnePieceIfFree(x: string, sep: char)
    ensures |Split(x, sep)| == 1 <==> Free(x, sep)
  {
    if x != "" {
      OnePieceIfFree(x[1..], sep);
    }
  }

  /** A joined text has a piece for each item, and no more just when no item holds the
      separator. */
  lemma {:induction false} PiecesOfJoin(xs: seq<string>, sep: char)
    requires xs != []
    ensures |Split(Join(xs, [sep]), sep)| >= |xs|
    ensures |Split(Join(xs, [sep]), sep)| == |xs| <==> AllFree(xs, sep)
  {
    OnePieceIfFree(xs[0], sep);
    if |xs| > 1 {
      PiecesOfJoin(xs[1..], sep);
      SplitAcross(xs[0], Join(xs[1..], [sep]), sep);
      assert Join(xs, [sep]) == xs[0] + [sep] + Join(xs[1..], [sep]);
      assert AllFree(xs, sep) <==> Free(xs[0], sep) && AllFree(xs[1..], sep) by {
        assert xs == [xs[0]] + xs[1..];
      }
    }
  }

  /** Joining undoes splitting. */
  lemma {:induction false} JoinSplit(s: string, sep: char)
    ensures Join(Split(s, sep), [sep]) == s
  {
    if s != "" {
      JoinSplit(s[1..], sep);
      var tail := Split(s[1..], sep);
      if s[0] == sep {
        assert ([""] + tail)[1..] == tail;
      } else {
        var r := Split(s, sep);
        assert r[1..] == tail[1..] && r[0] == [s[0]] + tail[0];
      }
    }
  }

  lemma {:induction false} JoinSnoc(xs: seq<string>, x: string, sep: string)
    ensures Join(xs + [x], sep) == if xs == [] then x else Join(xs, sep) + sep + x
  {
    if xs == [] {
      assert xs + [x] == [x];
    } else {
      JoinSnoc(xs[1..], x, sep);
      assert (xs + [x])[1..] == xs[1..] + [x];
    }
  }

  lemma JoinNext(f: seq<string>, k: nat, sep: string)
    requires 0 < k < |f|
    ensures Join(f[..k + 1], sep) == Join(f[..k], sep) + sep + f[k]
  {
    assert f[..k + 1] == f[..k] + [f[k]];
    JoinSnoc(f[..k], f[k], sep);
  }

  lemma {:induction false} JoinNonEmpty(xs: seq<string>, sep: string)
    requires xs != [] && xs[0] != ""
    ensures Join(xs, sep) != "" && Join(xs, sep)[0] == xs[0][0]
  {}

  lemma {:induction false} JoinFree(xs: seq<string>, sep: string, c: char)
    requires AllFree(xs, c) && Free(sep, c)
    ensures Free(Join(xs, sep), c)
  {
    if xs != [] {
      assert Free(xs[0], c);
      JoinFree(xs[1..], sep, c);
    }
  }

  // ---------------------------------------------------------------- numbers

  predicate IsDigit(c: char) {
    '0' <= c <= '9'
  }

  function DigitChar(d: nat): (c: char)
    requires d < 10
    ensures IsDigit(c)
  {
    ('0' as int + d) as char
  }

  function NatText(n: nat): (s: string)
    ensures s != "" && forall c :: c in s ==> IsDigit(c)
  {
    if n < 10 then [DigitChar(n)] else NatText(n / 10) + [DigitChar(n % 10)]
  }

  /** strconv.Itoa. */
  function Itoa(n: int): (s: string)
    ensures s != "" && forall c :: c in s ==> IsDigit(c) || c == '-'
  {
    if n < 0 then "-" + NatText(-n) else NatText(n)
  }

  function DigitsValue(s: string): Option<nat> {
    if s == "" then None
    else if !IsDigit(s[|s| - 1]) then None
    else
      var d := s[|s| - 1] as int - '0' as int;
      if |s| == 1 then Some(d)
      else match DigitsValue(s[..|s| - 1])
        case None => None
        case Some(v) => Some(10 * v + d)
  }

  /** strconv.Atoi: an optional sign, then one or more digits. */
  function Atoi(s: string): Option<int> {
    if s != "" && (s[0] == '-' || s[0] == '+') then
      match DigitsValue(s[1..])
      case None => None
      case Some(v) =>
        var n: int := v;
        Some(if s[0] == '-' then -n else n)
    else
      match DigitsValue(s)
      case None => None
      case Some(v) =>
        var n: int := v;
        Some(n)
  }

  lemma {:induction false} DigitsOfNatText(n: nat)
    ensures DigitsValue(NatText(n)) == Some(n)
  {
    if n >= 10 {
      DigitsOfNatText(n / 10);
      var s := NatText(n);
      assert s[..|s| - 1] == NatText(n / 10);
    }
  }

  lemma AtoiOfDigits(s: string, v: nat)
    requires s != "" && IsDigit(s[0]) && DigitsValue(s) == Some(v)
    ensures Atoi(s) == Some(v)
  {}

  lemma AtoiOfNegative(s: string, v: nat)
    requires DigitsValue(s) == Some(v)
    ensures Atoi("-" + s) == Some(0 - v)
  {
    assert ("-" + s)[1..] == s;
  }

  /** A printed number is read back. */
  lemma AtoiItoa(n: int)
    ensures Atoi(Itoa(n)) == Some(n)
  {
    if n < 0 {
      DigitsOfNatText(-n);
      AtoiOfNegative(NatText(-n), -n);
    } else {
      var s := NatText(n);
      DigitsOfNatText(n);
      assert s[0] in s;
      AtoiOfDigits(s, n);
    }
  }

  lemma ItoaInjective(n: int, m: int)
    requires Itoa(n) == Itoa(m)
    ensures n == m
  {
    AtoiItoa(n);
    AtoiItoa(m);
  }

  lemma ItoaFree(n: int, sep: char)
    requires !IsDigit(sep) && sep != '-'
    ensures Free(Itoa(n), sep)
  {}

  function Ints(ns: seq<int>): (xs: seq<string>)
    ensures |xs| == |ns| && forall i :: 0 <= i < |ns| ==> xs[i] == Itoa(ns[i])
  {
    seq(|ns|, i requires 0 <= i < |ns| => Itoa(ns[i]))
  }

  // ------------------------------------------------ what a number's text is

  const DECIMAL: string := "0123456789"

  lemma DigitsInOrder(d: nat)
    requires d < 10
    ensures |DECIMAL| == 10 && DECIMAL[d] as int == '0' as int + d && DigitChar(d) == DECIMAL[d]
  {}

  /** The last character of a number's text is its last digit, what is before it is the text
      of the rest, and a negative number has its sign in front. */
  lemma ItoaIsDecimal(n: int)
    ensures n < 0 ==> Itoa(n) == "-" + Itoa(-n)
    ensures 0 <= n < 10 ==> Itoa(n) == [DECIMAL[n]]
    ensures n >= 10 ==> Itoa(n) == Itoa(n / 10) + [DECIMAL[n % 10]]
  {
    if n >= 0 {
      DigitsInOrder(n % 10);
    }
  }

  predicate AllDigits(s: string) {
    forall i :: 0 <= i < |s| ==> s[i] in DECIMAL
  }

  lemma DigitsAreThese(c: char)
    ensures IsDigit(c) <==> c in DECIMAL
  {
    if IsDigit(c) {
      DigitsInOrder(c as int - '0' as int);
    }
  }

  lemma {:induction false} DigitsValueOf(s: string)
    ensures DigitsValue(s).Some? <==> s != "" && AllDigits(s)
  {
    if s != "" {
      var n := |s| - 1;
      DigitsAreThese(s[n]);
      DigitsValueOf(s[..n]);
      assert s == s[..n] + [s[n]];
    }
  }

  /** What is read as a number: digits, at least one, with or without a sign. */
  lemma AtoiReads(s: string)
    ensures Atoi(s).Some?
        <==> s != "" && var digits := if s[0] == '-' || s[0] == '+' then s[1..] else s; digits != "" && AllDigits(digits)
    ensures Atoi(s).Some? && s[0] == '+' ==> Atoi(s) == Atoi(s[1..])
    ensures Atoi(s).Some? && s[0] == '-' ==> Atoi(s[1..]).Some? && Atoi(s).value == -Atoi(s[1..]).value
  {
    DigitsValueOf(s);
    if s != "" {
      DigitsValueOf(s[1..]);
      DigitsAreThese('-');
      DigitsAreThese('+');
      if s[0] == '-' || s[0] == '+' {
        DigitsAreThese(s[0]);
        if |s| > 1 {
          assert s[1] == s[1..][0];
          DigitsAreThese(s[1]);
        }
      }
    }
  }

  lemma UnsignedIsDigits(s: string)
    requires s != "" && AllDigits(s)
    ensures Atoi(s).Some? && DigitsValue(s).Some? && Atoi(s).value == DigitsValue(s).value
  {
    AtoiReads(s);
    DigitsAreThese('-');
    DigitsAreThese('+');
    assert s[0] in DECIMAL;
  }

  /** One digit more multiplies by ten. */
  lemma AtoiGrows(s: string, d: nat)
    requires s != "" && AllDigits(s) && d < 10
    ensures Atoi(s).Some? && Atoi(s + [DECIMAL[d]]) == Some(10 * Atoi(s).value + d)
    ensures Atoi([DECIMAL[d]]) == Some(d)
  {
    DigitsInOrder(d);
    UnsignedIsDigits(s);
    UnsignedIsDigits([DECIMAL[d]]);
    UnsignedIsDigits(s + [DECIMAL[d]]);
    assert (s + [DECIMAL[d]])[..|s|] == s;
  }
}
