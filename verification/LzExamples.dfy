/** The decoder on literal inputs. */
module LzExamples {
  import opened LzBits
  import opened LzFormat
  import opened LzRoundTrip

  lemma Symbol(c: char, rest: string, s: string, v: nat)
    requires s == [c] + rest && BaseValue(c) == v
    ensures Stream(s) == SymbolBits(v) + Stream(rest)
  {
    assert s[1..] == rest;
  }

  lemma EightZeros()
    ensures Digits(0, 8) == [false, false, false, false, false, false, false, false]
  {}

  lemma Regroup(a: seq<bool>, s: seq<bool>, p: seq<bool>, q: seq<bool>, r: seq<bool>)
    requires a + s == p + q
    ensures a + (s + r) == p + (q + r)
  {
    assert a + (s + r) == (a + s) + r;
    assert p + (q + r) == (p + q) + r;
  }

  lemma Bits1()
    ensures SymbolBits(1) == [false, false, false, false, false, true]
  {}

  lemma Code0In2()
    ensures Digits(0, 2) == [false, false]
  {}

  lemma Bits24()
    ensures SymbolBits(24) == [false, true, true, false, false, false]
  {}

  lemma Code104In8()
    ensures Digits(104, 8) == [false, false, false, true, false, true, true, false]
  {}

  lemma Bits20()
    ensures SymbolBits(20) == [false, true, false, true, false, false]
  {}

  lemma Code0In3()
    ensures Digits(0, 3) == [false, false, false]
  {}

  lemma Bits48()
    ensures SymbolBits(48) == [true, true, false, false, false, false]
  {}

  lemma Code101In8()
    ensures Digits(101, 8) == [true, false, true, false, false, true, true, false]
  {}

  lemma Bits38()
    ensures SymbolBits(38) == [true, false, false, true, true, false]
  {}

  lemma Bits13()
    ensures SymbolBits(13) == [false, false, true, true, false, true]
  {}

  lemma Code108In8()
    ensures Digits(108, 8) == [false, false, true, true, false, true, true, false]
  {}

  lemma Code6In4()
    ensures Digits(6, 4) == [false, true, true, false]
  {}

  lemma Bits3()
    ensures SymbolBits(3) == [false, false, false, false, true, true]
  {}

  lemma Code0In4()
    ensures Digits(0, 4) == [false, false, false, false]
  {}

  lemma Bits54()
    ensures SymbolBits(54) == [true, true, false, true, true, false]
  {}

  lemma Code111In8()
    ensures Digits(111, 8) == [true, true, true, true, false, true, true, false]
  {}

  lemma Bits16()
    ensures SymbolBits(16) == [false, true, false, false, false, false]
  {}

  lemma Code2In4()
    ensures Digits(2, 4) == [false, true, false, false]
  {}

  lemma Bits32()
    ensures SymbolBits(32) == [true, false, false, false, false, false]
  {}

  lemma Code1In2()
    ensures Digits(1, 2) == [true, false]
  {}

  lemma Bits0()
    ensures SymbolBits(0) == [false, false, false, false, false, false]
  {}

  lemma Bits2()
    ensures SymbolBits(2) == [false, false, false, false, true, false]
  {}

  lemma {:induction false} ShiftedDigits(v: nat, k: nat, n: nat)
    ensures Digits(Pow2(k) * v, k + n) == Digits(0, k) + Digits(v, n)
  {
    if k > 0 {
      MulAssoc(2, Pow2(k - 1), v);
      ShiftedDigits(v, k - 1, n);
    }
  }

  lemma Code256In16()
    ensures Digits(256, 16) == Digits(0, 8) + [true, false, false, false, false, false, false, false]
  {
    assert Pow2(8) == 256;
    ShiftedDigits(1, 8, 8);
    assert Digits(1, 8) == [true, false, false, false, false, false, false, false];
  }

  lemma Code2In3()
    ensures Digits(2, 3) == [false, true, false]
  {}

  // The bits of the examples, code by code: what is left of a symbol goes to the next code.

  lemma Hello0(more: string)
    ensures [] + Stream("B" + more)
         == Digits(0, 2) + ([false, false, false, true] + Stream(more))
  {
    Symbol('B', more, "B" + more, 1);
    Bits1();
    Code0In2();
    Regroup([], [false, false, false, false, false, true],
            [false, false], [false, false, false, true], Stream(more));
  }

  lemma Hello1(more: string)
    ensures [false, false, false, true] + Stream("Y" + more)
         == Digits(104, 8) + ([false, false] + Stream(more))
  {
    Symbol('Y', more, "Y" + more, 24);
    Bits24();
    Code104In8();
    Regroup([false, false, false, true], [false, true, true, false, false, false],
            [false, false, false, true, false, true, true, false], [false, false], Stream(more));
  }

  lemma Hello2(more: string)
    ensures [false, false] + Stream("U" + more)
         == Digits(0, 3) + ([true, false, true, false, false] + Stream(more))
  {
    Symbol('U', more, "U" + more, 20);
    Bits20();
    Code0In3();
    Regroup([false, false], [false, true, false, true, false, false],
            [false, false, false], [true, false, true, false, false], Stream(more));
  }

  lemma Hello3(more: string)
    ensures [true, false, true, false, false] + Stream("w" + more)
         == Digits(101, 8) + ([false, false, false] + Stream(more))
  {
    Symbol('w', more, "w" + more, 48);
    Bits48();
    Code101In8();
    Regroup([true, false, true, false, false], [true, true, false, false, false, false],
            [true, false, true, false, false, true, true, false], [false, false, false], Stream(more));
  }

  lemma Hello4(more: string)
    ensures [false, false, false] + Stream(more)
         == Digits(0, 3) + ([] + Stream(more))
  {
    Code0In3();
    Regroup([false, false, false], [],
            [false, false, false], [], Stream(more));
  }

  lemma Hello5(more: string)
    ensures [] + Stream("Nm" + more)
         == Digits(108, 8) + ([false, true, true, false] + Stream(more))
  {
    Symbol('m', more, "m" + more, 38);
    Bits38();
    Symbol('N', "m" + more, "Nm" + more, 13);
    Bits13();
    Code108In8();
    Regroup([false, false, true, true, false, true], [true, false, false, true, true, false],
            [false, false, true, true, false, true, true, false], [false, true, true, false], Stream(more));
  }

  lemma Hello6(more: string)
    ensures [false, true, true, false] + Stream(more)
         == Digits(6, 4) + ([] + Stream(more))
  {
    Code6In4();
    Regroup([false, true, true, false], [],
            [false, true, true, false], [], Stream(more));
  }

  lemma Hello7(more: string)
    ensures [] + Stream("D" + more)
         == Digits(0, 4) + ([true, true] + Stream(more))
  {
    Symbol('D', more, "D" + more, 3);
    Bits3();
    Code0In4();
    Regroup([], [false, false, false, false, true, true],
            [false, false, false, false], [true, true], Stream(more));
  }

  lemma Hello8(more: string)
    ensures [true, true] + Stream("2" + more)
         == Digits(111, 8) + ([] + Stream(more))
  {
    Symbol('2', more, "2" + more, 54);
    Bits54();
    Code111In8();
    Regroup([true, true], [true, true, false, true, true, false],
            [true, true, true, true, false, true, true, false], [], Stream(more));
  }

  lemma Hello9(more: string)
    ensures [] + Stream("Q" + more)
         == Digits(2, 4) + ([false, false] + Stream(more))
  {
    Symbol('Q', more, "Q" + more, 16);
    Bits16();
    Code2In4();
    Regroup([], [false, true, false, false, false, false],
            [false, true, false, false], [false, false], Stream(more));
  }

  lemma Wide0(more: string)
    ensures [] + Stream("g" + more)
         == Digits(1, 2) + ([false, false, false, false] + Stream(more))
  {
    Symbol('g', more, "g" + more, 32);
    Bits32();
    Code1In2();
    Regroup([], [true, false, false, false, false, false],
            [true, false], [false, false, false, false], Stream(more));
  }

  lemma Wide1(more: string)
    ensures [false, false, false, false] + Stream("CA" + more) == Digits(256, 16) + ([] + Stream(more))
  {
    var low, high := [false, false, false, false, false, false, false, false], [true, false, false, false, false, false, false, false];
    Symbol('A', more, "A" + more, 0);
    Bits0();
    Symbol('C', "A" + more, "CA" + more, 2);
    Bits2();
    Code256In16();
    EightZeros();
    Regroup([false, false, false, false], SymbolBits(2), low, [true, false], Stream("A" + more));
    Regroup([true, false], SymbolBits(0), high, [], Stream(more));
    BitsAssoc(low, high, [] + Stream(more));
  }

  lemma Wide2(more: string)
    ensures [] + Stream("Q" + more)
         == Digits(2, 3) + ([false, false, false] + Stream(more))
  {
    Symbol('Q', more, "Q" + more, 16);
    Bits16();
    Code2In3();
    Regroup([], [false, true, false, false, false, false],
            [false, true, false], [false, false, false], Stream(more));
  }

  // ------------------------------------------------------------ steps on codes

  lemma Literally(c: CodeUnit, more: seq<bool>, t: Table, last: string, bits: seq<bool>)
    requires c < 256 && more != [] && t.width >= 2 && bits == Digits(0, t.width) + (Digits(c, 8) + more)
    ensures GetString(last, bits, t) == Text([RuneOf(c)], more, Append(t, [RuneOf(c)]))
  {
    LiteralReadBack(c, more, t, last);
    BitsAssoc(Digits(0, t.width), Digits(c, 8), more);
    assert Runes([c]) == [RuneOf(c)];
  }

  lemma WideLiterally(c: CodeUnit, more: seq<bool>, t: Table, last: string, bits: seq<bool>)
    requires more != [] && t.width >= 2 && bits == Digits(1, t.width) + (Digits(c, 16) + more)
    ensures GetString(last, bits, t) == Text([RuneOf(c)], more, Append(t, [RuneOf(c)]))
  {
    LiteralReadBack(c, more, t, last);
    BitsAssoc(Digits(1, t.width), Digits(c, 16), more);
    assert Runes([c]) == [RuneOf(c)];
  }

  lemma ByEntry(k: nat, more: seq<bool>, t: Table, last: string, bits: seq<bool>)
    requires 2 < k < |t.entries| && k < Pow2(t.width) && more != [] && bits == Digits(k, t.width) + more
    ensures GetString(last, bits, t) == Text(t.entries[k], more, t)
  {
    CodeReadBack(k, t.width, more);
  }

  /** The code after the last entry is the last piece with its first character again; a code
      beyond it ends the decoding in an error, with the text so far. */
  lemma BeyondTheTable(k: nat, more: seq<bool>, h: Head)
    requires 2 < k < Pow2(h.table.width) && more != [] && h.bits == Digits(k, h.table.width) + more && h.last != ""
    ensures k == |h.table.entries| ==>
      GetString(h.last, h.bits, h.table) == Text(h.last + [h.last[0]], more, h.table)
    ensures k > |h.table.entries| ==> Step(h) == Stop(BadCode(h.result))
  {
    CodeReadBack(k, h.table.width, more);
  }

  lemma Grown(t: Table, s: string, r: Table)
    requires r == if t.room == 1 then Table(t.entries + [s], Pow2(t.width), t.width + 1)
                  else Table(t.entries + [s], t.room - 1, t.width)
    ensures Append(t, s) == r
  {}

  /** A piece taken, and the entry made of the last one and its first rune. */
  lemma StepText(h: Head, s: string, rest: seq<bool>, t: Table, r: Table)
    requires GetString(h.last, h.bits, h.table) == Text(s, rest, t) && s != "" && Append(t, h.last + [s[0]]) == r
    ensures Step(h) == Continue(Head(rest, r, s, h.result + s))
  {}

  // ------------------------------------------------------------------ examples

  const T1: Table := Table(["0", "1", "2", "h"], 4, 3)
  const T2: Table := Table(["0", "1", "2", "h", "e", "he"], 2, 3)
  const T3: Table := Table(["0", "1", "2", "h", "e", "he", "l", "el"], 8, 4)
  const T4: Table := Table(["0", "1", "2", "h", "e", "he", "l", "el", "ll"], 7, 4)
  const T5: Table := Table(["0", "1", "2", "h", "e", "he", "l", "el", "ll", "o", "lo"], 5, 4)

  lemma HelloFirst(more: string)
    ensures First("BY" + more) == Continue(Head([false, false] + Stream(more), T1, "h", "h"))
  {
    Hello0("Y" + more);
    Hello1(more);
    assert "B" + ("Y" + more) == "BY" + more;
    var rest := [false, false] + Stream(more);
    Literally(104, rest, INITIAL, "", Stream("BY" + more));
    Grown(INITIAL, "h", Table(["0", "1", "2", "h"], 4, 2));
  }

  lemma HelloE(more: string)
    ensures Step(Head([false, false] + Stream("Uw" + more), T1, "h", "h"))
         == Continue(Head([false, false, false] + Stream(more), T2, "e", "he"))
  {
    Hello2("w" + more);
    Hello3(more);
    assert "U" + ("w" + more) == "Uw" + more;
    var h := Head([false, false] + Stream("Uw" + more), T1, "h", "h");
    var rest := [false, false, false] + Stream(more);
    var t := Table(["0", "1", "2", "h", "e"], 3, 3);
    Literally(101, rest, T1, "h", h.bits);
    Grown(T1, "e", t);
    Grown(t, "he", T2);
    assert "h" + ['e'] == "he";
    StepText(h, "e", rest, t, T2);
  }

  lemma HelloL(more: string)
    ensures Step(Head([false, false, false] + Stream("Nm" + more), T2, "e", "he"))
         == Continue(Head([false, true, true, false] + Stream(more), T3, "l", "hel"))
  {
    Hello4("Nm" + more);
    Hello5(more);
    var h := Head([false, false, false] + Stream("Nm" + more), T2, "e", "he");
    var rest := [false, true, true, false] + Stream(more);
    var t := Table(["0", "1", "2", "h", "e", "he", "l"], 1, 3);
    Literally(108, rest, T2, "e", h.bits);
    Grown(T2, "l", t);
    assert Pow2(3) == 8;
    Grown(t, "el", T3);
    assert "e" + ['l'] == "el" && "he" + "l" == "hel";
    StepText(h, "l", rest, t, T3);
  }

  lemma HelloLL(more: string)
    requires more != ""
    ensures Step(Head([false, true, true, false] + Stream(more), T3, "l", "hel"))
         == Continue(Head([] + Stream(more), T4, "l", "hell"))
  {
    Hello6(more);
    var h := Head([false, true, true, false] + Stream(more), T3, "l", "hel");
    var rest := [] + Stream(more);
    assert Pow2(4) == 16;
    ByEntry(6, rest, T3, "l", h.bits);
    Grown(T3, "ll", T4);
    assert "l" + ['l'] == "ll" && "hel" + "l" == "hell";
    StepText(h, "l", rest, T3, T4);
  }

  lemma HelloO(more: string)
    requires more != ""
    ensures Step(Head([] + Stream("D2" + more), T4, "l", "hell"))
         == Continue(Head([] + Stream(more), T5, "o", "hello"))
  {
    assert "D" + ("2" + more) == "D2" + more;
    Hello7("2" + more);
    Hello8(more);
    LiteralO(Head([] + Stream("D2" + more), T4, "l", "hell"), [] + Stream(more));
  }

  lemma LiteralO(h: Head, rest: seq<bool>)
    requires h.table == T4 && h.last == "l" && h.result == "hell"
    requires h.bits == Digits(0, 4) + (Digits(111, 8) + rest) && rest != []
    ensures Step(h) == Continue(Head(rest, T5, "o", "hello"))
  {
    var t := Table(["0", "1", "2", "h", "e", "he", "l", "el", "ll", "o"], 6, 4);
    Literally(111, rest, T4, "l", h.bits);
    Grown(T4, "o", t);
    assert "l" + ['o'] == "lo" && "hell" + "o" == "hello";
    Grown(t, "lo", T5);
    StepText(h, "o", rest, t, T5);
  }

  lemma RunNext(h: Head, next: Head)
    requires h.table.width > 0 && Step(h) == Continue(next)
    ensures next.table.width > 0 && Run(h) == Run(next)
  {}

  lemma HelloEnds()
    ensures Run(Head([] + Stream("Q"), T5, "o", "hello")) == Decoded("hello")
  {
    Hello9("");
    assert "Q" + "" == "Q" && Stream("") == [];
    RunsToTheEnd(T5, [false, false], "o", "hello");
  }

  /** The symbols BYUwNmD2Q are the text hello. */
  lemma Hello(input: string)
    requires input == "BYUwNmD2Q"
    ensures Decode(input) == Decoded("hello")
  {
    var s1, s2, s3, s4 := input[2..], input[4..], input[6..], input[8..];
    assert input == "BY" + s1 && s1 == "Uw" + s2 && s2 == "Nm" + s3 && s3 == "D2" + s4 && s4 == "Q";
    HelloFirst(s1);
    HelloE(s2);
    RunNext(Head([false, false] + Stream(s1), T1, "h", "h"), Head([false, false, false] + Stream(s2), T2, "e", "he"));
    HelloL(s3);
    RunNext(Head([false, false, false] + Stream(s2), T2, "e", "he"),
            Head([false, true, true, false] + Stream(s3), T3, "l", "hel"));
    HelloLL(s3);
    RunNext(Head([false, true, true, false] + Stream(s3), T3, "l", "hel"), Head([] + Stream(s3), T4, "l", "hell"));
    HelloO(s4);
    RunNext(Head([] + Stream(s3), T4, "l", "hell"), Head([] + Stream(s4), T5, "o", "hello"));
    HelloEnds();
  }

  lemma WideBits(input: string, rest: string, more: string)
    requires input == "g" + rest && rest == "CA" + more
    ensures Stream(input) == Digits(1, 2) + (Digits(256, 16) + ([] + Stream(more)))
  {
    Wide0(rest);
    Wide1(more);
    assert [] + Stream(input) == Stream(input);
  }

  lemma WideOpens(input: string, rest: seq<bool>)
    requires input != "" && rest != [] && Stream(input) == Digits(1, 2) + (Digits(256, 16) + rest)
    ensures First(input) == Continue(Head(rest, Table(["0", "1", "2", "\U{100}"], 4, 3), "\U{100}", "\U{100}"))
  {
    WideLiterally(256, rest, INITIAL, "", Stream(input));
    assert RuneOf(256) == '\U{100}';
    Grown(INITIAL, "\U{100}", Table(["0", "1", "2", "\U{100}"], 4, 2));
  }

  /** The symbols gCAQ are the one character 256, which takes sixteen bits. */
  lemma Wide(input: string)
    requires input == "gCAQ"
    ensures Decode(input) == Decoded("\U{100}")
  {
    assert input == "g" + input[1..] && input[1..] == "CA" + input[3..] && input[3..] == "Q";
    WideBits(input, input[1..], input[3..]);
    WideOpens(input, [] + Stream(input[3..]));
    Wide2("");
    assert "Q" + "" == "Q" && Stream("") == [];
    RunsToTheEnd(Table(["0", "1", "2", "\U{100}"], 4, 3), [false, false, false], "\U{100}", "\U{100}");
  }
}
