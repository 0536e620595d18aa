/** The encoder of the LZ-string format, and the proof that decoding undoes it. The
    repository holds only the decoder; the encoder here follows the format's own
    algorithm: one pass over 16-bit units, a dictionary that gives every unit a code
    when it is first seen, and its own count of the codes left at the current width. */
module LzRoundTrip {
  import opened LzBits
  import opened LzFormat

  type CodeUnit = v: nat | v < 0x10000
  type Word = seq<CodeUnit>

  /** Entry i has code i + 3; an unsent word is a unit that was seen but never written. */
  datatype Encoder = Encoder(entries: seq<Word>, unsent: set<Word>, room: int, width: nat)

  const START: Encoder := Encoder([], {}, 2, 2)

  function Runes(w: Word): (s: string)
    ensures |s| == |w|
  {
    seq(|w|, i requires 0 <= i < |w| => RuneOf(w[i]))
  }

  function IndexOf(w: Word, entries: seq<Word>): (i: nat)
    requires w in entries
    ensures i < |entries| && entries[i] == w
    ensures forall j :: 0 <= j < i ==> entries[j] != w
  {
    if entries[0] == w then 0 else 1 + IndexOf(w, entries[1..])
  }

  function See(e: Encoder, c: CodeUnit): Encoder {
    if [c] in e.entries then e
    else e.(entries := e.entries + [[c]], unsent := e.unsent + {[c]})
  }

  function CountDown(e: Encoder): (r: Encoder)
    ensures r.entries == e.entries && r.unsent == e.unsent && r.width >= e.width
  {
    if e.room - 1 == 0 then e.(room := Pow2(e.width), width := e.width + 1) else e.(room := e.room - 1)
  }

  /** The bits for one word: a literal when it is unsent, else its code. */
  function WordBits(e: Encoder, w: Word): seq<bool>
    requires w != [] && w in e.entries
  {
    if w in e.unsent then
      if w[0] < 256 then Digits(0, e.width) + Digits(w[0], 8) else Digits(1, e.width) + Digits(w[0], 16)
    else
      Digits(3 + IndexOf(w, e.entries), e.width)
  }

  function Written(e: Encoder, w: Word): (r: Encoder)
    ensures r.entries == e.entries && r.unsent == e.unsent - {w} && r.width >= e.width
  {
    if w in e.unsent
    then CountDown(CountDown(e).(unsent := e.unsent - {w}))
    else CountDown(e)
  }

  /** Encodes the pending word w and what follows it. */
  function EncodeFrom(e: Encoder, w: Word, rest: Word): (bits: seq<bool>)
    requires w in e.entries || w == []
    ensures e.width > 0 ==> bits != []
    decreases |rest|
  {
    if rest == [] then
      if w == [] then Digits(2, e.width)
      else WordBits(e, w) + Digits(2, Written(e, w).width)
    else
      var c := rest[0];
      var e1 := See(e, c);
      if w + [c] in e1.entries then
        EncodeFrom(e1, w + [c], rest[1..])
      else
        assert w != [] by {
          assert w == [] ==> w + [c] == [c];
        }
        var e2 := Written(e1, w);
        WordBits(e1, w) + EncodeFrom(e2.(entries := e2.entries + [w + [c]]), [c], rest[1..])
  }

  function Encode(text: Word): string {
    Flush(EncodeFrom(START, [], text))
  }

  // ------------------------------------------------------------- agreement

  /** Every unit of a word has an entry of its own. */
  ghost predicate UnitsIn(w: Word, entries: seq<Word>) {
    forall j :: 0 <= j < |w| ==> [w[j]] in entries
  }

  ghost predicate Closed(entries: seq<Word>) {
    forall i :: 0 <= i < |entries| ==> entries[i] != [] && UnitsIn(entries[i], entries)
  }

  /** The decoder's table holds exactly the known words. */
  ghost predicate Holds(t: Table, known: seq<Word>) {
    && |t.entries| == |known| + 3
    && (forall i :: 0 <= i < |known| ==> t.entries[i + 3] == Runes(known[i]))
    && t.width >= 2 && t.room >= 1
    && |t.entries| + t.room == Pow2(t.width)
  }

  /** The encoder runs ahead of the decoder by the pending word, if it is unsent, and
      by the word the decoder will add when it sees the pending word's first unit. */
  ghost predicate Ahead(e: Encoder, w: Word, last: Word, known: seq<Word>) {
    && w != [] && last != []
    && Closed(known) && UnitsIn(last, known)
    && (if w in e.unsent then
          |w| == 1 && e.unsent == {w} && w !in known && e.entries == known + [w, last + [w[0]]]
        else
          e.unsent == {} && UnitsIn(w, known) && e.entries == known + [last + [w[0]]] && w in e.entries)
  }

  ghost predicate SameCount(e: Encoder, t: Table) {
    e.width == t.width && e.room == t.room
  }

  lemma RunesConcat(x: Word, y: Word)
    ensures Runes(x + y) == Runes(x) + Runes(y)
  {}

  lemma RunesOfJoined(last: Word, w: Word)
    requires last != [] && w != []
    ensures ConcatWithFirstRune(Runes(last), Runes(w)) == Runes(last + [w[0]])
  {}

  /** A code written at the current width is read back. */
  lemma CodeReadBack(c: nat, width: nat, more: seq<bool>)
    requires c < Pow2(width)
    ensures var bits := Digits(c, width) + more;
      |bits| == width + |more| && Value(bits[..width]) == c && bits[width..] == more
  {
    ValueOfDigits(c, width);
    var bits := Digits(c, width) + more;
    assert bits[..width] == Digits(c, width) && bits[width..] == more;
  }

  lemma UnitWidths(width: nat)
    requires width >= 2
    ensures Pow2(width) >= 4 && Pow2(8) == 256 && Pow2(16) == 0x10000
  {
    Pow2Monotone(2, width);
    assert Pow2(2) == 4;
    assert Pow2(4) == 16;
    assert Pow2(12) == 4096 by { assert Pow2(8) == 256; }
  }

  lemma LiteralBits(n: nat, c: CodeUnit, more: seq<bool>, t: Table)
    requires more != [] && n <= 16 && c < Pow2(n)
    ensures Literal(n, Digits(c, n) + more, t) == Text(Runes([c]), more, Append(t, Runes([c])))
  {
    CodeReadBack(c, n, more);
    assert Runes([c]) == [RuneOf(c)];
  }

  /** A literal of n bits after its mark. */
  lemma MarkedLiteral(mark: nat, n: nat, c: CodeUnit, more: seq<bool>, t: Table, last: string)
    requires more != [] && t.width >= 2 && ((mark == 0 && n == 8) || (mark == 1 && n == 16)) && c < Pow2(n)
    ensures GetString(last, Digits(mark, t.width) + Digits(c, n) + more, t)
         == Text(Runes([c]), more, Append(t, Runes([c])))
  {
    UnitWidths(t.width);
    BitsAssoc(Digits(mark, t.width), Digits(c, n), more);
    CodeReadBack(mark, t.width, Digits(c, n) + more);
    LiteralBits(n, c, more, t);
  }

  lemma LiteralReadBack(c: CodeUnit, more: seq<bool>, t: Table, last: string)
    requires more != [] && t.width >= 2
    ensures c < 256 ==>
      GetString(last, Digits(0, t.width) + Digits(c, 8) + more, t) == Text(Runes([c]), more, Append(t, Runes([c])))
    ensures GetString(last, Digits(1, t.width) + Digits(c, 16) + more, t) == Text(Runes([c]), more, Append(t, Runes([c])))
  {
    UnitWidths(t.width);
    if c < 256 {
      MarkedLiteral(0, 8, c, more, t, last);
    }
    MarkedLiteral(1, 16, c, more, t, last);
  }

  /** One written word is one piece for the decoder, whichever way it was written: as
      a literal, as a known entry, or as the entry the decoder is about to make. */
  lemma WordReadBack(e: Encoder, e1: Encoder, w: Word, last: Word, known: seq<Word>, t: Table, more: seq<bool>)
    requires Ahead(e, w, last, known) && Holds(t, known) && SameCount(e, t) && more != []
    requires e1.width == e.width && e.entries <= e1.entries && (w in e1.unsent <==> w in e.unsent)
    ensures w in e1.entries
    ensures GetString(Runes(last), WordBits(e1, w) + more, t)
         == Text(Runes(w), more, if w in e.unsent then Append(t, Runes(w)) else t)
  {
    var k := IndexOf(w, e.entries);
    assert e1.entries[k] == w;
    if w in e.unsent {
      assert w == [w[0]];
      LiteralReadBack(w[0], more, t, Runes(last));
    } else {
      var i := IndexOf(w, e1.entries);
      assert i <= k;
      assert e1.entries[i] == e.entries[i];
      CodeReadBack(3 + i, t.width, more);
      if i == |known| {
        assert w == last + [w[0]];
        assert w[0] == last[0];
        RunesOfJoined(last, last);
      }
    }
  }

  lemma AppendHolds(t: Table, known: seq<Word>, w: Word)
    requires Holds(t, known)
    ensures Holds(Append(t, Runes(w)), known + [w])
  {
    assert t.room == 1 ==> Pow2(t.width + 1) == 2 * Pow2(t.width);
  }

  lemma ClosedGrows(known: seq<Word>, w: Word)
    requires Closed(known) && w != [] && UnitsIn(w, known + [w])
    ensures Closed(known + [w])
  {
    forall i | 0 <= i < |known + [w]|
      ensures UnitsIn((known + [w])[i], known + [w])
    {
      if i < |known| {
        assert UnitsIn(known[i], known);
      }
    }
  }

  lemma UnsentIsNotExtended(e: Encoder, w: Word, c: CodeUnit, last: Word, known: seq<Word>)
    requires Ahead(e, w, last, known) && w in e.unsent
    ensures w + [c] !in e.entries
  {
    assert w == [w[0]] && (w + [c])[0] == w[0];
    forall i | 0 <= i < |e.entries|
      ensures e.entries[i] != w + [c]
    {
      if i < |known| {
        assert UnitsIn(known[i], known);
        assert [known[i][0]] in known;
      } else if i == |known| + 1 {
        assert [last[0]] in known;
        assert e.entries[i][0] == last[0];
      }
    }
  }

  /** While the pending word grows, the encoder adds nothing. */
  lemma GrowingKeeps(e: Encoder, w: Word, c: CodeUnit, last: Word, known: seq<Word>)
    requires Ahead(e, w, last, known) && w + [c] in See(e, c).entries
    ensures See(e, c) == e && Ahead(e, w + [c], last, known)
  {
    var wc := w + [c];
    assert wc[0] == w[0] && wc[|w|] == c && wc != [c];
    if w in e.unsent {
      UnsentIsNotExtended(e, w, c, last, known);
    }
    var i := IndexOf(wc, See(e, c).entries);
    assert i < |e.entries| && e.entries[i] == wc;
    if i < |known| {
      assert UnitsIn(known[i], known);
    } else {
      assert c == w[0];
    }
    assert [c] in known;
  }

  /** After a word is written, the encoder is again one word ahead. */
  lemma WritingKeeps(e: Encoder, w: Word, c: CodeUnit, last: Word, known: seq<Word>)
    requires Ahead(e, w, last, known)
    ensures Ahead(AfterWord(e, w, c), [c], w, e.entries)
  {
    assert Closed(e.entries) && UnitsIn(w, e.entries) by {
      if w in e.unsent {
        assert w == [w[0]];
        assert (known + [w])[|known|] == w;
        ClosedGrows(known, w);
        assert e.entries == (known + [w]) + [last + [w[0]]];
        JoinedUnits(last, w[0], known + [w]);
        ClosedGrows(known + [w], last + [w[0]]);
        assert e.entries[|known|] == w;
      } else {
        JoinedUnits(last, w[0], known);
        ClosedGrows(known, last + [w[0]]);
      }
    }
    var e1 := See(e, c);
    if [c] in e.entries {
      assert e1 == e;
      assert [c] !in e1.unsent - {w};
      UnitIn(c, e.entries);
    } else {
      assert w in e.entries;
      assert e1.unsent - {w} == {[c]};
      assert e1.entries + [w + [c]] == e.entries + [[c], w + [c]];
    }
  }

  lemma UnitIn(c: CodeUnit, entries: seq<Word>)
    requires [c] in entries
    ensures UnitsIn([c], entries)
  {}

  lemma JoinedUnits(last: Word, c: CodeUnit, known: seq<Word>)
    requires UnitsIn(last, known) && [c] in known
    ensures UnitsIn(last + [c], known + [last + [c]])
  {}

  // ------------------------------------------------------------ round trip

  /** Reading the end mark fetches the symbol behind it, so a bit must follow it. */
  function Ending(pad: seq<bool>, text: string): Outcome {
    if pad == [] then Crash else Decoded(text)
  }

  lemma EndReadBack(t: Table, pad: seq<bool>, last: string)
    requires t.width >= 2
    ensures GetString(last, Digits(2, t.width) + pad, t) == if pad == [] then Overrun else End
  {
    Pow2Monotone(2, t.width);
    assert Pow2(2) == 4;
    CodeReadBack(2, t.width, pad);
  }

  lemma RunsToTheEnd(t: Table, pad: seq<bool>, last: string, out: string)
    requires t.width >= 2
    ensures Run(Head(Digits(2, t.width) + pad, t, last, out)) == Ending(pad, out)
  {
    EndReadBack(t, pad, last);
  }

  /** One decoder step consumes one written word and restores the lead of one word. */
  lemma StepReadsWord(e: Encoder, e1: Encoder, w: Word, last: Word, known: seq<Word>, t: Table,
                      more: seq<bool>, out: string)
    returns (t': Table)
    requires Ahead(e, w, last, known) && Holds(t, known) && SameCount(e, t) && more != []
    requires e1.width == e.width && e1.room == e.room && e.entries <= e1.entries
    requires w in e1.unsent <==> w in e.unsent
    ensures w in e1.entries
    ensures Step(Head(WordBits(e1, w) + more, t, Runes(last), out))
         == Continue(Head(more, t', Runes(w), out + Runes(w)))
    ensures Holds(t', e.entries) && SameCount(Written(e1, w), t')
  {
    WordReadBack(e, e1, w, last, known, t, more);
    RunesOfJoined(last, w);
    var t1 := if w in e.unsent then Append(t, Runes(w)) else t;
    var known1 := if w in e.unsent then known + [w] else known;
    if w in e.unsent {
      AppendHolds(t, known, w);
    }
    AppendHolds(t1, known1, last + [w[0]]);
    assert known1 + [last + [w[0]]] == e.entries;
    t' := Append(t1, Runes(last + [w[0]]));
  }

  /** Seeing another unit does not change whether the pending word was written. */
  lemma StillPending(e: Encoder, w: Word, c: CodeUnit)
    requires w in e.entries
    ensures var e1 := See(e, c);
      && e1.width == e.width && e1.room == e.room && e.entries <= e1.entries
      && (w in e1.unsent <==> w in e.unsent)
  {}

  lemma PendingHasCode(e: Encoder, w: Word, last: Word, known: seq<Word>)
    requires Ahead(e, w, last, known)
    ensures w in e.entries
  {
    assert w in e.unsent ==> e.entries[|known|] == w;
  }

  lemma DecodesLast(e: Encoder, w: Word, last: Word, known: seq<Word>, t: Table, pad: seq<bool>, out: string)
    requires Ahead(e, w, last, known) && Holds(t, known) && SameCount(e, t)
    ensures w in e.entries
    ensures Run(Head(WordBits(e, w) + Digits(2, Written(e, w).width) + pad, t, Runes(last), out))
         == Ending(pad, out + Runes(w))
  {
    PendingHasCode(e, w, last, known);
    var mark := Digits(2, Written(e, w).width) + pad;
    var t' := StepReadsWord(e, e, w, last, known, t, mark, out);
    BitsAssoc(WordBits(e, w), Digits(2, Written(e, w).width), pad);
    RunStep(Head(WordBits(e, w) + mark, t, Runes(last), out), Head(mark, t', Runes(w), out + Runes(w)));
    RunsToTheEnd(t', pad, Runes(w), out + Runes(w));
  }

  lemma RunStep(h: Head, next: Head)
    requires h.table.width > 0 && Step(h) == Continue(next)
    ensures next.table.width > 0 && Run(h) == Run(next)
  {
    StepShrinks(h);
  }

  lemma GrowsWord(e: Encoder, w: Word, rest: Word)
    requires rest != [] && w in e.entries && w + [rest[0]] in See(e, rest[0]).entries
    ensures EncodeFrom(e, w, rest) == EncodeFrom(See(e, rest[0]), w + [rest[0]], rest[1..])
  {}

  lemma WordsJoin(w: Word, rest: Word)
    requires rest != []
    ensures (w + [rest[0]]) + rest[1..] == w + rest
  {}

  lemma LastWord(e: Encoder, w: Word)
    requires w in e.entries && w != []
    ensures EncodeFrom(e, w, []) == WordBits(e, w) + Digits(2, Written(e, w).width)
  {}

  lemma {:induction false} DecodesRest(e: Encoder, w: Word, rest: Word, last: Word, known: seq<Word>, t: Table,
                                       pad: seq<bool>, out: string)
    requires Ahead(e, w, last, known) && Holds(t, known) && SameCount(e, t)
    ensures w in e.entries
    ensures Run(Head(EncodeFrom(e, w, rest) + pad, t, Runes(last), out)) == Ending(pad, out + Runes(w + rest))
    decreases |rest|, 1
  {
    PendingHasCode(e, w, last, known);
    if rest == [] {
      LastWord(e, w);
      DecodesLast(e, w, last, known, t, pad, out);
      assert w + rest == w;
    } else {
      var c := rest[0];
      if w + [c] in See(e, c).entries {
        DecodesGrown(e, w, rest, last, known, t, pad, out);
      } else {
        DecodesWritten(e, w, rest, last, known, t, pad, out);
      }
    }
  }

  lemma {:induction false} DecodesGrown(e: Encoder, w: Word, rest: Word, last: Word, known: seq<Word>, t: Table,
                                        pad: seq<bool>, out: string)
    requires Ahead(e, w, last, known) && Holds(t, known) && SameCount(e, t)
    requires rest != [] && w in e.entries && w + [rest[0]] in See(e, rest[0]).entries
    ensures Run(Head(EncodeFrom(e, w, rest) + pad, t, Runes(last), out)) == Ending(pad, out + Runes(w + rest))
    decreases |rest|, 0
  {
    var c := rest[0];
    GrowingKeeps(e, w, c, last, known);
    GrowsWord(e, w, rest);
    DecodesRest(See(e, c), w + [c], rest[1..], last, known, t, pad, out);
    WordsJoin(w, rest);
  }

  /** The encoder after it has written w and seen c. */
  function AfterWord(e: Encoder, w: Word, c: CodeUnit): (r: Encoder)
    ensures [c] in r.entries
  {
    var e2 := Written(See(e, c), w);
    e2.(entries := e2.entries + [w + [c]])
  }

  lemma WritesWord(e: Encoder, w: Word, rest: Word, pad: seq<bool>)
    requires rest != [] && w in e.entries && w + [rest[0]] !in See(e, rest[0]).entries
    ensures w in See(e, rest[0]).entries && w != []
    ensures EncodeFrom(e, w, rest) + pad
         == WordBits(See(e, rest[0]), w) + (EncodeFrom(AfterWord(e, w, rest[0]), [rest[0]], rest[1..]) + pad)
  {
    var c := rest[0];
    assert w == [] ==> w + [c] == [c];
    assert EncodeFrom(e, w, rest) == WordBits(See(e, c), w) + EncodeFrom(AfterWord(e, w, c), [c], rest[1..]);
    BitsAssoc(WordBits(See(e, c), w), EncodeFrom(AfterWord(e, w, c), [c], rest[1..]), pad);
  }

  lemma ResultsJoin(out: string, w: Word, rest: Word)
    requires rest != []
    ensures out + Runes(w) + Runes([rest[0]] + rest[1..]) == out + Runes(w + rest)
  {
    assert [rest[0]] + rest[1..] == rest;
    RunesConcat(w, rest);
  }

  lemma {:induction false} DecodesWritten(e: Encoder, w: Word, rest: Word, last: Word, known: seq<Word>, t: Table,
                                          pad: seq<bool>, out: string)
    requires Ahead(e, w, last, known) && Holds(t, known) && SameCount(e, t)
    requires rest != [] && w in e.entries && w + [rest[0]] !in See(e, rest[0]).entries
    ensures Run(Head(EncodeFrom(e, w, rest) + pad, t, Runes(last), out)) == Ending(pad, out + Runes(w + rest))
    decreases |rest|, 0
  {
    var c := rest[0];
    var e3 := AfterWord(e, w, c);
    var more := EncodeFrom(e3, [c], rest[1..]) + pad;
    WritesWord(e, w, rest, pad);
    var t' := WordThenRest(e, w, c, last, known, t, more, out);
    DecodesRest(e3, [c], rest[1..], w, e.entries, t', pad, out + Runes(w));
    ResultsJoin(out, w, rest);
  }

  lemma WordThenRest(e: Encoder, w: Word, c: CodeUnit, last: Word, known: seq<Word>, t: Table,
                     more: seq<bool>, out: string)
    returns (t': Table)
    requires Ahead(e, w, last, known) && Holds(t, known) && SameCount(e, t) && more != []
    requires w in e.entries
    ensures w in See(e, c).entries
    ensures Ahead(AfterWord(e, w, c), [c], w, e.entries) && Holds(t', e.entries) && SameCount(AfterWord(e, w, c), t')
    ensures Run(Head(WordBits(See(e, c), w) + more, t, Runes(last), out))
         == Run(Head(more, t', Runes(w), out + Runes(w)))
  {
    StillPending(e, w, c);
    WritingKeeps(e, w, c, last, known);
    t' := StepReadsWord(e, See(e, c), w, last, known, t, more, out);
  }

  /** The decoder's table after its opening. */
  function OpeningTable(c: CodeUnit): Table {
    Append(INITIAL, Runes([c])).(width := 3)
  }

  lemma OpeningHolds(c: CodeUnit, e: Encoder)
    requires e.width == 2 && e.room == 2 && [c] in e.unsent
    ensures Holds(OpeningTable(c), [[c]]) && SameCount(Written(e, [c]), OpeningTable(c))
  {
    assert Pow2(2) == 4 && Pow2(3) == 8;
  }

  /** The first word is always a literal, and the decoder's opening handles it alone. */
  lemma DecodesFirst(c: CodeUnit, e1: Encoder, more: seq<bool>)
    requires e1.width == 2 && e1.room == 2 && [c] in e1.unsent && [c] in e1.entries && more != []
    ensures GetString("", WordBits(e1, [c]) + more, INITIAL)
         == Text(Runes([c]), more, Append(INITIAL, Runes([c])))
  {
    LiteralReadBack(c, more, INITIAL, "");
  }

  lemma FirstWordAhead(c: CodeUnit, d: CodeUnit)
    ensures Ahead(AfterWord(See(START, c), [c], d), [d], [c], [[c]])
  {
    assert [[c]][0] == [c];
    var e := See(START, c);
    assert e.entries == [[c]] && e.unsent == {[c]};
    if c != d {
      assert See(e, d).unsent - {[c]} == {[d]};
    }
  }

  /** The stream opens with the first unit's literal. */
  lemma OpensWithLiteral(text: Word, pad: seq<bool>)
    requires |text| > 1
    ensures var c, d := text[0], text[1];
      var e := See(START, c);
      && [c] in See(e, d).entries && [c] in See(e, d).unsent
      && See(e, d).width == 2 && See(e, d).room == 2
      && EncodeFrom(START, [], text) + pad
      == WordBits(See(e, d), [c]) + (EncodeFrom(AfterWord(e, [c], d), [d], text[2..]) + pad)
  {
    var c, d := text[0], text[1];
    var e := See(START, c);
    assert e == Encoder([[c]], {[c]}, 2, 2);
    assert [] + [c] == [c];
    assert EncodeFrom(START, [], text) == EncodeFrom(e, [c], text[1..]);
    assert text[1..][1..] == text[2..];
    WritesWord(e, [c], text[1..], pad);
  }

  lemma DecodesAfterFirst(text: Word, pad: seq<bool>)
    requires |text| > 1
    ensures var c, d := text[0], text[1];
      var more := EncodeFrom(AfterWord(See(START, c), [c], d), [d], text[2..]) + pad;
      Run(Head(more, OpeningTable(c), Runes([c]), Runes([c]))) == Ending(pad, Runes(text))
  {
    var c, d := text[0], text[1];
    var e := AfterWord(See(START, c), [c], d);
    FirstWordAhead(c, d);
    OpeningCount(c, d);
    OpeningHolds(c, See(See(START, c), d));
    DecodesRest(e, [d], text[2..], [c], [[c]], OpeningTable(c), pad, Runes([c]));
    OpeningText(text);
  }

  lemma OpeningCount(c: CodeUnit, d: CodeUnit)
    ensures var e := See(See(START, c), d); e.width == 2 && e.room == 2 && [c] in e.unsent
  {}

  lemma OpeningText(text: Word)
    requires |text| > 1
    ensures Runes([text[0]]) + Runes([text[1]] + text[2..]) == Runes(text)
  {
    assert [text[1]] + text[2..] == text[1..] && [text[0]] + text[1..] == text;
    RunesConcat([text[0]], text[1..]);
  }

  /** An input that opens with a literal decodes as the run after it. */
  lemma OpeningThenRest(c: CodeUnit, e: Encoder, more: seq<bool>, input: string, o: Outcome)
    requires e.width == 2 && e.room == 2 && [c] in e.unsent && [c] in e.entries && more != []
    requires Stream(input) == WordBits(e, [c]) + more
    requires Run(Head(more, OpeningTable(c), Runes([c]), Runes([c]))) == o
    ensures Decode(input) == o
  {
    DecodesFirst(c, e, more);
    assert First(input) == Continue(Head(more, OpeningTable(c), Runes([c]), Runes([c])));
  }

  lemma DecodesOpening(text: Word, pad: seq<bool>, input: string)
    requires |text| > 1
    ensures Stream(input) == EncodeFrom(START, [], text) + pad ==> Decode(input) == Ending(pad, Runes(text))
  {
    if Stream(input) == EncodeFrom(START, [], text) + pad {
      var c, d := text[0], text[1];
      var more := EncodeFrom(AfterWord(See(START, c), [c], d), [d], text[2..]) + pad;
      OpensWithLiteral(text, pad);
      DecodesAfterFirst(text, pad);
      OpeningThenRest(c, See(See(START, c), d), more, input, Ending(pad, Runes(text)));
    }
  }

  lemma OneUnitBits(c: CodeUnit)
    ensures See(START, c) == Encoder([[c]], {[c]}, 2, 2)
    ensures Written(See(START, c), [c]).width == 3
    ensures EncodeFrom(START, [], [c]) == WordBits(See(START, c), [c]) + Digits(2, 3)
  {
    var e := See(START, c);
    assert [] + [c] == [c] && [c][1..] == [];
    assert [[c]][0] == [c];
    assert EncodeFrom(START, [], [c]) == EncodeFrom(e, [c], []);
  }

  lemma DecodesOneUnit(c: CodeUnit, pad: seq<bool>, input: string)
    ensures Stream(input) == EncodeFrom(START, [], [c]) + pad ==> Decode(input) == Ending(pad, Runes([c]))
  {
    if Stream(input) == EncodeFrom(START, [], [c]) + pad {
      var e, t := See(START, c), OpeningTable(c);
      var mark := Digits(2, 3) + pad;
      OneUnitBits(c);
      assert EncodeFrom(START, [], [c]) + pad == WordBits(e, [c]) + mark;
      RunsToTheEnd(t, pad, Runes([c]), Runes([c]));
      OpeningThenRest(c, e, mark, input, Ending(pad, Runes([c])));
    }
  }

  lemma DecodesStream(text: Word, pad: seq<bool>, input: string)
    ensures Stream(input) == EncodeFrom(START, [], text) + pad ==> Decode(input) == Ending(pad, Runes(text))
  {
    if text == [] {
      EndReadBack(INITIAL, pad, "");
    } else if |text| == 1 {
      assert text == [text[0]];
      DecodesOneUnit(text[0], pad, input);
    } else {
      DecodesOpening(text, pad, input);
    }
  }

  /** Any whole number of symbols that holds an encoding and some padding. */
  lemma StreamDecodes(text: Word, pad: seq<bool>)
    ensures var bits := EncodeFrom(START, [], text) + pad;
      |bits| % 6 == 0 ==> Decode(Pack(bits)) == Ending(pad, Runes(text))
  {
    var bits := EncodeFrom(START, [], text) + pad;
    if |bits| % 6 == 0 {
      StreamOfPack(bits);
      DecodesStream(text, pad, Pack(bits));
    }
  }

  /** Every text is decoded from its encoding; only surrogates are replaced. */
  lemma RoundTrip(text: Word)
    ensures Decode(Encode(text)) == Decoded(Runes(text))
  {
    StreamDecodes(text, Padding(|EncodeFrom(START, [], text)|));
  }

  /** The padding is needed: a stream that fills its last symbol exactly cannot be decoded. */
  lemma UnpaddedStreamCrashes(text: Word)
    ensures |EncodeFrom(START, [], text)| % 6 == 0 ==> Decode(Pack(EncodeFrom(START, [], text))) == Crash
  {
    if |EncodeFrom(START, [], text)| % 6 == 0 {
      assert EncodeFrom(START, [], text) + [] == EncodeFrom(START, [], text);
      StreamDecodes(text, []);
    }
  }

  lemma TwoUnitBits(a: CodeUnit, b: CodeUnit)
    requires a != b && a < 256 && b < 256
    ensures |EncodeFrom(START, [], [a, b])| == 24
  {
    var e1 := Encoder([[a]], {[a]}, 2, 2);
    var e2 := Encoder([[a], [b]], {[a], [b]}, 2, 2);
    assert [] + [a] == [a] && [a, b][1..] == [b] && [b][1..] == [];
    assert e1.entries[0] == [a] && e2.entries[0] == [a] && e2.entries[1] == [b];
    assert See(START, a) == e1 && See(e1, b) == e2;
    assert EncodeFrom(START, [], [a, b]) == EncodeFrom(e1, [a], [b]);
    var w := Written(e2, [a]);
    assert w.width == 3 && w.unsent == {[b]} && w.room == 4;
    var e3 := w.(entries := e2.entries + [[a] + [b]]);
    assert e3.entries[1] == [b];
    assert EncodeFrom(e1, [a], [b]) == WordBits(e2, [a]) + EncodeFrom(e3, [b], []);
    assert Written(e3, [b]).width == 3;
  }

  /** Any two different units below 256 are such a text. */
  lemma UnpaddedExample(a: CodeUnit, b: CodeUnit)
    requires a != b && a < 256 && b < 256
    ensures var bits := EncodeFrom(START, [], [a, b]); |bits| % 6 == 0 && Decode(Pack(bits)) == Crash
  {
    TwoUnitBits(a, b);
    UnpaddedStreamCrashes([a, b]);
  }

  /** The text comes back unit for unit iff it has no surrogate. */
  lemma RoundTripIsExact(text: Word)
    ensures SameUnits(Decode(Encode(text)), text) <==> forall i :: 0 <= i < |text| ==> !IsSurrogate(text[i])
  {
    RoundTrip(text);
    var s := Runes(text);
    assert forall i :: 0 <= i < |text| ==> (s[i] as int == text[i] <==> !IsSurrogate(text[i]));
  }

  function Units(s: string): (w: Word)
    requires forall i :: 0 <= i < |s| ==> s[i] as int < 0x10000
    ensures |w| == |s| && forall i :: 0 <= i < |s| ==> w[i] == s[i] as int
  {
    seq(|s|, i requires 0 <= i < |s| => s[i] as int)
  }

  /** So every text of characters below 65536 decodes from its encoding to itself. */
  lemma TextRoundTrip(s: string)
    requires forall i :: 0 <= i < |s| ==> s[i] as int < 0x10000
    ensures Decode(Encode(Units(s))) == Decoded(s)
  {
    RoundTrip(Units(s));
    forall i | 0 <= i < |s|
      ensures RuneOf(Units(s)[i]) == s[i]
    {}
    assert Runes(Units(s)) == s;
  }

  predicate SameUnits(o: Outcome, text: Word) {
    o.Decoded? && |o.text| == |text| && forall i :: 0 <= i < |text| ==> o.text[i] as int == text[i]
  }

  /** A finished encoding may be followed by anything. */
  lemma RoundTripWithTrailer(text: Word, more: string)
    ensures Decode(Encode(text) + more) == Decoded(Runes(text))
  {
    RoundTrip(text);
    TrailingSymbolsIgnored(Encode(text), more);
  }
}
