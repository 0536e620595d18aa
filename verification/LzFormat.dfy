/** What a compressed text means: the decoder of the LZ-string format as a
    transition function on the unread bits. */
module LzFormat {
  import opened LzBits

  /** Crash stands for the index error raised when a read passes the end. */
  datatype Outcome = Decoded(text: string) | BadCode(text: string) | Crash

  /** The dictionary, the number of codes left at this width, and the width. */
  datatype Table = Table(entries: seq<string>, room: int, width: nat)

  datatype Piece = Text(text: string, rest: seq<bool>, table: Table) | End | Bad | Overrun

  /** The decoder between two pieces of output. */
  datatype Head = Head(bits: seq<bool>, table: Table, last: string, result: string)

  datatype Progress = Continue(head: Head) | Stop(outcome: Outcome)

  const INITIAL: Table := Table(["0", "1", "2"], 5, 2)

  predicate IsSurrogate(v: nat) {
    0xD800 <= v <= 0xDFFF
  }

  /** string(n) for a 16-bit n: a surrogate becomes the replacement rune. */
  function RuneOf(v: nat): (c: char)
    requires v < 0x10000
    ensures c as int == v <==> !IsSurrogate(v)
  {
    if IsSurrogate(v) then '\U{FFFD}' else v as char
  }

  /** Appends the first rune of a text; an empty text yields the replacement rune. */
  function ConcatWithFirstRune(s: string, from: string): (r: string)
    ensures |r| == |s| + 1
  {
    s + [if from == "" then '\U{FFFD}' else from[0]]
  }

  function Append(t: Table, s: string): (r: Table)
    ensures r.width >= t.width && r.entries == t.entries + [s]
  {
    if t.room - 1 == 0
    then Table(t.entries + [s], Pow2(t.width), t.width + 1)
    else Table(t.entries + [s], t.room - 1, t.width)
  }

  function Literal(size: nat, bits: seq<bool>, t: Table): Piece
    requires size <= 16
  {
    if |bits| <= size then Overrun
    else
      ValueBound(bits[..size]);
      Pow2AtMost(size, 16);
      var s := [RuneOf(Value(bits[..size]))];
      Text(s, bits[size..], Append(t, s))
  }

  /** One code and what it names. */
  function GetString(last: string, bits: seq<bool>, t: Table): Piece {
    if |bits| <= t.width then Overrun
    else
      var c := Value(bits[..t.width]);
      var rest := bits[t.width..];
      if c == 0 then Literal(8, rest, t)
      else if c == 1 then Literal(16, rest, t)
      else if c == 2 then End
      else if c < |t.entries| then Text(t.entries[c], rest, t)
      else if c == |t.entries| then Text(ConcatWithFirstRune(last, last), rest, t)
      else Bad
  }

  function First(input: string): Progress {
    if input == "" then Stop(Crash)
    else match GetString("", Stream(input), INITIAL)
      case Text(s, rest, t) => Continue(Head(rest, t.(width := t.width + 1), s, s))
      case End => Stop(Decoded(""))
      case Bad => Stop(BadCode(""))
      case Overrun => Stop(Crash)
  }

  function Step(h: Head): Progress {
    match GetString(h.last, h.bits, h.table)
    case Text(s, rest, t) =>
      Continue(Head(rest, Append(t, ConcatWithFirstRune(h.last, s)), s, h.result + s))
    case End => Stop(Decoded(h.result))
    case Bad => Stop(BadCode(h.result))
    case Overrun => Stop(Crash)
  }

  function Run(h: Head): Outcome
    requires h.table.width > 0
    decreases |h.bits|
  {
    match Step(h)
    case Continue(next) => Run(next)
    case Stop(o) => o
  }

  function Decode(input: string): Outcome {
    match First(input)
    case Continue(h) => Run(h)
    case Stop(o) => o
  }

  lemma {:induction false} Pow2AtMost(n: nat, m: nat)
    requires n <= m <= 16
    ensures Pow2(n) <= Pow2(m) <= 0x10000
    decreases m - n
  {
    if n < m {
      Pow2AtMost(n, m - 1);
      Pow2Small(m);
    } else {
      Pow2Small(m);
    }
  }

  lemma {:induction false} Pow2Small(m: nat)
    requires m <= 16
    ensures Pow2(m) <= 0x10000
  {
    assert Pow2(16) == 0x10000 by {
      assert Pow2(4) == 16;
      assert Pow2(8) == 256;
      assert Pow2(12) == 4096;
    }
    Pow2Monotone(m, 16);
  }

  lemma {:induction false} Pow2Monotone(n: nat, m: nat)
    requires n <= m
    ensures Pow2(n) <= Pow2(m)
    decreases m
  {
    if n < m {
      Pow2Monotone(n, m - 1);
    }
  }

  // ------------------------------------------------- invariants of every run

  /** The state after n pieces of output, if decoding goes that far. */
  function After(input: string, n: nat): Progress
    requires n > 0
  {
    if n == 1 then First(input)
    else match After(input, n - 1)
      case Continue(h) => Step(h)
      case Stop(o) => Stop(o)
  }

  /** s is a nonempty contiguous piece of out. */
  ghost predicate PieceOf(s: string, out: string) {
    s != "" && exists i :: OccursAt(s, out, i)
  }

  ghost predicate OccursAt(s: string, out: string, i: nat) {
    i + |s| <= |out| && out[i..i + |s|] == s
  }

  ghost predicate EndsWith(out: string, s: string) {
    |s| <= |out| && out[|out| - |s|..] == s
  }

  /** The table's bookkeeping: the code after the last entry fits the width, and
      after the first entry no smaller width would do. */
  ghost predicate TableInv(t: Table) {
    && t.width >= 2 && |t.entries| >= 3
    && |t.entries| + t.room == Pow2(t.width)
    && 1 <= t.room
    && (t.room <= Pow2(t.width - 1) <==> |t.entries| > 3)
    && (|t.entries| == 3 ==> t.width == 3)
  }

  /** The last piece and every entry a code can name are pieces of the output. */
  ghost predicate ContentInv(h: Head) {
    && |h.table.entries| >= 3
    && h.last != "" && EndsWith(h.result, h.last)
    && forall i :: 3 <= i < |h.table.entries| ==> PieceOf(h.table.entries[i], h.result)
  }

  function Triangle(n: nat): nat {
    if n == 0 then 0 else n + Triangle(n - 1)
  }

  lemma {:induction false} TriangleClosed(n: nat)
    ensures 2 * Triangle(n) == n * (n + 1)
  {
    if n > 0 {
      TriangleClosed(n - 1);
    }
  }

  /** After n pieces no piece is longer than n. */
  ghost predicate SizeInv(h: Head, n: nat) {
    && |h.table.entries| >= 3
    && 1 <= |h.last| <= n
    && (forall i :: 3 <= i < |h.table.entries| ==> 1 <= |h.table.entries[i]| <= n)
    && |h.result| <= Triangle(n)
  }

  lemma PieceGrows(s: string, out: string, more: string)
    requires PieceOf(s, out)
    ensures PieceOf(s, out + more)
  {
    var i: nat :| OccursAt(s, out, i);
    assert (out + more)[i..i + |s|] == out[i..i + |s|];
    assert OccursAt(s, out + more, i);
  }

  lemma AppendKeeps(t: Table, s: string)
    requires t.width >= 2 && |t.entries| >= 3 && 1 <= t.room
    requires |t.entries| + t.room == Pow2(t.width) && t.room <= Pow2(t.width - 1) + 1
    ensures TableInv(Append(t, s))
  {
    assert Pow2(t.width) == 2 * Pow2(t.width - 1);
    Pow2Monotone(1, t.width - 1);
  }

  /** What one code may add. */
  lemma PieceFacts(last: string, bits: seq<bool>, t: Table)
    requires |t.entries| >= 3 && GetString(last, bits, t).Text?
    ensures var p := GetString(last, bits, t);
      || (|p.text| == 1 && p.table == Append(t, p.text))
      || (p.table == t && exists c :: 3 <= c < |t.entries| && p.text == t.entries[c])
      || (p.table == t && p.text == ConcatWithFirstRune(last, last))
  {}

  lemma StepKeepsTable(h: Head)
    requires TableInv(h.table) && Step(h).Continue?
    ensures TableInv(Step(h).head.table)
  {
    var Text(s, rest, t) := GetString(h.last, h.bits, h.table);
    PieceFacts(h.last, h.bits, h.table);
    assert Pow2(3) == 8 && Pow2(2) == 4;
    if t != h.table {
      AppendKeeps(h.table, s);
    }
    AppendKeeps(t, ConcatWithFirstRune(h.last, s));
  }

  /** The entry added after a piece of output is itself in the output. */
  lemma JoinedPieceIsOutput(last: string, result: string, s: string)
    requires last != "" && EndsWith(result, last) && s != ""
    ensures PieceOf(ConcatWithFirstRune(last, s), result + s)
  {
    var e := ConcatWithFirstRune(last, s);
    var i := |result| - |last|;
    assert (result + s)[i..i + |e|] == result[i..] + [s[0]];
    assert OccursAt(e, result + s, i);
  }

  lemma StepKeepsContent(h: Head)
    requires ContentInv(h) && Step(h).Continue?
    ensures ContentInv(Step(h).head)
  {
    var Text(s, rest, t) := GetString(h.last, h.bits, h.table);
    PieceFacts(h.last, h.bits, h.table);
    assert s != "";
    var next := Step(h).head;
    JoinedPieceIsOutput(h.last, h.result, s);
    assert OccursAt(s, next.result, |h.result|);
    forall i | 3 <= i < |next.table.entries|
      ensures PieceOf(next.table.entries[i], next.result)
    {
      if i < |h.table.entries| {
        PieceGrows(h.table.entries[i], h.result, s);
      }
    }
  }

  lemma StepKeepsSize(h: Head, n: nat)
    requires SizeInv(h, n) && Step(h).Continue?
    ensures SizeInv(Step(h).head, n + 1)
  {
    PieceFacts(h.last, h.bits, h.table);
  }

  ghost predicate HeadInv(h: Head, n: nat) {
    TableInv(h.table) && ContentInv(h) && SizeInv(h, n)
  }

  lemma StepKeeps(h: Head, n: nat)
    requires HeadInv(h, n) && Step(h).Continue?
    ensures HeadInv(Step(h).head, n + 1)
  {
    StepKeepsTable(h);
    StepKeepsContent(h);
    StepKeepsSize(h, n);
  }

  /** The head after a first piece, which is one rune long. */
  lemma FirstKeeps(s: string, rest: seq<bool>, t: Table)
    requires |s| == 1 && (t == INITIAL || t == Append(INITIAL, s))
    ensures HeadInv(Head(rest, t.(width := t.width + 1), s, s), 1)
  {
    assert Pow2(1) == 2 && Pow2(2) == 4 && Pow2(3) == 8;
    assert OccursAt(s, s, 0);
  }

  lemma FirstIsOneRune(input: string)
    requires First(input).Continue?
    ensures var p := GetString("", Stream(input), INITIAL);
      p.Text? && |p.text| == 1 && (p.table == INITIAL || p.table == Append(INITIAL, p.text))
  {
    PieceFacts("", Stream(input), INITIAL);
    ValueBound(Stream(input)[..2]);
    assert Pow2(2) == 4;
  }

  /** Every head of every run satisfies the invariant. */
  lemma {:induction false} EveryHead(input: string, n: nat)
    requires n > 0 && After(input, n).Continue?
    ensures HeadInv(After(input, n).head, n)
  {
    if n == 1 {
      FirstIsOneRune(input);
      var p := GetString("", Stream(input), INITIAL);
      FirstKeeps(p.text, p.rest, p.table);
    } else {
      EveryHead(input, n - 1);
      StepKeeps(After(input, n - 1).head, n - 1);
    }
  }

  /** The upper bound on the room fails at exactly one kind of head: the one after
      a stream that opens with code 3, which names no entry yet. */
  lemma {:induction false} RoomBoundFailsOnlyAfterCodeThree(input: string, n: nat)
    requires n > 0 && After(input, n).Continue? && After(input, n).head.table.width > 0
    ensures var t := After(input, n).head.table;
      t.room > Pow2(t.width - 1) <==> n == 1 && OpensWithThree(input)
  {
    var t := After(input, n).head.table;
    assert t.room > Pow2(t.width - 1) <==> |t.entries| == 3 by {
      EveryHead(input, n);
    }
    if n == 1 {
      FirstTable(input);
    } else {
      assert |After(input, n - 1).head.table.entries| >= 3 by {
        EveryHead(input, n - 1);
      }
      StepAddsEntries(After(input, n - 1).head);
      assert |t.entries| > 3;
    }
  }

  lemma StepAddsEntries(h: Head)
    requires |h.table.entries| >= 3 && Step(h).Continue?
    ensures |Step(h).head.table.entries| > |h.table.entries|
  {
    PieceFacts(h.last, h.bits, h.table);
  }

  predicate OpensWithThree(input: string) {
    input != "" && Value(Stream(input)[..2]) == 3
  }

  lemma FirstTable(input: string)
    requires First(input).Continue?
    ensures |First(input).head.table.entries| == 3 <==> OpensWithThree(input)
  {
    ValueBound(Stream(input)[..2]);
    assert Pow2(2) == 4;
  }

  lemma CodeThreeExample()
    ensures First("wA") == Continue(Head([false, false, false, false] + Stream("A"), INITIAL.(width := 3),
                                         "\U{FFFD}", "\U{FFFD}"))
  {
    var bits := Stream("wA");
    assert Stream("wA") == SymbolBits(48) + Stream("A") by {
      assert "wA"[1..] == "A";
    }
    assert bits[..2] == [true, true];
    assert Value([true, true]) == 3 by {
      assert Value([true]) == 1;
    }
    assert bits[2..] == [false, false, false, false] + Stream("A");
  }

  /** Every piece uses up at least one bit, so no run is endless. */
  lemma {:induction false} BitsRunOut(input: string, n: nat)
    requires n > 0 && After(input, n).Continue?
    ensures |After(input, n).head.bits| + n <= 6 * |input|
    ensures After(input, n).head.table.width > 0
  {
    if n > 1 {
      BitsRunOut(input, n - 1);
      StepShrinks(After(input, n - 1).head);
    }
  }

  lemma StepShrinks(h: Head)
    requires h.table.width > 0 && Step(h).Continue?
    ensures |Step(h).head.bits| < |h.bits| && Step(h).head.table.width > 0
  {}

  lemma {:induction false} RunReaches(input: string, n: nat) returns (m: nat)
    requires n > 0 && After(input, n).Continue? && After(input, n).head.table.width > 0
    ensures m >= n && After(input, m + 1) == Stop(Run(After(input, n).head))
    ensures After(input, m).Continue?
    decreases |After(input, n).head.bits|
  {
    var h := After(input, n).head;
    match Step(h)
    case Continue(next) =>
      StepShrinks(h);
      assert After(input, n + 1) == Continue(next);
      m := RunReaches(input, n + 1);
    case Stop(o) =>
      m := n;
  }

  /** The outcome is reached after exactly m pieces. */
  ghost predicate StopsAfter(input: string, m: nat) {
    && After(input, m + 1) == Stop(Decode(input))
    && (m > 0 ==> After(input, m).Continue?)
  }

  lemma DecodeStops(input: string)
    ensures exists m: nat :: m <= 6 * |input| && StopsAfter(input, m)
  {
    match First(input)
    case Continue(h) =>
      BitsRunOut(input, 1);
      var m := RunReaches(input, 1);
      BitsRunOut(input, m);
      assert StopsAfter(input, m);
    case Stop(o) =>
      assert StopsAfter(input, 0);
  }

  /** A text of m pieces has at most m(m+1)/2 runes. */
  lemma OutputBound(input: string, m: nat)
    requires StopsAfter(input, m) && !Decode(input).Crash?
    ensures 2 * |Decode(input).text| <= m * (m + 1)
  {
    TriangleClosed(m);
    if m > 0 {
      EveryHead(input, m);
    }
  }

  // -------------------------------------------------------- trailing symbols

  lemma GetStringExtends(last: string, bits: seq<bool>, more: seq<bool>, t: Table)
    requires !GetString(last, bits, t).Overrun?
    ensures var p := GetString(last, bits, t);
      GetString(last, bits + more, t) == if p.Text? then p.(rest := p.rest + more) else p
  {
    var w := t.width;
    assert (bits + more)[..w] == bits[..w] && (bits + more)[w..] == bits[w..] + more;
    var rest := bits[w..];
    var c := Value(bits[..w]);
    if c < 2 {
      var size := if c == 0 then 8 else 16;
      assert (rest + more)[..size] == rest[..size] && (rest + more)[size..] == rest[size..] + more;
    }
  }

  lemma {:induction false} RunExtends(h: Head, more: seq<bool>)
    requires h.table.width > 0 && Run(h) != Crash
    ensures Run(h.(bits := h.bits + more)) == Run(h)
    decreases |h.bits|
  {
    GetStringExtends(h.last, h.bits, more, h.table);
    match Step(h)
    case Continue(next) =>
      RunExtends(next, more);
    case Stop(o) =>
  }

  /** What follows a complete stream is never looked at. */
  lemma TrailingSymbolsIgnored(input: string, more: string)
    requires Decode(input) != Crash
    ensures Decode(input + more) == Decode(input)
  {
    StreamConcat(input, more);
    GetStringExtends("", Stream(input), Stream(more), INITIAL);
    match First(input)
    case Continue(h) =>
      RunExtends(h, Stream(more));
    case Stop(o) =>
  }
}
