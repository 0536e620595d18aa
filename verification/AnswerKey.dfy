/** The answer key of an exam: one mask of marks a question, printed in hex. */
module AnswerKey {
  import opened LzBits

  datatype Question = Question(kind: int, answer: string)

  /** An element of an item list: a question, a composed item with a list of its own,
      or something the traversal passes over. */
  datatype Item = Single(question: Question) | Composed(items: seq<Item>) | OtherItem

  datatype SubExam = SubExam(name: string, items: seq<Item>)

  /** The questions that stand directly in a list. */
  function Singles(items: seq<Item>): seq<Question> {
    if items == [] then []
    else if items[0].Single? then [items[0].question] + Singles(items[1..])
    else Singles(items[1..])
  }

  function ItemQuestions(item: Item): seq<Question> {
    match item
    case Single(q) => [q]
    case Composed(items) => Singles(items)
    case OtherItem => []
  }

  function InItems(items: seq<Item>): seq<Question> {
    if items == [] then [] else ItemQuestions(items[0]) + InItems(items[1..])
  }

  /** All questions of an exam in traversal order. */
  function Questions(subjects: seq<SubExam>): seq<Question> {
    if subjects == [] then [] else InItems(subjects[0].items) + Questions(subjects[1..])
  }

  // ------------------------------------------------------------------- masks

  predicate Marked(answer: string, i: nat) {
    i < |answer| && answer[i] == '1'
  }

  /** n |= 1 << i on a 64-bit int whose bits from i on are clear: the highest bit is
      the sign, and a bit shifted out is lost. */
  function SetBit(n: int, i: nat): int {
    if i < 63 then n + Pow2(i) else if i == 63 then n - Pow2(63) else n
  }

  function MaskUpTo(answer: string, k: nat): int {
    if k == 0 then 0
    else if Marked(answer, k - 1) then SetBit(MaskUpTo(answer, k - 1), k - 1)
    else MaskUpTo(answer, k - 1)
  }

  function Mask(answer: string): int {
    MaskUpTo(answer, |answer|)
  }

  /** No mark that a pair of hex digits cannot hold; marks from 64 on are lost anyway. */
  predicate Fits(answer: string) {
    forall i :: 8 <= i < 64 ==> !Marked(answer, i)
  }

  predicate FitsUpTo(answer: string, k: nat) {
    forall i :: 8 <= i < k && i < 64 ==> !Marked(answer, i)
  }

  lemma Pow2Eight(k: nat)
    ensures Pow2(8) == 256
    ensures k >= 8 ==> Pow2(k) >= 256
    decreases k
  {
    if k > 8 {
      Pow2Eight(k - 1);
    } else {
      assert Pow2(8) == 2 * Pow2(7) && Pow2(7) == 2 * Pow2(6) && Pow2(6) == 2 * Pow2(5) && Pow2(5) == 2 * Pow2(4);
    }
  }

  lemma {:induction false} MaskShape(answer: string, k: nat)
    ensures k <= 63 ==> 0 <= MaskUpTo(answer, k) < Pow2(k)
    ensures FitsUpTo(answer, k) ==> MaskUpTo(answer, k) == MaskUpTo(answer, if k < 8 then k else 8)
    ensures !FitsUpTo(answer, k) ==> MaskUpTo(answer, k) < 0 || MaskUpTo(answer, k) >= 256
    decreases k
  {
    if k > 0 {
      MaskShape(answer, k - 1);
      Pow2Eight(k - 1);
    }
  }

  lemma {:induction false} MaskStops(answer: string, k: nat)
    requires k >= |answer|
    ensures MaskUpTo(answer, k) == Mask(answer)
  {
    if k > |answer| {
      MaskStops(answer, k - 1);
    }
  }

  function Flags(answer: string, k: nat): (r: seq<bool>)
    ensures |r| == k && forall i :: 0 <= i < k ==> r[i] == Marked(answer, i)
  {
    seq(k, i requires 0 <= i < k => Marked(answer, i))
  }

  lemma {:induction false} MaskIsValue(answer: string, k: nat)
    requires k <= 63
    ensures MaskUpTo(answer, k) == Value(Flags(answer, k))
  {
    if k > 0 {
      MaskIsValue(answer, k - 1);
      assert Flags(answer, k) == Flags(answer, k - 1) + [Marked(answer, k - 1)];
      ValueConcat(Flags(answer, k - 1), [Marked(answer, k - 1)]);
    }
  }

  /** A mask is below 256 just when the marks fit in eight bits, and is then their number. */
  lemma MaskOfMarks(answer: string)
    ensures Fits(answer) <==> 0 <= Mask(answer) < 256
    ensures Fits(answer) ==> Mask(answer) == Value(Flags(answer, 8))
  {
    var k := |answer| + 64;
    MaskStops(answer, k);
    MaskShape(answer, k);
    MaskShape(answer, 8);
    Pow2Eight(8);
    MaskIsValue(answer, 8);
    assert Fits(answer) <==> FitsUpTo(answer, k);
  }

  // --------------------------------------------------------------------- hex

  predicate IsHex(c: char) {
    '0' <= c <= '9' || 'a' <= c <= 'f'
  }

  function HexDigit(d: nat): (c: char)
    requires d < 16
    ensures IsHex(c)
  {
    if d < 10 then ('0' as int + d) as char else ('a' as int + d - 10) as char
  }

  function HexText(n: nat): (s: string)
    ensures s != "" && (n < 16 <==> |s| == 1)
  {
    if n < 16 then [HexDigit(n)] else HexText(n / 16) + [HexDigit(n % 16)]
  }

  /** The verb %02x: two columns at least, filled with a zero; a sign takes a column. */
  function Hex02(n: int): string {
    if n < 0 then "-" + HexText(-n) else if n < 16 then "0" + HexText(n) else HexText(n)
  }

  predicate HexPair(s: string) {
    |s| == 2 && IsHex(s[0]) && IsHex(s[1])
  }

  lemma Hex02Shape(n: int)
    ensures HexPair(Hex02(n)) <==> 0 <= n < 256
    ensures 0 <= n < 256 ==> Hex02(n) == [HexDigit(n / 16), HexDigit(n % 16)]
  {
    if n >= 16 {
      assert HexText(n) == HexText(n / 16) + [HexDigit(n % 16)];
    }
  }

  // --------------------------------------------------------------------- keys

  predicate Gradable(q: Question) {
    q.kind != 4 && q.kind != 6
  }

  function CodeOf(q: Question): string {
    if Gradable(q) then Hex02(Mask(q.answer)) else ""
  }

  function Key(qs: seq<Question>): string {
    if qs == [] then "" else CodeOf(qs[0]) + Key(qs[1..])
  }

  function Gradables(qs: seq<Question>): nat {
    if qs == [] then 0 else (if Gradable(qs[0]) then 1 else 0) + Gradables(qs[1..])
  }

  predicate AllFit(qs: seq<Question>) {
    forall i :: 0 <= i < |qs| ==> Gradable(qs[i]) ==> Fits(qs[i].answer)
  }

  /** A gradable question's code is a pair of hex digits just when its marks fit. */
  lemma CodeIsPair(q: Question)
    requires Gradable(q)
    ensures HexPair(CodeOf(q)) <==> Fits(q.answer)
  {
    MaskOfMarks(q.answer);
    Hex02Shape(Mask(q.answer));
  }

  /** Codes tell marks apart. */
  lemma SameCode(x: string, y: string)
    requires Fits(x) && Fits(y)
    ensures Hex02(Mask(x)) == Hex02(Mask(y)) <==> forall i :: 0 <= i < 8 ==> (Marked(x, i) <==> Marked(y, i))
  {
    MaskOfMarks(x);
    MaskOfMarks(y);
    Hex02Shape(Mask(x));
    Hex02Shape(Mask(y));
    var fx, fy := Flags(x, 8), Flags(y, 8);
    if forall i :: 0 <= i < 8 ==> (Marked(x, i) <==> Marked(y, i)) {
      assert fx == fy;
    }
    if Hex02(Mask(x)) == Hex02(Mask(y)) {
      assert HexDigit(Mask(x) / 16) == Hex02(Mask(x))[0] == HexDigit(Mask(y) / 16);
      assert HexDigit(Mask(x) % 16) == Hex02(Mask(x))[1] == HexDigit(Mask(y) % 16);
      assert Mask(x) == Mask(y);
      DigitsOfValue(fx);
      DigitsOfValue(fy);
      forall i | 0 <= i < 8
        ensures Marked(x, i) <==> Marked(y, i)
      {
        assert fx[i] == fy[i];
      }
    }
  }

  lemma {:induction false} KeyOfConcat(x: seq<Question>, y: seq<Question>)
    ensures Key(x + y) == Key(x) + Key(y)
  {
    if x == [] {
      assert x + y == y;
    } else {
      assert (x + y)[1..] == x[1..] + y;
      KeyOfConcat(x[1..], y);
    }
  }

  lemma KeyConcat(answer: string, x: seq<Question>, y: seq<Question>)
    ensures answer + Key(x + y) == (answer + Key(x)) + Key(y)
    ensures answer + Key([]) == answer
  {
    KeyOfConcat(x, y);
  }

  lemma KeyCons(answer: string, q: Question, y: seq<Question>)
    ensures answer + Key([q] + y) == (answer + CodeOf(q)) + Key(y)
  {
    assert ([q] + y)[1..] == y;
  }

  lemma {:induction false} KeyHasPairs(qs: seq<Question>)
    requires AllFit(qs)
    ensures |Key(qs)| == 2 * Gradables(qs)
  {
    if qs != [] {
      KeyHasPairs(qs[1..]);
      if Gradable(qs[0]) {
        CodeIsPair(qs[0]);
      }
    }
  }

  /** The pair of the k-th question stands after those of the gradable ones before it. */
  lemma {:induction false} KeyPairAt(qs: seq<Question>, k: nat)
    requires AllFit(qs) && k < |qs| && Gradable(qs[k])
    ensures var g := 2 * Gradables(qs[..k]); g + 2 <= |Key(qs)| && Key(qs)[g..g + 2] == CodeOf(qs[k])
    decreases k
  {
    var c, t := CodeOf(qs[0]), Key(qs[1..]);
    assert Gradable(qs[0]) ==> |c| == 2 by {
      if Gradable(qs[0]) {
        CodeIsPair(qs[0]);
      }
    }
    if k > 0 {
      KeyPairAt(qs[1..], k - 1);
      assert qs[..k][1..] == qs[1..][..k - 1];
      ShiftedPair(c, t, 2 * Gradables(qs[1..][..k - 1]));
    }
  }

  lemma ShiftedPair(c: string, t: string, g: nat)
    requires g + 2 <= |t|
    ensures (c + t)[|c| + g..|c| + g + 2] == t[g..g + 2]
  {}

  /** One question with nine choices, the last one right: its code has three digits, and
      a key of odd length refuses every answer. */
  lemma NineMarksBreakTheKey()
    ensures var q := Question(1, "000000001"); !Fits(q.answer) && |Key([q])| % 2 == 1
  {
    var a := "000000001";
    assert Marked(a, 8);
    var few := Flags(a, 8);
    MaskIsValue(a, 8);
    assert few == seq(8, _ => false);
    ZeroBits(8);
    Pow2Eight(8);
    assert Mask(a) == 256;
    assert HexText(256) == HexText(16) + [HexDigit(0)] && HexText(16) == HexText(1) + [HexDigit(0)];
    assert [Question(1, a)][1..] == [];
  }

  lemma {:induction false} ZeroBits(n: nat)
    ensures Value(seq(n, _ => false)) == 0
  {
    if n > 0 {
      ZeroBits(n - 1);
      assert seq(n, _ => false)[1..] == seq(n - 1, _ => false);
    }
  }

  // ------------------------------------------------------------------ the exam

  class GdTikuExam {
    const subjects: seq<SubExam>
    var count: nat
    var answer: string

    constructor (subjects: seq<SubExam>)
      ensures this.subjects == subjects && count == 0 && answer == ""
    {
      this.subjects := subjects;
      count := 0;
      answer := "";
    }

    method SolveOne(q: Question)
      modifies this
      ensures count == old(count) + 1 && answer == old(answer) + CodeOf(q)
    {
      if q.kind != 4 && q.kind != 6 {
        var n := 0;
        for i := 0 to |q.answer|
          invariant n == MaskUpTo(q.answer, i)
          invariant count == old(count) && answer == old(answer)
        {
          if q.answer[i] == '1' {
            n := SetBit(n, i);
          }
        }
        answer := answer + Hex02(n);
      }
      count := count + 1;
    }

    /** Solves the questions that stand directly in a list. */
    method SolveSingles(parts: seq<Item>)
      modifies this
      ensures count == old(count) + |Singles(parts)| && answer == old(answer) + Key(Singles(parts))
    {
      for k := 0 to |parts|
        invariant count + |Singles(parts[k..])| == old(count) + |Singles(parts)|
        invariant answer + Key(Singles(parts[k..])) == old(answer) + Key(Singles(parts))
      {
        assert parts[k..][1..] == parts[k + 1..];
        if parts[k].Single? {
          KeyCons(answer, parts[k].question, Singles(parts[k + 1..]));
          SolveOne(parts[k].question);
        }
      }
      assert answer + "" == answer;
    }

    method SolveItem(item: Item)
      modifies this
      ensures count == old(count) + |ItemQuestions(item)| && answer == old(answer) + Key(ItemQuestions(item))
    {
      match item
      case Single(q) =>
        KeyCons(answer, q, []);
        assert [q] + [] == [q];
        SolveOne(q);
      case Composed(parts) =>
        SolveSingles(parts);
      case OtherItem =>
    }

    method SolveItems(items: seq<Item>)
      modifies this
      ensures count == old(count) + |InItems(items)| && answer == old(answer) + Key(InItems(items))
    {
      for j := 0 to |items|
        invariant count + |InItems(items[j..])| == old(count) + |InItems(items)|
        invariant answer + Key(InItems(items[j..])) == old(answer) + Key(InItems(items))
      {
        assert items[j..][1..] == items[j + 1..];
        KeyConcat(answer, ItemQuestions(items[j]), InItems(items[j + 1..]));
        SolveItem(items[j]);
      }
      assert answer + "" == answer;
    }

    /** Counts the questions and writes their key, in traversal order. */
    method Solve()
      modifies this
      ensures count == |Questions(subjects)| && answer == Key(Questions(subjects))
    {
      count := 0;
      answer := "";
      assert "" + Key(Questions(subjects)) == Key(Questions(subjects));
      for i := 0 to |subjects|
        invariant count + |Questions(subjects[i..])| == |Questions(subjects)|
        invariant answer + Key(Questions(subjects[i..])) == Key(Questions(subjects))
      {
        assert subjects[i..][1..] == subjects[i + 1..];
        KeyConcat(answer, InItems(subjects[i].items), Questions(subjects[i + 1..]));
        SolveItems(subjects[i].items);
      }
      assert answer + "" == answer;
    }

    /** The numbers the JSON form gives the questions: from one on, as Solve counts them. */
    method Number() returns (ids: seq<(int, Question)>, total: int)
      ensures |ids| == |Questions(subjects)| == total
      ensures forall k :: 0 <= k < |ids| ==> ids[k] == (k + 1, Questions(subjects)[k])
    {
      var id := 1;
      ids := [];
      for i := 0 to |subjects|
        invariant Numbered(ids) && id == |ids| + 1
        invariant Unnumbered(ids) + Questions(subjects[i..]) == Questions(subjects)
      {
        assert subjects[i..][1..] == subjects[i + 1..];
        assert Unnumbered(ids) + InItems(subjects[i].items) + Questions(subjects[i + 1..])
            == Unnumbered(ids) + Questions(subjects[i..]);
        ids, id := NumberItems(subjects[i].items, ids, id);
      }
      assert Unnumbered(ids) == Questions(subjects);
      total := id - 1;
    }
  }

  method NumberSingles(parts: seq<Item>, before: seq<(int, Question)>, start: int)
    returns (ids: seq<(int, Question)>, id: int)
    requires Numbered(before) && start == |before| + 1
    ensures Numbered(ids) && id == |ids| + 1
    ensures Unnumbered(ids) == Unnumbered(before) + Singles(parts)
  {
    ids, id := before, start;
    for k := 0 to |parts|
      invariant Numbered(ids) && id == |ids| + 1
      invariant Unnumbered(ids) + Singles(parts[k..]) == Unnumbered(before) + Singles(parts)
    {
      assert parts[k..][1..] == parts[k + 1..];
      if parts[k].Single? {
        UnnumberedSnoc(ids, (id, parts[k].question));
        assert Unnumbered(ids) + Singles(parts[k..])
            == Unnumbered(ids) + [parts[k].question] + Singles(parts[k + 1..]);
        ids := ids + [(id, parts[k].question)];
        id := id + 1;
      }
    }
    assert Unnumbered(ids) + [] == Unnumbered(ids);
  }

  method NumberItems(items: seq<Item>, before: seq<(int, Question)>, start: int)
    returns (ids: seq<(int, Question)>, id: int)
    requires Numbered(before) && start == |before| + 1
    ensures Numbered(ids) && id == |ids| + 1
    ensures Unnumbered(ids) == Unnumbered(before) + InItems(items)
  {
    ids, id := before, start;
    for j := 0 to |items|
      invariant Numbered(ids) && id == |ids| + 1
      invariant Unnumbered(ids) + InItems(items[j..]) == Unnumbered(before) + InItems(items)
    {
      assert items[j..][1..] == items[j + 1..];
      assert Unnumbered(ids) + InItems(items[j..])
          == Unnumbered(ids) + ItemQuestions(items[j]) + InItems(items[j + 1..]);
      match items[j]
      case Single(q) =>
        UnnumberedSnoc(ids, (id, q));
        ids := ids + [(id, q)];
        id := id + 1;
      case Composed(parts) =>
        ids, id := NumberSingles(parts, ids, id);
      case OtherItem =>
        assert Unnumbered(ids) + [] == Unnumbered(ids);
    }
    assert Unnumbered(ids) + [] == Unnumbered(ids);
  }

  lemma UnnumberedSnoc(ids: seq<(int, Question)>, pair: (int, Question))
    ensures Unnumbered(ids + [pair]) == Unnumbered(ids) + [pair.1]
  {}

  predicate Numbered(ids: seq<(int, Question)>) {
    forall k :: 0 <= k < |ids| ==> ids[k].0 == k + 1
  }

  function Unnumbered(ids: seq<(int, Question)>): (r: seq<Question>)
    ensures |r| == |ids| && forall k :: 0 <= k < |ids| ==> r[k] == ids[k].1
  {
    seq(|ids|, k requires 0 <= k < |ids| => ids[k].1)
  }

  // ----------------------------------------------------- what a code spells

  /** A hexadecimal digit, by the ranges of its characters. */
  function HexValue(c: char): nat {
    if '0' <= c <= '9' then c as int - '0' as int else if 'a' <= c <= 'f' then c as int - 'a' as int + 10 else 0
  }

  function HexNumber(s: string): nat {
    if s == "" then 0 else 16 * HexNumber(s[..|s| - 1]) + HexValue(s[|s| - 1])
  }

  lemma {:induction false} HexTextSpells(n: nat)
    ensures HexNumber(HexText(n)) == n && forall i :: 0 <= i < |HexText(n)| ==> IsHex(HexText(n)[i])
  {
    if n >= 16 {
      HexTextSpells(n / 16);
      var s := HexText(n);
      assert s[..|s| - 1] == HexText(n / 16);
    } else {
      assert HexText(n)[..0] == "";
    }
  }

  lemma {:induction false} ZeroInFront(s: string)
    ensures HexNumber("0" + s) == HexNumber(s)
  {
    if s == "" {
      assert "0"[..0] == "";
    } else {
      var k := |s| - 1;
      assert ("0" + s)[..|s|] == "0" + s[..k];
      ZeroInFront(s[..k]);
    }
  }

  /** A gradable question without a mark at position 63 has the hexadecimal number of its
      marks, the first mark being its lowest bit, in two digits at least; other questions have
      no code. */
  lemma CodeSpells(q: Question)
    ensures q.kind == 4 || q.kind == 6 ==> CodeOf(q) == ""
    ensures q.kind != 4 && q.kind != 6 && !(|q.answer| > 63 && q.answer[63] == '1') ==>
      |CodeOf(q)| >= 2 && HexNumber(CodeOf(q)) == Value(Flags(q.answer, 63))
  {
    var a := q.answer;
    if Gradable(q) && !Marked(a, 63) {
      MaskOfFirst(a);
      HexTextSpells(Mask(a));
      ZeroInFront(HexText(Mask(a)));
    }
  }

  lemma MaskOfFirst(answer: string)
    requires !Marked(answer, 63)
    ensures Mask(answer) == Value(Flags(answer, 63)) >= 0
  {
    MaskStops(answer, |answer| + 64);
    MaskPastWidth(answer, |answer| + 64);
    MaskIsValue(answer, 63);
  }

  lemma {:induction false} MaskPastWidth(answer: string, k: nat)
    requires k >= 63 && !Marked(answer, 63)
    ensures MaskUpTo(answer, k) == MaskUpTo(answer, 63)
  {
    if k > 63 {
      MaskPastWidth(answer, k - 1);
    }
  }

  predicate Is(answer: string, i: nat) {
    i < |answer| && answer[i] == '1'
  }

  function Weight(on: bool, w: nat): nat {
    if on then w else 0
  }

  lemma PairSpells(n: nat)
    requires n < 256
    ensures |Hex02(n)| == 2 && 16 * HexValue(Hex02(n)[0]) + HexValue(Hex02(n)[1]) == n
  {
    Hex02Shape(n);
  }

  /** The marks of the first eight as a number: 1 for the first, 2 for the second, and so on
      to 128. */
  function EightMarks(a: string): nat {
    Weight(Is(a, 0), 1) + Weight(Is(a, 1), 2) + Weight(Is(a, 2), 4) + Weight(Is(a, 3), 8)
    + Weight(Is(a, 4), 16) + Weight(Is(a, 5), 32) + Weight(Is(a, 6), 64) + Weight(Is(a, 7), 128)
  }

  /** When no mark stands behind the eighth the code is two digits, the high one first, and
      spells that number. */
  lemma CodeOfEight(q: Question)
    requires q.kind != 4 && q.kind != 6 && Fits(q.answer)
    ensures |CodeOf(q)| == 2
    ensures 16 * HexValue(CodeOf(q)[0]) + HexValue(CodeOf(q)[1]) == EightMarks(q.answer)
  {
    MaskOfMarks(q.answer);
    PairSpells(Mask(q.answer));
    EightBits(Flags(q.answer, 8));
  }

  lemma EightBits(b: seq<bool>)
    requires |b| == 8
    ensures Value(b)
         == Weight(b[0], 1) + Weight(b[1], 2) + Weight(b[2], 4) + Weight(b[3], 8)
            + Weight(b[4], 16) + Weight(b[5], 32) + Weight(b[6], 64) + Weight(b[7], 128)
  {
    FourBits(b[..4]);
    FourBits(b[4..]);
    ValueConcat(b[..4], b[4..]);
    assert b == b[..4] + b[4..] && Pow2(4) == 16;
  }

  lemma FourBits(b: seq<bool>)
    requires |b| == 4
    ensures Value(b) == Weight(b[0], 1) + Weight(b[1], 2) + Weight(b[2], 4) + Weight(b[3], 8)
  {
    assert b[1..][1..] == b[2..] && b[2..][1..] == b[3..] && b[3..][1..] == [];
    assert Value(b[3..]) == Weight(b[3], 1);
    assert Value(b[2..]) == Weight(b[2], 1) + 2 * Value(b[3..]);
    assert Value(b[1..]) == Weight(b[1], 1) + 2 * Value(b[2..]);
  }

  // ------------------------------------------------------ the order of questions

  lemma {:induction false} SinglesConcat(x: seq<Item>, y: seq<Item>)
    ensures Singles(x + y) == Singles(x) + Singles(y)
  {
    if x == [] {
      assert x + y == y;
    } else {
      assert (x + y)[1..] == x[1..] + y;
      SinglesConcat(x[1..], y);
    }
  }

  lemma {:induction false} InItemsConcat(x: seq<Item>, y: seq<Item>)
    ensures InItems(x + y) == InItems(x) + InItems(y)
  {
    if x == [] {
      assert x + y == y;
    } else {
      assert (x + y)[1..] == x[1..] + y;
      InItemsConcat(x[1..], y);
    }
  }

  lemma {:induction false} QuestionsConcat(x: seq<SubExam>, y: seq<SubExam>)
    ensures Questions(x + y) == Questions(x) + Questions(y)
  {
    if x == [] {
      assert x + y == y;
    } else {
      assert (x + y)[1..] == x[1..] + y;
      QuestionsConcat(x[1..], y);
    }
  }

  lemma OneOfEach(q: Question, parts: seq<Item>, name: string, items: seq<Item>)
    ensures Singles([Single(q)]) == [q] && Singles([Composed(parts)]) == [] && Singles([OtherItem]) == []
    ensures InItems([Single(q)]) == [q] && InItems([Composed(parts)]) == Singles(parts) && InItems([OtherItem]) == []
    ensures Questions([SubExam(name, items)]) == InItems(items)
  {
    assert [Single(q)][1..] == [] && [Composed(parts)][1..] == [] && [OtherItem][1..] == [];
    assert [SubExam(name, items)][1..] == [];
  }

  /** Sub-exams, their items and the parts of a composed item are taken in order; a single
      question is one question, a composed item its single parts, and nothing else is any. */
  lemma TraversalOrder(a: seq<SubExam>, name: string, x: seq<Item>, item: Item, y: seq<Item>, b: seq<SubExam>)
    ensures Questions(a + [SubExam(name, x + [item] + y)] + b)
         == Questions(a) + (InItems(x) + InItems([item]) + InItems(y)) + Questions(b)
    ensures item.Single? ==> InItems([item]) == [item.question]
    ensures item.OtherItem? ==> InItems([item]) == []
    ensures forall u: seq<Item>, q: Question, w: seq<Item> :: item == Composed(u + [Single(q)] + w) ==>
      InItems([item]) == Singles(u) + [q] + Singles(w)
  {
    QuestionsConcat(a + [SubExam(name, x + [item] + y)], b);
    QuestionsConcat(a, [SubExam(name, x + [item] + y)]);
    InItemsConcat(x + [item], y);
    InItemsConcat(x, [item]);
    OneOfEach(Question(0, ""), [], name, x + [item] + y);
    match item
    case Single(q) => OneOfEach(q, [], "", []);
    case Composed(parts) =>
      OneOfEach(Question(0, ""), parts, "", []);
      forall u: seq<Item>, q: Question, w: seq<Item> | item == Composed(u + [Single(q)] + w)
        ensures InItems([item]) == Singles(u) + [q] + Singles(w)
      {
        SinglesConcat(u + [Single(q)], w);
        SinglesConcat(u, [Single(q)]);
        OneOfEach(q, [], "", []);
      }
    case OtherItem =>
  }
}
