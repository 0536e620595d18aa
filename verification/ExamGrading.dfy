/** Counting equal pairs of a submitted answer and a key is counting the questions whose
    sets of marks are equal. */
module ExamGrading {
  import opened AnswerKey
  import opened MeetingBooks

  /** The questions with the marks somebody put instead of the right ones. */
  function Filled(qs: seq<Question>, given: seq<string>): (r: seq<Question>)
    requires |given| == |qs|
    ensures |r| == |qs| && forall i :: 0 <= i < |qs| ==> r[i] == Question(qs[i].kind, given[i])
  {
    seq(|qs|, i requires 0 <= i < |qs| => Question(qs[i].kind, given[i]))
  }

  predicate SameMarks(x: string, y: string) {
    forall i :: 0 <= i < 8 ==> (Marked(x, i) <==> Marked(y, i))
  }

  /** Gradable questions answered with exactly the right set of marks. */
  function Agreeing(qs: seq<Question>, given: seq<string>): nat
    requires |given| == |qs|
  {
    if qs == [] then 0
    else if Gradable(qs[0]) && SameMarks(given[0], qs[0].answer) then 1 + Agreeing(qs[1..], given[1..])
    else Agreeing(qs[1..], given[1..])
  }

  lemma PairFirst(c: string, d: string, s: string, t: string)
    requires |c| == 2 && |d| == 2
    ensures EqualPairs(c + s, d + t) == (if c == d then 1 else 0) + EqualPairs(s, t)
  {
    assert (c + s)[2..] == s && (d + t)[2..] == t;
    assert c == [c[0], c[1]] && d == [d[0], d[1]];
  }

  /** When every gradable question's marks fit, and so do the given ones, the answer has the
      key's length and is credited with exactly the questions whose sets are equal. */
  lemma {:induction false} GradeCountsEqualSets(qs: seq<Question>, given: seq<string>)
    requires |given| == |qs| && AllFit(qs) && AllFit(Filled(qs, given))
    ensures var answer, key := Key(Filled(qs, given)), Key(qs);
      && |answer| == |key| == 2 * Gradables(qs)
      && EqualPairs(answer, key) == Agreeing(qs, given)
  {
    if qs != [] {
      var filled := Filled(qs, given);
      assert filled[1..] == Filled(qs[1..], given[1..]);
      GradeCountsEqualSets(qs[1..], given[1..]);
      assert filled[0] == Question(qs[0].kind, given[0]);
      if Gradable(qs[0]) {
        CodeIsPair(qs[0]);
        CodeIsPair(filled[0]);
        SameCode(given[0], qs[0].answer);
        PairFirst(CodeOf(filled[0]), CodeOf(qs[0]), Key(filled[1..]), Key(qs[1..]));
      } else {
        assert Key(filled) == Key(filled[1..]) && Key(qs) == Key(qs[1..]);
      }
    }
  }
}
