/** What an answer to an exam and a vector of scores do, in the stored texts: every outcome
    with its guard, and the rows, copies and tallies after it. The books are those a run can
    reach (MeetingBooks.StepKeeps), with the ledger of what was accepted so far. */
module MeetingAnswers {
  import opened Texts
  import opened StringLists
  import opened StringMaps
  import opened MeetingBooks

  /** Nothing but one copy in the cache. */
  ghost predicate OnlyRead(b: Books, b': Books, seat: Seat) {
    && b'.rows == b.rows && b'.keys == b.keys && b'.meetings == b.meetings && b'.shown == b.shown
    && (forall x :: x != seat ==> (x in b'.cached <==> x in b.cached))
    && (forall x :: x != seat && x in b.cached && x in b'.cached ==> b'.cached[x] == b.cached[x])
  }

  lemma FetchedOnlyReads(b: Books, seat: Seat)
    ensures OnlyRead(b, Fetched(b, seat).0, seat)
  {}

  predicate HasAnswer(rs: seq<Record>, exam: int) {
    exists i :: 0 <= i < |rs| && rs[i].exam == exam
  }

  /** A user with an id above a billion is there for the experience: no row, nothing kept. */
  predicate Experience(seat: Seat) {
    seat.0 > 1000000000
  }

  predicate OnList(offered: seq<string>, exam: int) {
    exists i :: 0 <= i < |offered| && Itoa(exam) + ":" <= offered[i]
  }

  /** The outcome of an answer, refusals in the order of their checks. */
  function Verdict(b: Books, rs: seq<Record>, seat: Seat, exam: int, answer: string, offered: seq<string>): Outcome {
    if !OnList(offered, exam) then NoExam
    else if !Experience(seat) && seat !in b.rows then NoUser
    else if seat in b.rows && HasAnswer(rs, exam) then DuplicateAnswer
    else if exam !in b.keys then NoKey
    else if |answer| != |b.keys[exam]| || |answer| % 2 == 1 then InvalidAnswer
    else if Experience(seat) then NoUser
    else Recorded(EqualPairs(answer, b.keys[exam]), |answer| / 2)
  }

  /** The exam goes to the end of the row's text, with the time, the number of right answers
      and the number of questions in this order; the row's totals grow; the copy says the same. */
  ghost predicate AnswerEntered(b: Books, b': Books, seat: Seat, exam: int, now: int, correct: int, total: int)
    requires seat in b.rows
  {
    var row := b.rows[seat];
    var entry := Itoa(exam) + ":" + (Itoa(now) + "_" + Itoa(correct) + "_" + Itoa(total));
    var row' := Row((if row.exams == "" then "" else row.exams + ",") + entry, row.correct + correct,
                    row.total + total, row.scores);
    && b'.rows == b.rows[seat := row']
    && seat in b'.cached && b'.cached[seat] == Hash(row'.exams, Itoa(row'.correct), Itoa(row'.total), row'.scores)
    && (forall x :: x != seat ==> (x in b'.cached <==> x in b.cached))
    && (forall x :: x != seat && x in b.cached && x in b'.cached ==> b'.cached[x] == b.cached[x])
    && b'.keys == b.keys && b'.meetings == b.meetings && b'.shown == b.shown
  }

  lemma OnListIs(offered: seq<string>, exam: int)
    ensures AnyPrefix(offered, Itoa(exam) + ":") <==> OnList(offered, exam)
  {}

  /** The text of an exam not answered yet. */
  lemma NewEntry(rs: seq<Record>, exam: int, now: int, correct: int, total: int)
    requires MeetingBooks.Proper(rs) && !HasAnswer(rs, exam)
    ensures var el := MapText(AnswerPairs(rs));
      var entry := Itoa(exam) + ":" + (Itoa(now) + "_" + Itoa(correct) + "_" + Itoa(total));
      AddedResource(Itoa(exam), AnswerText(now, correct, total), el)
      == ((if el == "" then "" else el + ",") + entry, true)
  {
    var ps, k := AnswerPairs(rs), Itoa(exam);
    AnswerPairsForm(rs, exam);
    SatIsMembership(rs, exam);
    if !NoneHas(ps, k) {
      var i :| 0 <= i < |ps| && ps[i].0 == k;
      BoundIfIn(ps, i);
    }
    NewKeyGoesLast(ps, k, AnswerText(now, correct, total));
    if ps != [] {
      ItemsOfText(ps);
    }
  }

  lemma EnteredIs(b: Books, seat: Seat, exam: int, now: int, correct: int, total: int, el: string)
    requires seat in b.rows && seat in b.cached && b.cached[seat] == HashOf(b.rows[seat])
    requires AddedResource(Itoa(exam), AnswerText(now, correct, total), b.rows[seat].exams) == (el, true)
    requires el == (if b.rows[seat].exams == "" then "" else b.rows[seat].exams + ",")
                   + (Itoa(exam) + ":" + (Itoa(now) + "_" + Itoa(correct) + "_" + Itoa(total)))
    ensures var (b', o) := Posted(b, seat, exam, now, correct, total);
      o == Recorded(correct, total) && AnswerEntered(b, b', seat, exam, now, correct, total)
  {}

  /** An answer gets the outcome above; where it is recorded the books change as said, and
      otherwise the user's progress was read at most. */
  lemma AnswerExamCall(b: Books, l: Ledger, seat: Seat, exam: int, answer: string, offered: seq<string>, now: int)
    requires Kept(b, l)
    ensures var (b', o) := Step(b, AnswerExam(seat, exam, answer, offered, now));
      && o == Verdict(b, AnswersOf(l, seat), seat, exam, answer, offered)
      && (if o.Recorded? then seat in b.rows && AnswerEntered(b, b', seat, exam, now, o.correct, o.total)
          else OnlyRead(b, b', seat))
  {
    var c, p := AnswerExam(seat, exam, answer, offered, now), Fetched(b, seat);
    OnListIs(offered, exam);
    FetchedKeeps(b, l, seat);
    FetchedOnlyReads(b, seat);
    AnswerStep(b, c);
    RecachedKept(b, l, p.0);
    if OnList(offered, exam) {
      JudgedIs(b, l, seat, exam, answer, now, offered, p.0, p.1);
    }
  }

  lemma EnteredThrough(b: Books, f: Books, b': Books, seat: Seat, exam: int, now: int, correct: int, total: int)
    requires seat in b.rows && OnlyRead(b, f, seat) && AnswerEntered(f, b', seat, exam, now, correct, total)
    ensures AnswerEntered(b, b', seat, exam, now, correct, total)
  {}

  lemma JudgedBranch(f: Books, p: Info, seat: Seat, exam: int, answer: string, now: int)
    ensures Judged(f, Some(p), seat, exam, answer, now)
         == if Contains(Itoa(exam), p.exams) then (f, DuplicateAnswer)
            else if exam !in f.keys then (f, NoKey)
            else if |answer| != |f.keys[exam]| || |answer| % 2 == 1 then (f, InvalidAnswer)
            else if seat !in f.rows then (f, NoUser)
            else Posted(f, seat, exam, now, EqualPairs(answer, f.keys[exam]), |answer| / 2)
  {}

  /** The user has a row: the exam, the key and the length decide. */
  lemma JudgedWithRow(f: Books, l: Ledger, seat: Seat, exam: int, answer: string, now: int)
    requires Kept(f, l) && seat in f.rows && seat in f.cached
    ensures var (b', o) := Judged(f, InfoOf(f.rows, l, seat), seat, exam, answer, now);
      if HasAnswer(AnswersOf(l, seat), exam) then b' == f && o == DuplicateAnswer
      else if exam !in f.keys then b' == f && o == NoKey
      else if |answer| != |f.keys[exam]| || |answer| % 2 == 1 then b' == f && o == InvalidAnswer
      else o == Recorded(EqualPairs(answer, f.keys[exam]), |answer| / 2)
           && AnswerEntered(f, b', seat, exam, now, o.correct, o.total)
  {
    var rs, row := AnswersOf(l, seat), f.rows[seat];
    assert ExamsKept(row.exams, row.correct, row.total, rs) && seat.0 <= EXPERIENCE && f.cached[seat] == HashOf(row);
    RowJudged(f, rs, InfoOf(f.rows, l, seat).value, seat, exam, answer, now);
  }

  lemma RowJudged(f: Books, rs: seq<Record>, p: Info, seat: Seat, exam: int, answer: string, now: int)
    requires seat in f.rows && seat in f.cached && f.cached[seat] == HashOf(f.rows[seat])
    requires p.exams == f.rows[seat].exams == MapText(AnswerPairs(rs)) && MeetingBooks.Proper(rs)
    ensures var (b', o) := Judged(f, Some(p), seat, exam, answer, now);
      if HasAnswer(rs, exam) then b' == f && o == DuplicateAnswer
      else if exam !in f.keys then b' == f && o == NoKey
      else if |answer| != |f.keys[exam]| || |answer| % 2 == 1 then b' == f && o == InvalidAnswer
      else o == Recorded(EqualPairs(answer, f.keys[exam]), |answer| / 2)
           && AnswerEntered(f, b', seat, exam, now, o.correct, o.total)
  {
    SatIsMembership(rs, exam);
    ContainsSat(rs, exam);
    JudgedBranch(f, p, seat, exam, answer, now);
    if !HasAnswer(rs, exam) && exam in f.keys {
      var correct, total := EqualPairs(answer, f.keys[exam]), |answer| / 2;
      NewEntry(rs, exam, now, correct, total);
      EnteredIs(f, seat, exam, now, correct, total,
                AddedResource(Itoa(exam), AnswerText(now, correct, total), p.exams).0);
    }
  }

  /** The user has none. */
  lemma JudgedWithoutRow(f: Books, l: Ledger, seat: Seat, exam: int, answer: string, now: int)
    requires Kept(f, l) && seat !in f.rows
    ensures Judged(f, InfoOf(f.rows, l, seat), seat, exam, answer, now)
         == (f, if !Experience(seat) then NoUser
                else if exam !in f.keys then NoKey
                else if |answer| != |f.keys[exam]| || |answer| % 2 == 1 then InvalidAnswer
                else NoUser)
  {}

  lemma JudgedIs(b: Books, l: Ledger, seat: Seat, exam: int, answer: string, now: int, offered: seq<string>,
                 f: Books, p: Option<Info>)
    requires Kept(b, l) && Kept(f, l) && OnlyRead(b, f, seat) && OnList(offered, exam)
    requires p == InfoOf(b.rows, l, seat) && (p.Some? ==> seat in f.cached)
    ensures var (b', o) := Judged(f, p, seat, exam, answer, now);
      && o == Verdict(b, AnswersOf(l, seat), seat, exam, answer, offered)
      && (if o.Recorded? then seat in b.rows && AnswerEntered(b, b', seat, exam, now, o.correct, o.total)
          else OnlyRead(b, b', seat))
  {
    if seat in b.rows {
      JudgedWithRow(f, l, seat, exam, answer, now);
      var (b', o) := Judged(f, p, seat, exam, answer, now);
      if o.Recorded? {
        EnteredThrough(b, f, b', seat, exam, now, o.correct, o.total);
      }
    } else {
      JudgedWithoutRow(f, l, seat, exam, answer, now);
    }
  }

  /** The questions, two characters each, on which two texts agree. */
  function Alike(a: string, b: string, n: nat): nat
    requires 2 * n <= |a| && 2 * n <= |b|
  {
    if n == 0 then 0
    else Alike(a, b, n - 1) + if a[2 * n - 2] == b[2 * n - 2] && a[2 * n - 1] == b[2 * n - 1] then 1 else 0
  }

  lemma {:induction false} PairsSnoc(a: string, b: string, c: string, d: string)
    requires |a| == |b| && |a| % 2 == 0 && |c| == |d| == 2
    ensures EqualPairs(a + c, b + d) == EqualPairs(a, b) + if c[0] == d[0] && c[1] == d[1] then 1 else 0
    decreases |a|
  {
    if a == "" {
      assert a + c == c && b + d == d && c[2..] == "" && d[2..] == "";
    } else {
      assert (a + c)[2..] == a[2..] + c && (b + d)[2..] == b[2..] + d;
      PairsSnoc(a[2..], b[2..], c, d);
    }
  }

  lemma {:induction false} AlikeOfPrefix(a: string, b: string, n: nat, k: nat)
    requires 2 * n <= k <= |a| && k <= |b|
    ensures Alike(a[..k], b[..k], n) == Alike(a, b, n)
  {
    if n > 0 {
      AlikeOfPrefix(a, b, n - 1, k);
    }
  }

  /** The credit of an answer is the number of those. */
  lemma {:induction false} CreditIs(a: string, b: string, n: nat)
    requires |a| == |b| == 2 * n
    ensures EqualPairs(a, b) == Alike(a, b, n)
  {
    if n > 0 {
      var k := 2 * n - 2;
      CreditIs(a[..k], b[..k], n - 1);
      AlikeOfPrefix(a, b, n - 1, k);
      PairsSnoc(a[..k], b[..k], a[k..], b[k..]);
      assert a == a[..k] + a[k..] && b == b[..k] + b[k..];
    }
  }

  // ------------------------------------------------------------------- scores

  predicate HasScored(vs: seq<Vote>, user: int) {
    exists i :: 0 <= i < |vs| && vs[i].user == user
  }

  predicate InRange(scores: seq<int>) {
    |scores| > 0 && forall i :: 0 <= i < |scores| ==> 0 <= scores[i] <= 5
  }

  /** The outcome of a vector of scores, refusals in the order of their checks. */
  function ScoreVerdict(b: Books, vs: seq<Vote>, seat: Seat, scores: seq<int>): Outcome {
    if !InRange(scores) then InvalidScore
    else if seat.1 !in b.meetings then NoMeeting
    else if Experience(seat) then Unscored
    else if seat !in b.rows then NoUser
    else if HasScored(vs, seat.0) then DuplicateScore
    else Scored
  }

  /** The vector becomes the row's score text and the copy's; the meeting counts one more, and
      its text has the sums, a shorter vector continued with zeros. */
  ghost predicate ScoresEntered(b: Books, b': Books, seat: Seat, scores: seq<int>)
    requires seat in b.rows && seat.1 in b.meetings
  {
    var m := seat.1;
    && b'.meetings.Keys == b.meetings.Keys
    && var was, sums := ParseInts(b.meetings[m].scores), ParseInts(b'.meetings[m].scores);
    && b'.rows == b.rows[seat := b.rows[seat].(scores := IntsText(scores))]
    && seat in b'.cached && b'.cached[seat].scores == IntsText(scores)
    && (forall x :: x != m && x in b.meetings ==> b'.meetings[x] == b.meetings[x])
    && b'.meetings[m].count == b.meetings[m].count + 1
    && |sums| == (if |was| > |scores| then |was| else |scores|)
    && (forall i :: 0 <= i < |sums| ==>
          sums[i] == (if i < |was| then was[i] else 0) + (if i < |scores| then scores[i] else 0))
    && b'.shown == b.shown[m := (b'.meetings[m].scores, Itoa(b'.meetings[m].count))]
    && b'.keys == b.keys
  }

  lemma {:induction false} GivenIsScored(vs: seq<Vote>, user: int)
    requires Votes(vs)
    ensures GivenBy(vs, user) != [] <==> HasScored(vs, user)
  {
    if vs != [] {
      GivenIsScored(Init(vs), user);
      assert forall i :: 0 <= i < |vs| - 1 ==> vs[i] == Init(vs)[i];
      assert vs[|vs| - 1] == Last(vs);
    }
  }

  lemma TallyIs(t: Tally, vs: seq<Vote>, scores: seq<int>)
    requires ScoresKept(t, vs)
    ensures var (t', was) := (NextTally(t, scores), ParseInts(t.scores));
      && t'.count == t.count + 1 && ParseInts(t'.scores) == Combined(was, scores)
  {
    TextIsEmpty(Summed(vs));
    ParseIntsText(Summed(vs));
    SummedBounds(vs);
    ParseIntsText(Combined(Summed(vs), scores));
    if vs == [] {
      assert Combined([], scores) == scores;
    } else {
      VotesOfSome(vs);
    }
  }

  lemma VotesOfSome(vs: seq<Vote>)
    requires Votes(vs) && vs != []
    ensures Summed(vs) != []
  {
    assert Last(vs).scores != [];
  }

  lemma EnteredScores(f: Books, vs: seq<Vote>, seat: Seat, scores: seq<int>)
    requires seat in f.rows && seat in f.cached && seat.1 in f.meetings && ScoresKept(f.meetings[seat.1], vs)
    ensures ScoresEntered(f, WithScores(f, seat, scores), seat, scores)
  {
    TallyIs(f.meetings[seat.1], vs, scores);
  }

  lemma ScoreBranch(f: Books, p: Option<Info>, seat: Seat, scores: seq<int>)
    requires seat.1 in f.meetings
    ensures Rated(f, p, seat, scores)
         == if p.None? then (f, NoUser)
            else if p.value.scores != [] then (f, DuplicateScore)
            else if Experience(seat) then (f, Unscored)
            else (WithScores(f, seat, scores), Scored)
  {}

  lemma ScoresThrough(b: Books, f: Books, b': Books, seat: Seat, scores: seq<int>)
    requires seat in b.rows && seat.1 in b.meetings && OnlyRead(b, f, seat) && ScoresEntered(f, b', seat, scores)
    ensures ScoresEntered(b, b', seat, scores)
  {}

  /** Scores get the outcome above; where they are entered the books change as said, and
      otherwise the user's progress was read at most. */
  lemma ScoreMeetingCall(b: Books, l: Ledger, seat: Seat, scores: seq<int>)
    requires Kept(b, l)
    ensures var (b', o) := Step(b, ScoreMeeting(seat, scores));
      && o == ScoreVerdict(b, VotesOf(l, seat.1), seat, scores)
      && (if o == Scored then seat in b.rows && seat.1 in b.meetings && ScoresEntered(b, b', seat, scores)
          else OnlyRead(b, b', seat))
  {
    var f, vs := Fetched(b, seat).0, VotesOf(l, seat.1);
    FetchedKeeps(b, l, seat);
    FetchedOnlyReads(b, seat);
    ScoreStep(b, ScoreMeeting(seat, scores));
    if seat.1 in b.meetings {
      assert ScoresKept(b.meetings[seat.1], vs);
      GivenIsScored(vs, seat.0);
      ScoreBranch(f, InfoOf(b.rows, l, seat), seat, scores);
      if seat in b.rows {
        EnteredScores(f, vs, seat, scores);
        ScoresThrough(b, f, WithScores(f, seat, scores), seat, scores);
      }
    }
  }

  /** A lost copy is the only thing lost. */
  lemma ForgetCall(b: Books, seat: Seat)
    ensures Step(b, Forget(seat)).0 == b.(cached := b.cached - {seat})
  {}
}
