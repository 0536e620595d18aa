/** Answering exams and scoring meetings, as the service does it: the row, its cached
    copy and the meeting's totals rewritten one after another. */
module MeetingService {
  import opened Texts
  import opened StringLists
  import opened StringMaps
  import opened MeetingBooks

  /** Pairwise comparison of an answer with the key. */
  method CountCorrect(answer: string, key: string) returns (correctCount: nat)
    requires |answer| == |key| && |key| % 2 == 0
    ensures correctCount == EqualPairs(answer, key)
  {
    correctCount := 0;
    var i := 0;
    while i < |key|
      invariant 0 <= i <= |key| && i % 2 == 0
      invariant correctCount + EqualPairs(answer[i..], key[i..]) == EqualPairs(answer, key)
    {
      assert answer[i..][2..] == answer[i + 2..] && key[i..][2..] == key[i + 2..];
      if answer[i] != key[i] || answer[i + 1] != key[i + 1] {
      } else {
        correctCount := correctCount + 1;
      }
      i := i + 2;
    }
  }

  method CombineIntArrayNumerically(x: seq<int>, y: seq<int>) returns (r: seq<int>)
    ensures r == Combined(x, y)
  {
    if |x| == 0 && |y| == 0 {
      return [];
    }
    var n := |x|;
    if |y| > |x| {
      n := |y|;
    }
    var a := new int[n];
    for i := 0 to n
      invariant forall j :: 0 <= j < i ==> a[j] == At(x, j) + At(y, j)
    {
      a[i] := 0;
      if i < |x| {
        a[i] := a[i] + x[i];
      }
      if i < |y| {
        a[i] := a[i] + y[i];
      }
    }
    r := a[..];
  }

  /** InStringArrayByKey, as far as its callers look. */
  method InStringArrayByKey(k: string, arr: seq<string>) returns (found: bool)
    ensures found <==> k != "" && AnyPrefix(arr, k + ":")
  {
    if |k| == 0 {
      return false;
    }
    for i := 0 to |arr|
      invariant forall j :: 0 <= j < i ==> !HasPrefix(arr[j], k + ":")
    {
      if HasPrefix(arr[i], k + ":") {
        return true;
      }
    }
    return false;
  }

  method ScoresAreValid(scores: seq<int>) returns (ok: bool)
    ensures ok <==> ValidScores(scores)
  {
    if |scores| == 0 {
      return false;
    }
    for i := 0 to |scores|
      invariant forall j :: 0 <= j < i ==> 0 <= scores[j] <= 5
    {
      if scores[i] < 0 || scores[i] > 5 {
        return false;
      }
    }
    return true;
  }

  class Service {
    var rows: map<Seat, Row>
    var cached: map<Seat, Hash>
    var keys: map<int, string>
    var meetings: map<int, Tally>
    var shown: map<int, (string, string)>

    ghost function State(): Books
      reads this
    {
      Books(rows, cached, keys, meetings, shown)
    }

    constructor (b: Books)
      ensures State() == b
    {
      rows, cached, keys, meetings, shown := b.rows, b.cached, b.keys, b.meetings, b.shown;
    }

    method NewUserMeetingProgressInfoFromMap(h: Hash) returns (p: Option<Info>)
      ensures p == FromHash(h)
    {
      var ec := Atoi(h.correct);
      if ec.None? {
        return None;
      }
      var et := Atoi(h.total);
      if et.None? {
        return None;
      }
      var scores := StringToIntArray(h.scores);
      return Some(Info(h.exams, ec.value, et.value, scores));
    }

    method GetUserProgress(seat: Seat) returns (p: Option<Info>)
      modifies this
      ensures (State(), p) == Fetched(old(State()), seat)
    {
      if seat in cached {
        p := NewUserMeetingProgressInfoFromMap(cached[seat]);
        if p.Some? {
          return;
        }
      }
      if seat.0 > EXPERIENCE {
        cached := cached[seat := ToHash(NOTHING)];
        return Some(NOTHING);
      }
      if seat !in rows {
        return None;
      }
      var row := rows[seat];
      var scores := StringToIntArray(row.scores);
      var text := IntArrayToString(scores);
      cached := cached[seat := Hash(row.exams, Itoa(row.correct), Itoa(row.total), text)];
      p := Some(Info(row.exams, row.correct, row.total, scores));
    }

    /** The transaction: the row first, then its cached copy. */
    method PostAnswer(seat: Seat, exam: int, now: int, correct: int, total: int) returns (o: Outcome)
      requires seat in rows
      modifies this
      ensures (State(), o) == Posted(old(State()), seat, exam, now, correct, total)
    {
      var row := rows[seat];
      var el, changed := AddResourceToMap(Itoa(exam), AnswerText(now, correct, total), row.exams);
      if !changed {
        return Dropped;
      }
      var ec, et := row.correct + correct, row.total + total;
      rows := rows[seat := row.(exams := el, correct := ec, total := et)];
      if seat in cached {
        cached := cached[seat := cached[seat].(exams := el, correct := Itoa(ec), total := Itoa(et))];
      }
      return Recorded(correct, total);
    }

    method AnswerExam(seat: Seat, exam: int, answer: string, offered: seq<string>, now: int) returns (o: Outcome)
      modifies this
      ensures (State(), o) == Step(old(State()), Call.AnswerExam(seat, exam, answer, offered, now))
    {
      var sExamID := Itoa(exam);
      var found := InStringArrayByKey(sExamID, offered);
      if !found {
        return NoExam;
      }
      var p := GetUserProgress(seat);
      if p.None? {
        return NoUser;
      }
      var answered := InMap(sExamID, p.value.exams);
      if answered {
        return DuplicateAnswer;
      }
      if exam !in keys {
        return NoKey;
      }
      o := Grade(seat, exam, answer, keys[exam], now);
    }

    method Grade(seat: Seat, exam: int, answer: string, key: string, now: int) returns (o: Outcome)
      modifies this
      ensures (State(), o) == Graded(old(State()), seat, exam, answer, key, now)
    {
      if |answer| != |key| || |answer| % 2 != 0 {
        return InvalidAnswer;
      }
      var correctCount := CountCorrect(answer, key);
      if seat !in rows {
        return NoUser;
      }
      o := PostAnswer(seat, exam, now, correctCount, |key| / 2);
    }

    /** The transaction: the user's row and copy, then the meeting's sums and their copy. */
    method PostScores(seat: Seat, scores: seq<int>)
      requires seat.1 in meetings
      modifies this
      ensures State() == WithScores(old(State()), seat, scores)
    {
      var sScores := IntArrayToString(scores);
      if seat in rows {
        rows := rows[seat := rows[seat].(scores := sScores)];
      }
      if seat in cached {
        cached := cached[seat := cached[seat].(scores := sScores)];
      }
      var sl, sc := meetings[seat.1].scores, meetings[seat.1].count;
      if |sl| == 0 {
        sl, sc := sScores, 1;
      } else {
        var sums := StringToIntArray(sl);
        sums := CombineIntArrayNumerically(sums, scores);
        sl := IntArrayToString(sums);
        sc := sc + 1;
      }
      meetings := meetings[seat.1 := Tally(sl, sc)];
      shown := shown[seat.1 := (sl, Itoa(sc))];
    }

    method ScoreMeeting(seat: Seat, scores: seq<int>) returns (o: Outcome)
      modifies this
      ensures (State(), o) == Step(old(State()), Call.ScoreMeeting(seat, scores))
    {
      var ok := ScoresAreValid(scores);
      if !ok {
        return InvalidScore;
      }
      if seat.1 !in meetings {
        return NoMeeting;
      }
      var p := GetUserProgress(seat);
      if p.None? {
        return NoUser;
      }
      if |p.value.scores| > 0 {
        return DuplicateScore;
      }
      if seat.0 > EXPERIENCE {
        return Unscored;
      }
      PostScores(seat, scores);
      return Scored;
    }
  }
}
