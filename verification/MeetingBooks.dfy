/** Exam answers and meeting scores: what the rows, their cached copies and the running
    totals hold after any sequence of calls. */
module MeetingBooks {
  import opened Texts
  import opened StringLists
  import opened StringMaps

  /** Ids above this one belong to experience users, who have no rows. */
  const EXPERIENCE := 1000000000

  /** A user in a meeting. */
  type Seat = (int, int)

  datatype Row = Row(exams: string, correct: int, total: int, scores: string)
  datatype Hash = Hash(exams: string, correct: string, total: string, scores: string)
  datatype Info = Info(exams: string, correct: int, total: int, scores: seq<int>)
  datatype Tally = Tally(scores: string, count: int)

  datatype Books = Books(
    rows: map<Seat, Row>,
    cached: map<Seat, Hash>,
    keys: map<int, string>,
    meetings: map<int, Tally>,
    shown: map<int, (string, string)>
  )

  datatype Outcome =
    | NoExam | NoUser | NoKey | NoMeeting | InvalidAnswer | InvalidScore | DuplicateAnswer | DuplicateScore
    | Dropped | Recorded(correct: int, total: int) | Unscored | Scored | Forgotten

  datatype Call =
    | AnswerExam(seat: Seat, exam: int, answer: string, offered: seq<string>, now: int)
    | ScoreMeeting(seat: Seat, scores: seq<int>)
    | Forget(seat: Seat)

  // ----------------------------------------------------------------- progress

  function FromHash(h: Hash): Option<Info> {
    match (Atoi(h.correct), Atoi(h.total))
    case (Some(c), Some(t)) => Some(Info(h.exams, c, t, ParseInts(h.scores)))
    case _ => None
  }

  function ToHash(p: Info): Hash {
    Hash(p.exams, Itoa(p.correct), Itoa(p.total), IntsText(p.scores))
  }

  const NOTHING := Info("", 0, 0, [])

  function Cached(b: Books, seat: Seat): Option<Info> {
    if seat in b.cached then FromHash(b.cached[seat]) else None
  }

  /** GetUserProgress: from the cache, or from the row, which then is cached. */
  function Fetched(b: Books, seat: Seat): (Books, Option<Info>) {
    if Cached(b, seat).Some? then (b, Cached(b, seat))
    else if seat.0 > EXPERIENCE then (b.(cached := b.cached[seat := ToHash(NOTHING)]), Some(NOTHING))
    else if seat !in b.rows then (b, None)
    else
      var row := b.rows[seat];
      var p := Info(row.exams, row.correct, row.total, ParseInts(row.scores));
      (b.(cached := b.cached[seat := ToHash(p)]), Some(p))
  }

  // -------------------------------------------------------------------- exams

  /** Pairs of characters that agree. */
  function EqualPairs(a: string, b: string): nat {
    if |a| < 2 || |b| < 2 then 0
    else if a[0] == b[0] && a[1] == b[1] then 1 + EqualPairs(a[2..], b[2..])
    else EqualPairs(a[2..], b[2..])
  }

  function AnswerText(now: int, correct: int, total: int): string {
    Itoa(now) + "_" + Itoa(correct) + "_" + Itoa(total)
  }

  function WithAnswer(b: Books, seat: Seat, el: string, correct: int, total: int): Books
    requires seat in b.rows
  {
    var row := b.rows[seat].(exams := el, correct := b.rows[seat].correct + correct, total := b.rows[seat].total + total);
    b.(rows := b.rows[seat := row],
       cached := if seat in b.cached
                 then b.cached[seat := b.cached[seat].(exams := el, correct := Itoa(row.correct), total := Itoa(row.total))]
                 else b.cached)
  }

  function Posted(b: Books, seat: Seat, exam: int, now: int, correct: int, total: int): (Books, Outcome)
    requires seat in b.rows
  {
    var p := AddedResource(Itoa(exam), AnswerText(now, correct, total), b.rows[seat].exams);
    if p.1 then (WithAnswer(b, seat, p.0, correct, total), Recorded(correct, total)) else (b, Dropped)
  }

  function Graded(b: Books, seat: Seat, exam: int, answer: string, key: string, now: int): (Books, Outcome) {
    if |answer| != |key| || |answer| % 2 != 0 then (b, InvalidAnswer)
    else if seat !in b.rows then (b, NoUser)
    else Posted(b, seat, exam, now, EqualPairs(answer, key), |key| / 2)
  }

  /** The checks that follow once the user's progress is known. */
  function Judged(b: Books, p: Option<Info>, seat: Seat, exam: int, answer: string, now: int): (Books, Outcome) {
    if p.None? then (b, NoUser)
    else if Contains(Itoa(exam), p.value.exams) then (b, DuplicateAnswer)
    else if exam !in b.keys then (b, NoKey)
    else Graded(b, seat, exam, answer, b.keys[exam], now)
  }

  function Answered(b: Books, seat: Seat, exam: int, answer: string, offered: seq<string>, now: int): (Books, Outcome) {
    if !AnyPrefix(offered, Itoa(exam) + ":") then (b, NoExam)
    else
      var (b', p) := Fetched(b, seat);
      Judged(b', p, seat, exam, answer, now)
  }

  // ------------------------------------------------------------------- scores

  predicate ValidScores(scores: seq<int>) {
    scores != [] && forall i :: 0 <= i < |scores| ==> 0 <= scores[i] <= 5
  }

  function At(v: seq<int>, i: nat): int {
    if i < |v| then v[i] else 0
  }

  /** CombineIntArrayNumerically: pointwise, the shorter one continued with zeros. */
  function Combined(x: seq<int>, y: seq<int>): (r: seq<int>)
    ensures |r| == if |x| > |y| then |x| else |y|
    ensures forall i :: 0 <= i < |r| ==> r[i] == At(x, i) + At(y, i)
  {
    seq(if |x| > |y| then |x| else |y|, i requires i >= 0 => At(x, i) + At(y, i))
  }

  function NextTally(t: Tally, scores: seq<int>): Tally {
    if t.scores == "" then Tally(IntsText(scores), 1)
    else Tally(IntsText(Combined(ParseInts(t.scores), scores)), t.count + 1)
  }

  function WithScores(b: Books, seat: Seat, scores: seq<int>): Books
    requires seat.1 in b.meetings
  {
    var text := IntsText(scores);
    var t := NextTally(b.meetings[seat.1], scores);
    b.(rows := if seat in b.rows then b.rows[seat := b.rows[seat].(scores := text)] else b.rows,
       cached := if seat in b.cached then b.cached[seat := b.cached[seat].(scores := text)] else b.cached,
       meetings := b.meetings[seat.1 := t],
       shown := b.shown[seat.1 := (t.scores, Itoa(t.count))])
  }

  function Rated(b: Books, p: Option<Info>, seat: Seat, scores: seq<int>): (Books, Outcome)
    requires seat.1 in b.meetings
  {
    if p.None? then (b, NoUser)
    else if p.value.scores != [] then (b, DuplicateScore)
    else if seat.0 > EXPERIENCE then (b, Unscored)
    else (WithScores(b, seat, scores), Scored)
  }

  function Scoring(b: Books, seat: Seat, scores: seq<int>): (Books, Outcome) {
    if !ValidScores(scores) then (b, InvalidScore)
    else if seat.1 !in b.meetings then (b, NoMeeting)
    else
      var (b', p) := Fetched(b, seat);
      Rated(b', p, seat, scores)
  }

  function Step(b: Books, c: Call): (Books, Outcome) {
    match c
    case AnswerExam(seat, exam, answer, offered, now) => Answered(b, seat, exam, answer, offered, now)
    case ScoreMeeting(seat, scores) => Scoring(b, seat, scores)
    case Forget(seat) => (b.(cached := b.cached - {seat}), Forgotten)
  }

  // ------------------------------------------------------------------ the ledger

  datatype Record = Record(exam: int, time: int, correct: int, total: int)
  datatype Vote = Vote(user: int, scores: seq<int>)

  /** What was accepted so far: answers by seat, scores by meeting. */
  datatype Ledger = Ledger(answers: map<Seat, seq<Record>>, votes: map<int, seq<Vote>>)

  function AnswersOf(l: Ledger, seat: Seat): seq<Record> {
    if seat in l.answers then l.answers[seat] else []
  }

  function VotesOf(l: Ledger, meeting: int): seq<Vote> {
    if meeting in l.votes then l.votes[meeting] else []
  }

  function WithRecord(l: Ledger, seat: Seat, r: Record): Ledger {
    l.(answers := l.answers[seat := AnswersOf(l, seat) + [r]])
  }

  function WithVote(l: Ledger, meeting: int, v: Vote): Ledger {
    l.(votes := l.votes[meeting := VotesOf(l, meeting) + [v]])
  }

  function Noted(l: Ledger, c: Call, o: Outcome): Ledger {
    if c.AnswerExam? && o.Recorded? then WithRecord(l, c.seat, Record(c.exam, c.now, o.correct, o.total))
    else if c.ScoreMeeting? && o.Scored? then WithVote(l, c.seat.1, Vote(c.seat.0, c.scores))
    else l
  }

  function Run(b: Books, l: Ledger, calls: seq<Call>): (Books, Ledger)
    decreases |calls|
  {
    if calls == [] then (b, l)
    else
      var (b', o) := Step(b, calls[0]);
      Run(b', Noted(l, calls[0], o), calls[1..])
  }

  // ------------------------------------------------------------- what they say

  function Init<T>(xs: seq<T>): seq<T>
    requires xs != []
  {
    xs[..|xs| - 1]
  }

  function Last<T>(xs: seq<T>): T
    requires xs != []
  {
    xs[|xs| - 1]
  }

  function Correct(rs: seq<Record>): int {
    if rs == [] then 0 else Correct(Init(rs)) + Last(rs).correct
  }

  function Total(rs: seq<Record>): int {
    if rs == [] then 0 else Total(Init(rs)) + Last(rs).total
  }

  predicate Sat(rs: seq<Record>, exam: int) {
    rs != [] && (Last(rs).exam == exam || Sat(Init(rs), exam))
  }

  function AnswerPairs(rs: seq<Record>): (ps: Pairs)
    ensures |ps| == |rs|
  {
    seq(|rs|, i requires 0 <= i < |rs| => (Itoa(rs[i].exam), AnswerText(rs[i].time, rs[i].correct, rs[i].total)))
  }

  /** Each exam once, each with at most all its questions right. */
  predicate Proper(rs: seq<Record>) {
    rs == [] || (Proper(Init(rs)) && !Sat(Init(rs), Last(rs).exam) && 0 <= Last(rs).correct <= Last(rs).total)
  }

  /** A row accounts for the answers accepted. */
  predicate ExamsKept(exams: string, correct: int, total: int, rs: seq<Record>) {
    && exams == MapText(AnswerPairs(rs))
    && correct == Correct(rs) && total == Total(rs)
    && Proper(rs)
  }

  /** The scores a user gave, if any. */
  function GivenBy(vs: seq<Vote>, user: int): seq<int> {
    if vs == [] then [] else if Last(vs).user == user then Last(vs).scores else GivenBy(Init(vs), user)
  }

  function Summed(vs: seq<Vote>): seq<int> {
    if vs == [] then [] else Combined(Summed(Init(vs)), Last(vs).scores)
  }

  /** Valid scores of ordinary users, each user once. */
  predicate Votes(vs: seq<Vote>) {
    vs == [] || (Votes(Init(vs)) && ValidScores(Last(vs).scores) && Last(vs).user <= EXPERIENCE && GivenBy(Init(vs), Last(vs).user) == [])
  }

  /** A meeting accounts for the scores accepted. */
  predicate ScoresKept(t: Tally, vs: seq<Vote>) {
    t.scores == IntsText(Summed(vs)) && t.count == |vs| && Votes(vs)
  }

  /** The cached copy of a row. */
  function HashOf(row: Row): Hash {
    Hash(row.exams, Itoa(row.correct), Itoa(row.total), row.scores)
  }

  predicate RowsAnswered(rows: map<Seat, Row>, l: Ledger) {
    forall seat :: seat in rows ==>
      ExamsKept(rows[seat].exams, rows[seat].correct, rows[seat].total, AnswersOf(l, seat))
  }

  predicate RowsScored(rows: map<Seat, Row>, l: Ledger) {
    forall seat :: seat in rows ==>
      seat.0 <= EXPERIENCE && rows[seat].scores == IntsText(GivenBy(VotesOf(l, seat.1), seat.0))
  }

  predicate CacheKept(cached: map<Seat, Hash>, rows: map<Seat, Row>) {
    forall seat :: seat in cached ==>
      if seat.0 > EXPERIENCE then cached[seat] == ToHash(NOTHING)
      else seat in rows && cached[seat] == HashOf(rows[seat])
  }

  predicate TalliesKept(meetings: map<int, Tally>, l: Ledger) {
    forall m :: m in meetings ==> ScoresKept(meetings[m], VotesOf(l, m))
  }

  predicate ShownKept(shown: map<int, (string, string)>, meetings: map<int, Tally>) {
    forall m :: m in shown ==> m in meetings && shown[m] == (meetings[m].scores, Itoa(meetings[m].count))
  }

  predicate Kept(b: Books, l: Ledger) {
    && RowsAnswered(b.rows, l) && RowsScored(b.rows, l) && CacheKept(b.cached, b.rows)
    && TalliesKept(b.meetings, l) && ShownKept(b.shown, b.meetings)
  }

  // ------------------------------------------------------------- one answer more

  lemma AnswerWords(exam: int, now: int, correct: int, total: int)
    ensures Itoa(exam) != "" && Word(Itoa(exam)) && Word(AnswerText(now, correct, total))
  {
    ItoaFree(exam, ',');
    ItoaFree(exam, ':');
    ItoaFree(now, ',');
    ItoaFree(now, ':');
    ItoaFree(correct, ',');
    ItoaFree(correct, ':');
    ItoaFree(total, ',');
    ItoaFree(total, ':');
  }

  lemma AnswerPairsSnoc(rs: seq<Record>, r: Record)
    ensures Init(rs + [r]) == rs && Last(rs + [r]) == r
    ensures AnswerPairs(rs + [r]) == AnswerPairs(rs) + [(Itoa(r.exam), AnswerText(r.time, r.correct, r.total))]
    ensures Correct(rs + [r]) == Correct(rs) + r.correct && Total(rs + [r]) == Total(rs) + r.total
  {
    assert (rs + [r])[..|rs|] == rs;
  }

  lemma AppendedForm(ps: Pairs, k: string, v: string)
    requires WellFormed(ps) && k != "" && Word(k) && Word(v) && k !in Bindings(ps)
    ensures WellFormed(ps + [(k, v)]) && Bindings(ps + [(k, v)]) == Bindings(ps)[k := v]
    ensures Put(ps, k, v) == ps + [(k, v)]
  {
    PutIsUpdate(ps, k, v);
    StaysClean(ps, k, v);
    ReplaceAbsent(ps, k, v);
  }

  lemma AppendedText(ps: Pairs, k: string, v: string)
    requires WellFormed(ps) && k != "" && Word(k) && Word(v) && k !in Bindings(ps)
    ensures AddedResource(k, v, MapText(ps)) == (MapText(ps + [(k, v)]), true)
  {
    AddedIsPut(ps, k, v);
    ReplaceAbsent(ps, k, v);
    if (k, v) in ps {
      PutPresent(ps, k, v);
    }
  }

  /** The text of the answers is a well-formed map whose keys are the exams answered. */
  lemma {:induction false} AnswerPairsForm(rs: seq<Record>, e: int)
    requires Proper(rs)
    ensures WellFormed(AnswerPairs(rs))
    ensures Itoa(e) in Bindings(AnswerPairs(rs)) <==> Sat(rs, e)
  {
    if rs != [] {
      var r := Last(rs);
      AnswerPairsForm(Init(rs), e);
      AnswerPairsForm(Init(rs), r.exam);
      AnswerWords(r.exam, r.time, r.correct, r.total);
      LastPair(rs);
      AppendedKeys(AnswerPairs(Init(rs)), Itoa(r.exam), AnswerText(r.time, r.correct, r.total), Itoa(e));
      SameItoa(e, r.exam);
    }
  }

  lemma LastPair(rs: seq<Record>)
    requires rs != []
    ensures AnswerPairs(rs)
         == AnswerPairs(Init(rs)) + [(Itoa(Last(rs).exam), AnswerText(Last(rs).time, Last(rs).correct, Last(rs).total))]
  {
    AnswerPairsSnoc(Init(rs), Last(rs));
    assert rs == Init(rs) + [Last(rs)];
  }

  lemma AppendedKeys(ps: Pairs, k: string, v: string, key: string)
    requires WellFormed(ps) && k != "" && Word(k) && Word(v) && k !in Bindings(ps)
    ensures WellFormed(ps + [(k, v)])
    ensures key in Bindings(ps + [(k, v)]) <==> key in Bindings(ps) || key == k
  {
    AppendedForm(ps, k, v);
  }

  lemma SameItoa(e: int, n: int)
    ensures Itoa(e) == Itoa(n) <==> e == n
  {
    if Itoa(e) == Itoa(n) {
      ItoaInjective(e, n);
    }
  }

  lemma ContainsSat(rs: seq<Record>, exam: int)
    requires Proper(rs)
    ensures Contains(Itoa(exam), MapText(AnswerPairs(rs))) <==> Sat(rs, exam)
  {
    AnswerWords(exam, 0, 0, 0);
    AnswerPairsForm(rs, exam);
    ContainsIsBound(AnswerPairs(rs), Itoa(exam));
  }

  /** An exam not answered yet is put at the end of the text; the text always changes. */
  lemma NewAnswer(el: string, ec: int, et: int, rs: seq<Record>, r: Record)
    requires ExamsKept(el, ec, et, rs) && !Contains(Itoa(r.exam), el) && 0 <= r.correct <= r.total
    ensures var p := AddedResource(Itoa(r.exam), AnswerText(r.time, r.correct, r.total), el);
      p.1 && ExamsKept(p.0, ec + r.correct, et + r.total, rs + [r])
  {
    var k, v := Itoa(r.exam), AnswerText(r.time, r.correct, r.total);
    AnswerWords(r.exam, r.time, r.correct, r.total);
    AnswerPairsForm(rs, r.exam);
    ContainsSat(rs, r.exam);
    AppendedText(AnswerPairs(rs), k, v);
    AnswerPairsSnoc(rs, r);
  }

  lemma {:induction false} EqualPairsBound(a: string, b: string)
    ensures EqualPairs(a, b) <= |b| / 2
    decreases |a|
  {
    if |a| >= 2 && |b| >= 2 {
      EqualPairsBound(a[2..], b[2..]);
    }
  }

  // -------------------------------------------------------------- one score more

  lemma {:induction false} SummedBounds(vs: seq<Vote>)
    requires Votes(vs)
    ensures |Summed(vs)| > 0 <==> vs != []
    ensures forall i :: 0 <= i < |Summed(vs)| ==> 0 <= Summed(vs)[i] <= 5 * |vs|
  {
    if vs != [] {
      SummedBounds(Init(vs));
    }
  }

  lemma TextIsEmpty(ns: seq<int>)
    ensures IntsText(ns) == "" <==> ns == []
  {
    if ns != [] {
      assert Ints(ns)[0] != "";
      JoinNonEmpty(Ints(ns), ",");
    }
  }

  lemma VotesSnoc(vs: seq<Vote>, v: Vote, user: int)
    ensures Init(vs + [v]) == vs && Last(vs + [v]) == v
    ensures GivenBy(vs + [v], user) == if v.user == user then v.scores else GivenBy(vs, user)
    ensures Summed(vs + [v]) == Combined(Summed(vs), v.scores)
  {
    assert (vs + [v])[..|vs|] == vs;
  }

  lemma NewVote(t: Tally, vs: seq<Vote>, v: Vote)
    requires ScoresKept(t, vs) && ValidScores(v.scores) && v.user <= EXPERIENCE && GivenBy(vs, v.user) == []
    ensures ScoresKept(NextTally(t, v.scores), vs + [v])
  {
    SummedBounds(vs);
    TextIsEmpty(Summed(vs));
    ParseIntsText(Summed(vs));
    VotesSnoc(vs, v, v.user);
    assert vs == [] ==> Combined(Summed(vs), v.scores) == v.scores;
  }

  // ------------------------------------------------------------------- the steps

  lemma HashReads(row: Row, given: seq<int>)
    requires row.scores == IntsText(given)
    ensures FromHash(HashOf(row)) == Some(Info(row.exams, row.correct, row.total, given))
    ensures ToHash(Info(row.exams, row.correct, row.total, ParseInts(row.scores))) == HashOf(row)
    ensures ParseInts(row.scores) == given
  {
    AtoiItoa(row.correct);
    AtoiItoa(row.total);
    ParseIntsText(given);
  }

  lemma NothingReads()
    ensures FromHash(ToHash(NOTHING)) == Some(NOTHING)
  {
    AtoiItoa(0);
    ParseIntsText([]);
  }

  function InfoOf(rows: map<Seat, Row>, l: Ledger, seat: Seat): Option<Info> {
    if seat.0 > EXPERIENCE then Some(NOTHING)
    else if seat !in rows then None
    else Some(Info(rows[seat].exams, rows[seat].correct, rows[seat].total, GivenBy(VotesOf(l, seat.1), seat.0)))
  }

  lemma FetchedFinds(b: Books, l: Ledger, seat: Seat)
    requires RowsScored(b.rows, l) && CacheKept(b.cached, b.rows)
    ensures Fetched(b, seat).1 == InfoOf(b.rows, l, seat)
  {
    NothingReads();
    if seat in b.rows {
      HashReads(b.rows[seat], GivenBy(VotesOf(l, seat.1), seat.0));
    }
  }

  lemma CachedKept(cached: map<Seat, Hash>, rows: map<Seat, Row>, seat: Seat, h: Hash)
    requires CacheKept(cached, rows)
    requires if seat.0 > EXPERIENCE then h == ToHash(NOTHING) else seat in rows && h == HashOf(rows[seat])
    ensures CacheKept(cached[seat := h], rows)
  {}

  lemma FetchedCaches(b: Books, l: Ledger, seat: Seat)
    requires RowsScored(b.rows, l) && CacheKept(b.cached, b.rows)
    ensures var p := Fetched(b, seat);
      && p.0 == b.(cached := p.0.cached) && CacheKept(p.0.cached, b.rows) && (p.1.Some? ==> seat in p.0.cached)
  {
    if seat.0 > EXPERIENCE {
      CachedKept(b.cached, b.rows, seat, ToHash(NOTHING));
    } else if seat in b.rows {
      HashReads(b.rows[seat], GivenBy(VotesOf(l, seat.1), seat.0));
      CachedKept(b.cached, b.rows, seat, HashOf(b.rows[seat]));
    }
  }

  /** Reading progress changes no row, keeps the cache true to the rows, and finds what the
      ledger says; this is so whether the copy is cached or not. */
  lemma FetchedKeeps(b: Books, l: Ledger, seat: Seat)
    requires RowsScored(b.rows, l) && CacheKept(b.cached, b.rows)
    ensures var p := Fetched(b, seat);
      && p.0 == b.(cached := p.0.cached) && CacheKept(p.0.cached, b.rows)
      && p.1 == InfoOf(b.rows, l, seat) && (p.1.Some? ==> seat in p.0.cached)
  {
    FetchedFinds(b, l, seat);
    FetchedCaches(b, l, seat);
  }

  /** How a call goes on after the user's progress was read. */
  lemma AnswerStep(b: Books, c: Call)
    requires c.AnswerExam?
    ensures var p := Fetched(b, c.seat);
      Step(b, c) == if !AnyPrefix(c.offered, Itoa(c.exam) + ":") then (b, NoExam)
                    else Judged(p.0, p.1, c.seat, c.exam, c.answer, c.now)
  {}

  lemma ScoreStep(b: Books, c: Call)
    requires c.ScoreMeeting?
    ensures var p := Fetched(b, c.seat);
      p.0.meetings == b.meetings
      && Step(b, c) == if !ValidScores(c.scores) then (b, InvalidScore)
                       else if c.seat.1 !in b.meetings then (b, NoMeeting)
                       else Rated(p.0, p.1, c.seat, c.scores)
  {}

  lemma RecachedKept(b: Books, l: Ledger, b': Books)
    requires Kept(b, l) && b' == b.(cached := b'.cached) && CacheKept(b'.cached, b.rows)
    ensures Kept(b', l)
  {}

  lemma SameTallies(meetings: map<int, Tally>, l: Ledger, l': Ledger)
    requires TalliesKept(meetings, l) && l'.votes == l.votes
    ensures TalliesKept(meetings, l')
  {
    assert forall m :: VotesOf(l', m) == VotesOf(l, m);
  }

  lemma PostedKeeps(b: Books, l: Ledger, seat: Seat, r: Record)
    requires Kept(b, l) && seat in b.rows && seat in b.cached
    requires !Contains(Itoa(r.exam), b.rows[seat].exams) && 0 <= r.correct <= r.total
    ensures var p := Posted(b, seat, r.exam, r.time, r.correct, r.total);
      p.1 == Recorded(r.correct, r.total) && Kept(p.0, WithRecord(l, seat, r))
  {
    var row, l' := b.rows[seat], WithRecord(l, seat, r);
    var el := AddedResource(Itoa(r.exam), AnswerText(r.time, r.correct, r.total), row.exams).0;
    NewAnswer(row.exams, row.correct, row.total, AnswersOf(l, seat), r);
    WithAnswerKeeps(b, l, seat, r, el);
  }

  lemma AnsweredRows(b: Books, l: Ledger, seat: Seat, r: Record, el: string)
    requires RowsAnswered(b.rows, l) && seat in b.rows
    requires ExamsKept(el, b.rows[seat].correct + r.correct, b.rows[seat].total + r.total, AnswersOf(l, seat) + [r])
    ensures RowsAnswered(WithAnswer(b, seat, el, r.correct, r.total).rows, WithRecord(l, seat, r))
  {
    var l' := WithRecord(l, seat, r);
    var rows := WithAnswer(b, seat, el, r.correct, r.total).rows;
    forall s | s in rows
      ensures ExamsKept(rows[s].exams, rows[s].correct, rows[s].total, AnswersOf(l', s))
    {
      if s != seat {
        assert AnswersOf(l', s) == AnswersOf(l, s) && rows[s] == b.rows[s];
      }
    }
  }

  lemma SameScored(rows: map<Seat, Row>, l: Ledger, rows': map<Seat, Row>, l': Ledger)
    requires RowsScored(rows, l) && l'.votes == l.votes && rows'.Keys == rows.Keys
    requires forall s :: s in rows' ==> rows'[s].scores == rows[s].scores
    ensures RowsScored(rows', l')
  {
    assert forall m :: VotesOf(l', m) == VotesOf(l, m);
  }

  lemma SameAnswered(rows: map<Seat, Row>, l: Ledger, rows': map<Seat, Row>, l': Ledger)
    requires RowsAnswered(rows, l) && l'.answers == l.answers && rows'.Keys == rows.Keys
    requires forall s :: s in rows' ==> rows'[s] == rows[s].(scores := rows'[s].scores)
    ensures RowsAnswered(rows', l')
  {
    assert forall s :: AnswersOf(l', s) == AnswersOf(l, s);
  }

  lemma ReplacedCacheKept(cached: map<Seat, Hash>, rows: map<Seat, Row>, seat: Seat, row: Row)
    requires CacheKept(cached, rows) && seat.0 <= EXPERIENCE
    ensures CacheKept(cached[seat := HashOf(row)], rows[seat := row])
  {}

  lemma AnsweredCache(b: Books, seat: Seat, el: string, correct: int, total: int)
    requires CacheKept(b.cached, b.rows) && seat.0 <= EXPERIENCE && seat in b.rows && seat in b.cached
    ensures var b' := WithAnswer(b, seat, el, correct, total); CacheKept(b'.cached, b'.rows)
  {
    var row := WithAnswer(b, seat, el, correct, total).rows[seat];
    ReplacedCacheKept(b.cached, b.rows, seat, row);
    assert b.cached[seat].(exams := el, correct := Itoa(row.correct), total := Itoa(row.total)) == HashOf(row);
  }

  lemma AnsweredScored(b: Books, l: Ledger, seat: Seat, r: Record, el: string)
    requires RowsScored(b.rows, l) && seat in b.rows
    ensures RowsScored(WithAnswer(b, seat, el, r.correct, r.total).rows, WithRecord(l, seat, r))
  {
    SameScored(b.rows, l, WithAnswer(b, seat, el, r.correct, r.total).rows, WithRecord(l, seat, r));
  }

  lemma WithAnswerKeeps(b: Books, l: Ledger, seat: Seat, r: Record, el: string)
    requires Kept(b, l) && seat in b.rows && seat in b.cached
    requires ExamsKept(el, b.rows[seat].correct + r.correct, b.rows[seat].total + r.total, AnswersOf(l, seat) + [r])
    ensures Kept(WithAnswer(b, seat, el, r.correct, r.total), WithRecord(l, seat, r))
  {
    SameTallies(b.meetings, l, WithRecord(l, seat, r));
    AnsweredRows(b, l, seat, r, el);
    AnsweredScored(b, l, seat, r, el);
    AnsweredCache(b, seat, el, r.correct, r.total);
  }

  lemma VotedTalliesKept(b: Books, l: Ledger, seat: Seat, scores: seq<int>)
    requires TalliesKept(b.meetings, l) && ValidScores(scores) && seat.0 <= EXPERIENCE
    requires seat.1 in b.meetings && GivenBy(VotesOf(l, seat.1), seat.0) == []
    ensures TalliesKept(WithScores(b, seat, scores).meetings, WithVote(l, seat.1, Vote(seat.0, scores)))
  {
    var vs, v := VotesOf(l, seat.1), Vote(seat.0, scores);
    var l' := WithVote(l, seat.1, v);
    var t := NextTally(b.meetings[seat.1], scores);
    NewVote(b.meetings[seat.1], vs, v);
    assert WithScores(b, seat, scores).meetings == b.meetings[seat.1 := t];
    forall m | m in b.meetings[seat.1 := t]
      ensures ScoresKept(b.meetings[seat.1 := t][m], VotesOf(l', m))
    {
      if m != seat.1 {
        assert VotesOf(l', m) == VotesOf(l, m);
      }
    }
  }

  lemma VotedCache(b: Books, seat: Seat, scores: seq<int>)
    requires CacheKept(b.cached, b.rows) && seat.0 <= EXPERIENCE && seat in b.cached && seat in b.rows && seat.1 in b.meetings
    ensures var b' := WithScores(b, seat, scores); CacheKept(b'.cached, b'.rows)
  {
    var row := b.rows[seat].(scores := IntsText(scores));
    ReplacedCacheKept(b.cached, b.rows, seat, row);
    assert HashOf(row) == b.cached[seat].(scores := IntsText(scores));
  }

  lemma VotedShown(b: Books, seat: Seat, scores: seq<int>)
    requires ShownKept(b.shown, b.meetings) && seat.1 in b.meetings
    ensures var b' := WithScores(b, seat, scores); ShownKept(b'.shown, b'.meetings)
  {}

  lemma ScoreKeeps(b: Books, l: Ledger, seat: Seat, scores: seq<int>)
    requires Kept(b, l) && ValidScores(scores) && seat.0 <= EXPERIENCE && seat in b.cached
    requires seat in b.rows && seat.1 in b.meetings && GivenBy(VotesOf(l, seat.1), seat.0) == []
    ensures Kept(WithScores(b, seat, scores), WithVote(l, seat.1, Vote(seat.0, scores)))
  {
    VotedTalliesKept(b, l, seat, scores);
    VotedRows(b, l, seat, scores);
    VotedCache(b, seat, scores);
    VotedShown(b, seat, scores);
    VotedAnswers(b, l, seat, scores);
  }

  lemma VotedAnswers(b: Books, l: Ledger, seat: Seat, scores: seq<int>)
    requires RowsAnswered(b.rows, l) && seat in b.rows && seat.1 in b.meetings
    ensures RowsAnswered(WithScores(b, seat, scores).rows, WithVote(l, seat.1, Vote(seat.0, scores)))
  {
    SameAnswered(b.rows, l, WithScores(b, seat, scores).rows, WithVote(l, seat.1, Vote(seat.0, scores)));
  }

  lemma VotedRows(b: Books, l: Ledger, seat: Seat, scores: seq<int>)
    requires RowsScored(b.rows, l) && seat in b.rows && seat.1 in b.meetings
    ensures RowsScored(WithScores(b, seat, scores).rows, WithVote(l, seat.1, Vote(seat.0, scores)))
  {
    var vs, v := VotesOf(l, seat.1), Vote(seat.0, scores);
    var l' := WithVote(l, seat.1, v);
    var rows := WithScores(b, seat, scores).rows;
    forall s | s in rows
      ensures s.0 <= EXPERIENCE && rows[s].scores == IntsText(GivenBy(VotesOf(l', s.1), s.0))
    {
      if s.1 == seat.1 {
        VotesSnoc(vs, v, s.0);
      } else {
        assert VotesOf(l', s.1) == VotesOf(l, s.1);
      }
    }
  }

  lemma GradedKeeps(b: Books, l: Ledger, c: Call, key: string)
    requires Kept(b, l) && c.AnswerExam? && c.seat in b.cached
    requires c.seat in b.rows ==> !Contains(Itoa(c.exam), b.rows[c.seat].exams)
    ensures var p := Graded(b, c.seat, c.exam, c.answer, key, c.now); Kept(p.0, Noted(l, c, p.1)) && p.1 != Dropped
  {
    if |c.answer| == |key| && |c.answer| % 2 == 0 && c.seat in b.rows {
      EqualPairsBound(c.answer, key);
      PostedKeeps(b, l, c.seat, Record(c.exam, c.now, EqualPairs(c.answer, key), |key| / 2));
      assert Graded(b, c.seat, c.exam, c.answer, key, c.now)
          == Posted(b, c.seat, c.exam, c.now, EqualPairs(c.answer, key), |key| / 2);
    }
  }

  lemma JudgedKeeps(b: Books, l: Ledger, c: Call, p: Option<Info>)
    requires Kept(b, l) && c.AnswerExam? && p == InfoOf(b.rows, l, c.seat) && (p.Some? ==> c.seat in b.cached)
    ensures var q := Judged(b, p, c.seat, c.exam, c.answer, c.now); Kept(q.0, Noted(l, c, q.1)) && q.1 != Dropped
  {
    if p.Some? && !Contains(Itoa(c.exam), p.value.exams) && c.exam in b.keys {
      GradedKeeps(b, l, c, b.keys[c.exam]);
    }
  }

  lemma AnsweredKeeps(b: Books, l: Ledger, c: Call)
    requires Kept(b, l) && c.AnswerExam?
    ensures var p := Step(b, c); Kept(p.0, Noted(l, c, p.1)) && p.1 != Dropped
  {
    var p := Fetched(b, c.seat);
    AnswerStep(b, c);
    FetchedKeeps(b, l, c.seat);
    RecachedKept(b, l, p.0);
    JudgedKeeps(p.0, l, c, p.1);
  }

  lemma RatedKeeps(b: Books, l: Ledger, c: Call, p: Option<Info>)
    requires Kept(b, l) && c.ScoreMeeting? && p == InfoOf(b.rows, l, c.seat) && (p.Some? ==> c.seat in b.cached)
    requires ValidScores(c.scores) && c.seat.1 in b.meetings
    ensures var q := Rated(b, p, c.seat, c.scores); Kept(q.0, Noted(l, c, q.1)) && q.1 != Dropped
  {
    if p.Some? && p.value.scores == [] && c.seat.0 <= EXPERIENCE {
      ScoreKeeps(b, l, c.seat, c.scores);
    }
  }

  lemma ScoringKeeps(b: Books, l: Ledger, c: Call)
    requires Kept(b, l) && c.ScoreMeeting?
    ensures var p := Step(b, c); Kept(p.0, Noted(l, c, p.1)) && p.1 != Dropped
  {
    var p := Fetched(b, c.seat);
    ScoreStep(b, c);
    FetchedKeeps(b, l, c.seat);
    RecachedKept(b, l, p.0);
    if ValidScores(c.scores) && c.seat.1 in b.meetings {
      RatedKeeps(p.0, l, c, p.1);
    }
  }

  /** One call: the books stay true to the ledger, and an accepted answer is never dropped. */
  lemma StepKeeps(b: Books, l: Ledger, c: Call)
    requires Kept(b, l)
    ensures var p := Step(b, c); Kept(p.0, Noted(l, c, p.1)) && p.1 != Dropped
  {
    match c
    case AnswerExam(_, _, _, _, _) => AnsweredKeeps(b, l, c);
    case ScoreMeeting(_, _) => ScoringKeeps(b, l, c);
    case Forget(_) =>
  }

  ghost predicate SameEntries(b: Books, b': Books, seat: Seat, meeting: int) {
    (seat in b.rows ==> seat in b'.rows) && (meeting in b.meetings ==> meeting in b'.meetings) && b'.keys == b.keys
  }

  lemma FetchedEntries(b: Books, s: Seat, seat: Seat, meeting: int)
    ensures SameEntries(b, Fetched(b, s).0, seat, meeting)
  {}

  lemma JudgedEntries(b: Books, p: Option<Info>, c: Call, seat: Seat, meeting: int)
    requires c.AnswerExam?
    ensures SameEntries(b, Judged(b, p, c.seat, c.exam, c.answer, c.now).0, seat, meeting)
  {}

  lemma RatedEntries(b: Books, p: Option<Info>, c: Call, seat: Seat, meeting: int)
    requires c.ScoreMeeting? && c.seat.1 in b.meetings
    ensures SameEntries(b, Rated(b, p, c.seat, c.scores).0, seat, meeting)
  {}

  /** No call removes a row or a meeting, or changes a key. */
  lemma StepKeepsEntries(b: Books, c: Call, seat: Seat, meeting: int)
    ensures SameEntries(b, Step(b, c).0, seat, meeting)
  {
    match c
    case AnswerExam(s, _, _, _, _) =>
      var p := Fetched(b, s);
      AnswerStep(b, c);
      FetchedEntries(b, s, seat, meeting);
      JudgedEntries(p.0, p.1, c, seat, meeting);
    case ScoreMeeting(s, scores) =>
      var p := Fetched(b, s);
      ScoreStep(b, c);
      FetchedEntries(b, s, seat, meeting);
      if ValidScores(scores) && s.1 in b.meetings {
        RatedEntries(p.0, p.1, c, seat, meeting);
      }
    case Forget(_) =>
  }

  // -------------------------------------------------------------------- the runs

  /** Nothing answered, scored or cached yet; rows for ordinary users only. */
  predicate Fresh(b: Books) {
    && (forall seat :: seat in b.rows ==> seat.0 <= EXPERIENCE && b.rows[seat] == Row("", 0, 0, ""))
    && (forall m :: m in b.meetings ==> b.meetings[m] == Tally("", 0))
    && b.cached == map[] && b.shown == map[]
  }

  lemma FreshIsKept(b: Books)
    requires Fresh(b)
    ensures Kept(b, Ledger(map[], map[]))
  {
    var l := Ledger(map[], map[]);
    assert AnswerPairs([]) == [];
    assert Ints([]) == [];
  }

  lemma {:induction false} EveryRun(b: Books, l: Ledger, calls: seq<Call>, seat: Seat, meeting: int)
    requires Kept(b, l)
    ensures var p := Run(b, l, calls);
      Kept(p.0, p.1) && (seat in b.rows ==> seat in p.0.rows) && (meeting in b.meetings ==> meeting in p.0.meetings)
    decreases |calls|
  {
    if calls != [] {
      var p := Step(b, calls[0]);
      StepKeeps(b, l, calls[0]);
      StepKeepsEntries(b, calls[0], seat, meeting);
      EveryRun(p.0, Noted(l, calls[0], p.1), calls[1..], seat, meeting);
    }
  }

  lemma {:induction false} CorrectWithinTotal(rs: seq<Record>)
    requires Proper(rs)
    ensures 0 <= Correct(rs) <= Total(rs)
  {
    if rs != [] {
      CorrectWithinTotal(Init(rs));
    }
  }

  predicate DifferentExams(rs: seq<Record>) {
    forall i, j :: 0 <= i < j < |rs| ==> rs[i].exam != rs[j].exam
  }

  lemma {:induction false} SatIsMembership(rs: seq<Record>, exam: int)
    ensures Sat(rs, exam) <==> exists i :: 0 <= i < |rs| && rs[i].exam == exam
  {
    if rs != [] {
      SatIsMembership(Init(rs), exam);
      assert forall i :: 0 <= i < |rs| - 1 ==> rs[i] == Init(rs)[i];
      assert rs[|rs| - 1] == Last(rs);
    }
  }

  /** The answers of a row are to different exams. */
  lemma {:induction false} ExamsDiffer(rs: seq<Record>)
    requires Proper(rs)
    ensures DifferentExams(rs)
  {
    if rs != [] {
      ExamsDiffer(Init(rs));
      SatIsMembership(Init(rs), Last(rs).exam);
      assert forall i :: 0 <= i < |rs| - 1 ==> rs[i] == Init(rs)[i];
    }
  }

  /** After any run from fresh books, for every row: the text is the map of the answers
      accepted, each exam once; the totals are their sums and correct is at most total; and
      the cached copy, if there is one, says the same. */
  lemma ExamTotals(b: Books, calls: seq<Call>, seat: Seat)
    requires Fresh(b) && seat in b.rows
    ensures var (b', l) := Run(b, Ledger(map[], map[]), calls);
      && seat in b'.rows
      && var rs, row := AnswersOf(l, seat), b'.rows[seat];
      && row.exams == MapText(AnswerPairs(rs)) && WellFormed(AnswerPairs(rs)) && DifferentExams(rs)
      && row.correct == Correct(rs) && row.total == Total(rs) && 0 <= row.correct <= row.total
      && (seat in b'.cached ==> b'.cached[seat] == HashOf(row))
  {
    FreshIsKept(b);
    EveryRun(b, Ledger(map[], map[]), calls, seat, 0);
    var (b', l) := Run(b, Ledger(map[], map[]), calls);
    CorrectWithinTotal(AnswersOf(l, seat));
    ExamsDiffer(AnswersOf(l, seat));
    AnswerPairsForm(AnswersOf(l, seat), 0);
  }

  /** An exam counts once: answered again, it is refused and the rows stay. */
  lemma AnsweredOnce(b: Books, l: Ledger, seat: Seat, exam: int, answer: string, offered: seq<string>, now: int)
    requires Kept(b, l) && seat in b.rows && Sat(AnswersOf(l, seat), exam)
    ensures var (b', o) := Step(b, AnswerExam(seat, exam, answer, offered, now));
      o in {NoExam, DuplicateAnswer} && b'.rows == b.rows
  {
    FetchedKeeps(b, l, seat);
    AnswerStep(b, AnswerExam(seat, exam, answer, offered, now));
    ContainsSat(AnswersOf(l, seat), exam);
  }

  lemma {:induction false} GivenByNone(vs: seq<Vote>, user: int)
    requires Votes(vs) && GivenBy(vs, user) == []
    ensures forall i :: 0 <= i < |vs| ==> vs[i].user != user
  {
    if vs != [] {
      GivenByNone(Init(vs), user);
      assert forall i :: 0 <= i < |vs| - 1 ==> vs[i] == Init(vs)[i];
    }
  }

  /** The votes of a meeting are those of different users, all valid. */
  lemma {:induction false} VotesDiffer(vs: seq<Vote>)
    requires Votes(vs)
    ensures forall i, j :: 0 <= i < j < |vs| ==> vs[i].user != vs[j].user
    ensures forall i :: 0 <= i < |vs| ==> ValidScores(vs[i].scores) && vs[i].user <= EXPERIENCE
  {
    if vs != [] {
      VotesDiffer(Init(vs));
      GivenByNone(Init(vs), Last(vs).user);
      assert vs == Init(vs) + [Last(vs)];
    }
  }

  // ------------------------------------------------------ what the score text means

  function SumAt(vs: seq<Vote>, i: nat): int {
    if vs == [] then 0 else SumAt(Init(vs), i) + At(Last(vs).scores, i)
  }

  function Longest(vs: seq<Vote>): nat {
    if vs == [] then 0
    else
      var n := Longest(Init(vs));
      if |Last(vs).scores| > n then |Last(vs).scores| else n
  }

  lemma {:induction false} SummedIsPointwise(vs: seq<Vote>, i: nat)
    ensures At(Summed(vs), i) == SumAt(vs, i) && |Summed(vs)| == Longest(vs)
  {
    if vs != [] {
      SummedIsPointwise(Init(vs), i);
    }
  }

  /** After any run from fresh books, for every meeting: the score text reads back as the
      pointwise sums, shorter vectors continued with zeros, of the vectors of distinct
      ordinary users; the count is their number; each sum is within five times it; and the
      cached copy says the same. */
  lemma ScoreTotals(b: Books, calls: seq<Call>, meeting: int, i: nat)
    requires Fresh(b) && meeting in b.meetings
    ensures var (b', l) := Run(b, Ledger(map[], map[]), calls);
      && meeting in b'.meetings
      && var vs, t := VotesOf(l, meeting), b'.meetings[meeting];
      && var ns := ParseInts(t.scores);
      && Votes(vs) && t.count == |vs| && |ns| == Longest(vs)
      && At(ns, i) == SumAt(vs, i) && 0 <= At(ns, i) <= 5 * t.count
      && (meeting in b'.shown ==> b'.shown[meeting] == (t.scores, Itoa(t.count)))
  {
    FreshIsKept(b);
    EveryRun(b, Ledger(map[], map[]), calls, (0, 0), meeting);
    var (b', l) := Run(b, Ledger(map[], map[]), calls);
    var vs := VotesOf(l, meeting);
    ParseIntsText(Summed(vs));
    SummedIsPointwise(vs, i);
    SummedBounds(vs);
  }

  /** A call that scores is recorded just when the scores are valid, the meeting is there and
      the user is an ordinary one with a row who has not scored it yet. */
  lemma ScoredWhen(b: Books, l: Ledger, seat: Seat, scores: seq<int>)
    requires Kept(b, l)
    ensures Step(b, ScoreMeeting(seat, scores)).1 == Scored <==>
            && ValidScores(scores) && seat.1 in b.meetings && seat in b.rows
            && GivenBy(VotesOf(l, seat.1), seat.0) == []
  {
    FetchedKeeps(b, l, seat);
  }

  /** An answer is recorded just when the exam is offered and has a key, the user has a row
      and no answer to it, and the text has the key's length, an even one. */
  lemma RecordedWhen(b: Books, l: Ledger, seat: Seat, exam: int, answer: string, offered: seq<string>, now: int)
    requires Kept(b, l)
    ensures var o := Step(b, AnswerExam(seat, exam, answer, offered, now)).1;
      && (o.Recorded? <==>
            && AnyPrefix(offered, Itoa(exam) + ":") && seat in b.rows && exam in b.keys
            && !Sat(AnswersOf(l, seat), exam)
            && |answer| == |b.keys[exam]| && |answer| % 2 == 0)
      && (o.Recorded? ==> o == Recorded(EqualPairs(answer, b.keys[exam]), |answer| / 2))
  {
    var c, p := AnswerExam(seat, exam, answer, offered, now), Fetched(b, seat);
    FetchedKeeps(b, l, seat);
    AnswerStep(b, c);
    if seat in b.rows {
      ContainsSat(AnswersOf(l, seat), exam);
      if exam in b.keys && !Sat(AnswersOf(l, seat), exam) {
        assert Step(b, c).1 != Dropped by { StepKeeps(b, l, c); }
      }
    }
  }
}
