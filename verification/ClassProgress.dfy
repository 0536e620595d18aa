/** How much of a class a user has done, in percent, counted from the cached lists. */
module ClassProgress {
  import opened Texts
  import opened StringLists
  import opened StringMaps

  /** What the cache says of one meeting and one user; a missing field is None. */
  datatype View = View(exams: Option<string>, examsDone: Option<string>, videos: Option<string>, videosDone: Option<string>)

  predicate TwoParts(item: string) {
    |Split(item, ':')| == 2
  }

  function Keys(items: seq<string>): set<string> {
    if items == [] then {}
    else if TwoParts(items[|items| - 1]) then Keys(items[..|items| - 1]) + {KeyOf(items[|items| - 1])}
    else Keys(items[..|items| - 1])
  }

  function Hits(items: seq<string>, ids: set<string>): nat {
    if items == [] then 0
    else if TwoParts(items[|items| - 1]) && KeyOf(items[|items| - 1]) in ids then Hits(items[..|items| - 1], ids) + 1
    else Hits(items[..|items| - 1], ids)
  }

  /** Every key of a progress text stands in it once. */
  predicate UniqueItems(items: seq<string>) {
    items == []
    || (UniqueItems(items[..|items| - 1])
        && (TwoParts(items[|items| - 1]) ==> KeyOf(items[|items| - 1]) !in Keys(items[..|items| - 1])))
  }

  function Ids(list: Option<string>): set<string> {
    if list.None? then {} else Keys(Split(list.value, ','))
  }

  /** Entries of the progress text that name something on the list. */
  function Done(list: Option<string>, progress: Option<string>): nat {
    if list.None? || progress.None? then 0 else Hits(Split(progress.value, ','), Ids(list))
  }

  /** Exams done, exams, videos done, videos. */
  datatype Counts = Counts(examCnt: nat, examTotal: nat, videoCnt: nat, videoTotal: nat)

  function CountsOf(v: View): Counts {
    Counts(Done(v.exams, v.examsDone), |Ids(v.exams)|, Done(v.videos, v.videosDone), |Ids(v.videos)|)
  }

  function Plus(c: Counts, d: Counts): Counts {
    Counts(c.examCnt + d.examCnt, c.examTotal + d.examTotal, c.videoCnt + d.videoCnt, c.videoTotal + d.videoTotal)
  }

  function Counted(views: seq<View>): Counts {
    if views == [] then Counts(0, 0, 0, 0) else Plus(Counted(views[..|views| - 1]), CountsOf(views[|views| - 1]))
  }

  function Percent(c: Counts): nat {
    if c.examTotal == 0 then
      if c.videoTotal == 0 then 0 else c.videoCnt * 100 / c.videoTotal
    else
      if c.videoTotal == 0 then c.examCnt * 100 / c.examTotal
      else c.examCnt * 20 / c.examTotal + c.videoCnt * 80 / c.videoTotal
  }

  function Overall(views: seq<View>): nat {
    Percent(Counted(views))
  }

  // ------------------------------------------------------------------ the loops

  lemma TakeNext(items: seq<string>, i: nat)
    requires i < |items|
    ensures items[..i + 1][..|items[..i + 1]| - 1] == items[..i] && items[..i + 1][|items[..i + 1]| - 1] == items[i]
  {}

  /** The entries of a list as a map. */
  method ListedIds(s: string) returns (m: map<string, string>)
    ensures m.Keys == Keys(Split(s, ','))
  {
    m := map[];
    var arr := Split(s, ',');
    for j := 0 to |arr|
      invariant m.Keys == Keys(arr[..j])
    {
      TakeNext(arr, j);
      var kvs := Split(arr[j], ':');
      if |kvs| != 2 {
        continue;
      }
      m := m[kvs[0] := kvs[1]];
    }
    assert arr[..|arr|] == arr;
  }

  method CountDone(s: string, ids: map<string, string>) returns (cnt: nat)
    ensures cnt == Hits(Split(s, ','), ids.Keys)
  {
    cnt := 0;
    var arr := Split(s, ',');
    for j := 0 to |arr|
      invariant cnt == Hits(arr[..j], ids.Keys)
    {
      TakeNext(arr, j);
      var kvs := Split(arr[j], ':');
      if |kvs| != 2 {
        continue;
      }
      if kvs[0] in ids {
        cnt := cnt + 1;
      }
    }
    assert arr[..|arr|] == arr;
  }

  /** How many ids a list has, and how many of them a user's progress text names. */
  method CountListed(list: string, meeting: int, user: int, progress: map<(int, int), string>)
    returns (cnt: nat, total: nat)
    ensures total == |Ids(Some(list))|
    ensures cnt == Done(Some(list), if (meeting, user) in progress then Some(progress[(meeting, user)]) else None)
  {
    var ids := ListedIds(list);
    total := |ids.Keys|;
    cnt := 0;
    if (meeting, user) in progress {
      cnt := CountDone(progress[(meeting, user)], ids);
    }
  }

  class Cache {
    var meetingLists: map<int, string>
    var examLists: map<int, string>
    var videoLists: map<int, string>
    var exams: map<(int, int), string>
    var videos: map<(int, int), string>

    constructor () {
      meetingLists, examLists, videoLists, exams, videos := map[], map[], map[], map[], map[];
    }

    ghost function ViewOf(meeting: int, user: int): View
      reads this
    {
      View(if meeting in examLists then Some(examLists[meeting]) else None,
           if (meeting, user) in exams then Some(exams[(meeting, user)]) else None,
           if meeting in videoLists then Some(videoLists[meeting]) else None,
           if (meeting, user) in videos then Some(videos[(meeting, user)]) else None)
    }

    ghost function Views(meetings: seq<int>, user: int): (r: seq<View>)
      reads this
      ensures |r| == |meetings| && forall i :: 0 <= i < |meetings| ==> r[i] == ViewOf(meetings[i], user)
    {
      if meetings == [] then [] else [ViewOf(meetings[0], user)] + Views(meetings[1..], user)
    }

    method CountMeeting(id: int, userID: int) returns (c: Counts)
      ensures c == CountsOf(ViewOf(id, userID))
    {
      var examCnt: nat, examTotal: nat, videoCnt: nat, videoTotal: nat := 0, 0, 0, 0;
      if id in examLists {
        examCnt, examTotal := CountListed(examLists[id], id, userID, exams);
      }
      if id in videoLists {
        videoCnt, videoTotal := CountListed(videoLists[id], id, userID, videos);
      }
      c := Counts(examCnt, examTotal, videoCnt, videoTotal);
    }

    method CountMeetings(meetingIDs: seq<int>, userID: int) returns (c: Counts)
      ensures c == Counted(Views(meetingIDs, userID))
    {
      c := Counts(0, 0, 0, 0);
      ghost var views := Views(meetingIDs, userID);
      for i := 0 to |meetingIDs|
        invariant c == Counted(views[..i])
      {
        assert views[..i + 1][..i] == views[..i];
        var d := CountMeeting(meetingIDs[i], userID);
        c := Plus(c, d);
      }
      assert views[..|meetingIDs|] == views;
    }

    /** A class whose meeting list is not cached counts as not begun. */
    method GetClassOverallProgress(classID: int, userID: int) returns (n: int)
      ensures n == if classID in meetingLists then Overall(Views(ParseInts(meetingLists[classID]), userID)) else 0
    {
      if classID !in meetingLists {
        return 0;
      }
      var meetingIDs := StringToIntArray(meetingLists[classID]);
      var c := CountMeetings(meetingIDs, userID);
      n := Percent(c);
    }
  }

  // ----------------------------------------------------------------- percentages

  lemma {:induction false} CancelFactor(p: nat, q: nat, t: nat)
    requires t * p < t * q + t
    ensures p <= q
  {
    if p > 0 {
      assert t * p == t * (p - 1) + t;
      if q > 0 {
        assert t * q == t * (q - 1) + t;
        CancelFactor(p - 1, q - 1, t);
      }
    }
  }

  lemma QuotientSpan(x: nat, t: nat)
    requires t > 0
    ensures x / t >= 0 && t * (x / t) <= x < t * (x / t) + t
  {
    assert x == t * (x / t) + x % t;
  }

  lemma QuotientExact(t: nat, k: nat)
    requires t > 0
    ensures t * k / t == k
  {
    QuotientSpan(t * k, t);
    CancelFactor(t * k / t, k, t);
    CancelFactor(k, t * k / t, t);
  }

  lemma QuotientMonotone(x: nat, y: nat, t: nat)
    requires x <= y && t > 0
    ensures 0 <= x / t <= y / t
  {
    QuotientSpan(x, t);
    QuotientSpan(y, t);
    CancelFactor(x / t, y / t, t);
  }

  lemma QuotientBelow(x: nat, t: nat, k: nat)
    requires t > 0 && k > 0 && x < t * k
    ensures x / t < k
  {
    QuotientSpan(x, t);
    assert t * k == t * (k - 1) + t;
    CancelFactor(x / t, k - 1, t);
  }

  lemma Scaled(c: nat, t: nat, k: nat)
    requires c <= t && t > 0 && k > 0
    ensures 0 <= c * k / t <= k && (c * k / t == k <==> c == t)
  {
    QuotientExact(t, k);
    if c < t {
      assert c * k < t * k;
      QuotientBelow(c * k, t, k);
    }
  }

  lemma ScaledMonotone(c: nat, d: nat, t: nat, k: nat)
    requires c <= d && t > 0
    ensures c * k / t <= d * k / t
  {
    assert c * k <= d * k;
    QuotientMonotone(c * k, d * k, t);
  }

  lemma PercentBounds(c: Counts)
    requires c.examCnt <= c.examTotal && c.videoCnt <= c.videoTotal
    ensures 0 <= Percent(c) <= 100
    ensures Percent(c) == 100 <==> c.examTotal + c.videoTotal > 0 && c.examCnt == c.examTotal && c.videoCnt == c.videoTotal
  {
    if c.examTotal > 0 {
      Scaled(c.examCnt, c.examTotal, 100);
      Scaled(c.examCnt, c.examTotal, 20);
    }
    if c.videoTotal > 0 {
      Scaled(c.videoCnt, c.videoTotal, 100);
      Scaled(c.videoCnt, c.videoTotal, 80);
    }
  }

  lemma PercentMonotone(c: Counts, d: Counts)
    requires c.examTotal == d.examTotal && c.videoTotal == d.videoTotal
    requires c.examCnt <= d.examCnt && c.videoCnt <= d.videoCnt
    ensures Percent(c) <= Percent(d)
  {
    if c.examTotal > 0 {
      ScaledMonotone(c.examCnt, d.examCnt, c.examTotal, 100);
      ScaledMonotone(c.examCnt, d.examCnt, c.examTotal, 20);
    }
    if c.videoTotal > 0 {
      ScaledMonotone(c.videoCnt, d.videoCnt, c.videoTotal, 100);
      ScaledMonotone(c.videoCnt, d.videoCnt, c.videoTotal, 80);
    }
  }

  // ---------------------------------------------------------------- what is counted

  /** With unique keys the entries counted are the ids on both texts. */
  lemma {:induction false} HitsAreCommonKeys(items: seq<string>, ids: set<string>)
    requires UniqueItems(items)
    ensures Hits(items, ids) == |Keys(items) * ids|
  {
    if items != [] {
      var init, item := items[..|items| - 1], items[|items| - 1];
      HitsAreCommonKeys(init, ids);
      if TwoParts(item) && KeyOf(item) in ids {
        assert Keys(items) * ids == (Keys(init) * ids) + {KeyOf(item)};
      } else {
        assert Keys(items) * ids == Keys(init) * ids;
      }
    }
  }

  lemma CommonBound(a: set<string>, ids: set<string>)
    ensures |a * ids| <= |ids| && (|a * ids| == |ids| <==> ids <= a)
  {
    SubsetSize(a * ids, ids);
    if |a * ids| == |ids| {
      assert a * ids == ids;
    }
    if ids <= a {
      assert a * ids == ids;
    }
  }

  lemma SubsetSize(x: set<string>, y: set<string>)
    requires x <= y
    ensures |x| <= |y| && (|x| == |y| ==> x == y)
  {
    assert y == x + (y - x);
    assert |y| == |x| + |y - x|;
  }

  predicate UniqueText(progress: Option<string>) {
    progress.Some? ==> UniqueItems(Split(progress.value, ','))
  }

  predicate Unique(views: seq<View>) {
    forall i :: 0 <= i < |views| ==> UniqueText(views[i].examsDone) && UniqueText(views[i].videosDone)
  }

  predicate AllDone(list: Option<string>, progress: Option<string>) {
    Ids(list) <= Ids(progress)
  }

  predicate Finished(views: seq<View>) {
    forall i :: 0 <= i < |views| ==>
      AllDone(views[i].exams, views[i].examsDone) && AllDone(views[i].videos, views[i].videosDone)
  }

  lemma DoneBound(list: Option<string>, progress: Option<string>)
    requires UniqueText(progress)
    ensures Done(list, progress) <= |Ids(list)|
    ensures Done(list, progress) == |Ids(list)| <==> AllDone(list, progress)
  {
    if progress.Some? {
      HitsAreCommonKeys(Split(progress.value, ','), Ids(list));
      CommonBound(Ids(progress), Ids(list));
    }
  }

  lemma {:induction false} CountsBound(views: seq<View>)
    requires Unique(views)
    ensures var c := Counted(views);
      && c.examCnt <= c.examTotal && c.videoCnt <= c.videoTotal
      && (c.examCnt == c.examTotal && c.videoCnt == c.videoTotal <==> Finished(views))
  {
    if views != [] {
      var init, v := views[..|views| - 1], views[|views| - 1];
      CountsBound(init);
      DoneBound(v.exams, v.examsDone);
      DoneBound(v.videos, v.videosDone);
      assert views == init + [v];
      FinishedSnoc(init, v);
    }
  }

  lemma FinishedSnoc(views: seq<View>, v: View)
    ensures Finished(views + [v]) <==> Finished(views) && AllDone(v.exams, v.examsDone) && AllDone(v.videos, v.videosDone)
  {
    var r := views + [v];
    assert r[|views|] == v;
    assert forall i :: 0 <= i < |views| ==> r[i] == views[i];
  }

  /** With unique keys the progress lies between 0 and 100, and is 100 just when there is an
      exam or a video and every one listed is done. */
  lemma ProgressBounds(views: seq<View>)
    requires Unique(views)
    ensures 0 <= Overall(views) <= 100
    ensures Overall(views) == 100 <==> Counted(views).examTotal + Counted(views).videoTotal > 0 && Finished(views)
  {
    CountsBound(views);
    PercentBounds(Counted(views));
  }

  // ------------------------------------------------------- when the bound can fail

  lemma {:induction false} KeyIsHit(items: seq<string>, k: string)
    requires k in Keys(items)
    ensures Hits(items, {k}) >= 1
  {
    var init, item := items[..|items| - 1], items[|items| - 1];
    if !(TwoParts(item) && KeyOf(item) == k) {
      KeyIsHit(init, k);
    }
  }

  /** A key that stands twice is hit twice by a list of this one id. */
  lemma {:induction false} RepeatedKeyHits(items: seq<string>) returns (k: string)
    requires !UniqueItems(items)
    ensures Hits(items, {k}) >= 2 && HasKey(items, k)
  {
    var init, item := items[..|items| - 1], items[|items| - 1];
    if UniqueItems(init) {
      k := KeyOf(item);
      KeyIsHit(init, k);
    } else {
      k := RepeatedKeyHits(init);
      var i :| 0 <= i < |init| && KeyOf(init[i]) == k;
      assert items[i] == init[i];
    }
  }

  lemma KeysAreWords(text: string, k: string)
    requires HasKey(Split(text, ','), k)
    ensures Word(k)
  {
    var items := Split(text, ',');
    var i :| 0 <= i < |items| && KeyOf(items[i]) == k;
    assert Free(items[i], ',') && Free(Split(items[i], ':')[0], ':');
    SplitKeepsFree(items[i], ':', ',');
  }

  lemma ListOfOne(k: string)
    requires Word(k)
    ensures Ids(Some(Entry(k, ""))) == {k}
  {
    var e := Entry(k, "");
    SplitEntry(k, "");
    SplitFree(e, ',');
    assert [e][..0] == [];
    assert Keys([e]) == {k};
  }

  /** A progress text counts at most what is listed, whatever the list, iff no key stands in
      it twice. */
  lemma BoundNeedsUniqueKeys(progress: Option<string>)
    ensures (forall list: Option<string> :: Done(list, progress) <= |Ids(list)|) <==> UniqueText(progress)
  {
    if UniqueText(progress) {
      forall list: Option<string>
        ensures Done(list, progress) <= |Ids(list)|
      {
        DoneBound(list, progress);
      }
    } else {
      var k := OverCounted(progress);
      assert Done(Some(Entry(k, "")), progress) > |Ids(Some(Entry(k, "")))|;
    }
  }

  lemma OverCounted(progress: Option<string>) returns (k: string)
    requires !UniqueText(progress)
    ensures |Ids(Some(Entry(k, "")))| == 1 && Done(Some(Entry(k, "")), progress) >= 2
  {
    k := RepeatedKeyHits(Split(progress.value, ','));
    KeysAreWords(progress.value, k);
    ListOfOne(k);
  }

  predicate Nothing(c: Counts) {
    c.examCnt == 0 && c.examTotal == 0 && c.videoCnt == 0 && c.videoTotal == 0
  }

  /** A view that lists nothing counts nothing. */
  function Blank(v: View): (r: View)
    ensures Nothing(CountsOf(r))
  {
    v.(exams := None, videos := None)
  }

  function AllBlankBut(views: seq<View>, i: nat, v: View): (r: seq<View>)
    requires i < |views|
    ensures |r| == |views| && r[i] == v && forall j :: 0 <= j < |views| && j != i ==> r[j] == Blank(views[j])
  {
    seq(|views|, j requires 0 <= j < |views| => if j == i then v else Blank(views[j]))
  }

  function Sum(cs: seq<Counts>): Counts {
    if cs == [] then Counts(0, 0, 0, 0) else Plus(Sum(cs[..|cs| - 1]), cs[|cs| - 1])
  }

  lemma {:induction false} CountedIsSum(views: seq<View>, cs: seq<Counts>)
    requires |cs| == |views| && forall j :: 0 <= j < |views| ==> cs[j] == CountsOf(views[j])
    ensures Counted(views) == Sum(cs)
  {
    if views != [] {
      CountedIsSum(views[..|views| - 1], cs[..|cs| - 1]);
    }
  }

  lemma {:induction false} NoExams(cs: seq<Counts>)
    requires forall j :: 0 <= j < |cs| ==> cs[j].examCnt == 0 && cs[j].examTotal == 0
    ensures Sum(cs).examCnt == 0 && Sum(cs).examTotal == 0
  {
    if cs != [] {
      NoExams(cs[..|cs| - 1]);
    }
  }

  lemma {:induction false} OnlyExams(cs: seq<Counts>, i: nat)
    requires i < |cs| && forall j :: 0 <= j < |cs| && j != i ==> cs[j].examCnt == 0 && cs[j].examTotal == 0
    ensures Sum(cs).examCnt == cs[i].examCnt && Sum(cs).examTotal == cs[i].examTotal
  {
    var init := cs[..|cs| - 1];
    if i == |cs| - 1 {
      NoExams(init);
    } else {
      OnlyExams(init, i);
    }
  }

  lemma {:induction false} NoVideos(cs: seq<Counts>)
    requires forall j :: 0 <= j < |cs| ==> cs[j].videoCnt == 0 && cs[j].videoTotal == 0
    ensures Sum(cs).videoCnt == 0 && Sum(cs).videoTotal == 0
  {
    if cs != [] {
      NoVideos(cs[..|cs| - 1]);
    }
  }

  lemma {:induction false} OnlyVideos(cs: seq<Counts>, i: nat)
    requires i < |cs| && forall j :: 0 <= j < |cs| && j != i ==> cs[j].videoCnt == 0 && cs[j].videoTotal == 0
    ensures Sum(cs).videoCnt == cs[i].videoCnt && Sum(cs).videoTotal == cs[i].videoTotal
  {
    var init := cs[..|cs| - 1];
    if i == |cs| - 1 {
      NoVideos(init);
    } else {
      OnlyVideos(init, i);
    }
  }

  /** Where only one view lists anything, the class counts what that one counts. */
  lemma OnlyCounts(views: seq<View>, i: nat)
    requires i < |views| && forall j :: 0 <= j < |views| && j != i ==> Nothing(CountsOf(views[j]))
    ensures Counted(views) == CountsOf(views[i])
  {
    var cs := seq(|views|, j requires 0 <= j < |views| => CountsOf(views[j]));
    CountedIsSum(views, cs);
    OnlyExams(cs, i);
    OnlyVideos(cs, i);
  }

  /** The same progress texts, with any lists. */
  predicate SameProgress(xs: seq<View>, ys: seq<View>) {
    |xs| == |ys| && forall i :: 0 <= i < |xs| ==>
      xs[i].examsDone == ys[i].examsDone && xs[i].videosDone == ys[i].videosDone
  }

  /** A progress text with a key twice makes one exam, or one video, at least two hundred
      percent of a class. */
  lemma RepeatedKeysExceed(views: seq<View>, i: nat) returns (ys: seq<View>)
    requires i < |views| && !(UniqueText(views[i].examsDone) && UniqueText(views[i].videosDone))
    ensures SameProgress(views, ys) && Overall(ys) >= 200
  {
    if !UniqueText(views[i].examsDone) {
      var k := OverCounted(views[i].examsDone);
      ys := AllBlankBut(views, i, Blank(views[i]).(exams := Some(Entry(k, ""))));
    } else {
      var k := OverCounted(views[i].videosDone);
      ys := AllBlankBut(views, i, Blank(views[i]).(videos := Some(Entry(k, ""))));
    }
    OnlyCounts(ys, i);
  }

  /** The progress stays within a hundred, whatever the lists, iff no progress text has a key
      twice. */
  lemma BoundedIffUnique(views: seq<View>)
    ensures (forall ys: seq<View> :: SameProgress(views, ys) ==> Overall(ys) <= 100) <==> Unique(views)
  {
    if Unique(views) {
      forall ys: seq<View> | SameProgress(views, ys)
        ensures Overall(ys) <= 100
      {
        ProgressBounds(ys);
      }
    } else {
      var i :| 0 <= i < |views| && !(UniqueText(views[i].examsDone) && UniqueText(views[i].videosDone));
      var ys := RepeatedKeysExceed(views, i);
      assert SameProgress(views, ys) && Overall(ys) > 100;
    }
  }

  // ------------------------------------------------------------------ one more done

  lemma {:induction false} KeysOfEntries(ps: Pairs)
    requires WellFormed(ps)
    ensures Keys(Entries(ps)) == Bindings(ps).Keys && UniqueItems(Entries(ps))
  {
    if ps != [] {
      var init, p := ps[..|ps| - 1], ps[|ps| - 1];
      assert ps == init + [p];
      InitWellFormed(init, p);
      KeysOfEntries(init);
      SplitEntry(p.0, p.1);
      assert Entries(ps)[..|ps| - 1] == Entries(init) && Entries(ps)[|ps| - 1] == Entry(p.0, p.1);
    }
  }

  lemma {:induction false} InitWellFormed(init: Pairs, p: (string, string))
    requires WellFormed(init + [p])
    ensures WellFormed(init) && Clean([p]) && p.0 !in Bindings(init)
    ensures Bindings(init + [p]) == Bindings(init)[p.0 := p.1]
    ensures Entries(init + [p]) == Entries(init) + [Entry(p.0, p.1)]
  {
    var ps := init + [p];
    assert forall i :: 0 <= i < |init| ==> ps[i] == init[i];
    assert ps[|init|] == p;
    if init == [] {
      assert ps == [p] && [p][1..] == [];
    } else {
      assert ps[1..] == init[1..] + [p];
      InitWellFormed(init[1..], p);
    }
  }

  /** On a well-formed map text the ids are its keys. */
  lemma MapIds(ps: Pairs)
    requires WellFormed(ps)
    ensures Ids(Some(MapText(ps))) == Bindings(ps).Keys && UniqueText(Some(MapText(ps)))
  {
    if ps == [] {
      assert Split("", ',') == [""] && Split("", ':') == [""];
      assert [""][..0] == [];
      assert Keys([""]) == {} && UniqueItems([]) && UniqueItems([""]);
    } else {
      ItemsOfText(ps);
      KeysOfEntries(ps);
    }
  }

  /** Marking something done, or done again, loses nothing that was done. */
  lemma DoneGrows(list: Option<string>, ps: Pairs, k: string, v: string)
    requires WellFormed(ps) && WellFormed(Put(ps, k, v)) && Bindings(Put(ps, k, v)) == Bindings(ps)[k := v]
    ensures UniqueText(Some(MapText(Put(ps, k, v))))
    ensures Done(list, Some(MapText(Put(ps, k, v))))
         == Done(list, Some(MapText(ps))) + if k in Ids(list) && k !in Bindings(ps) then 1 else 0
  {
    DoneOnMap(list, ps);
    DoneOnMap(list, Put(ps, k, v));
    KeysOfUpdate(Bindings(ps), k, v);
    CommonGrows(Bindings(ps).Keys, k, Ids(list));
  }

  lemma KeysOfUpdate(m: map<string, string>, k: string, v: string)
    ensures m[k := v].Keys == m.Keys + {k}
  {}

  lemma DoneOnMap(list: Option<string>, ps: Pairs)
    requires WellFormed(ps)
    ensures UniqueText(Some(MapText(ps)))
    ensures Done(list, Some(MapText(ps))) == |Bindings(ps).Keys * Ids(list)|
  {
    MapIds(ps);
    HitsAreCommonKeys(Split(MapText(ps), ','), Ids(list));
    if list.None? {
      assert Bindings(ps).Keys * {} == {};
    }
  }

  lemma CommonGrows(a: set<string>, k: string, ids: set<string>)
    ensures |(a + {k}) * ids| == |a * ids| + if k in ids && k !in a then 1 else 0
  {
    if k in ids && k !in a {
      assert (a + {k}) * ids == a * ids + {k};
    } else {
      assert (a + {k}) * ids == a * ids;
    }
  }

  predicate NoLess(x: View, y: View) {
    && x.exams == y.exams && x.videos == y.videos
    && Done(x.exams, x.examsDone) <= Done(y.exams, y.examsDone)
    && Done(x.videos, x.videosDone) <= Done(y.videos, y.videosDone)
  }

  lemma {:induction false} CountsGrow(xs: seq<View>, ys: seq<View>)
    requires |xs| == |ys| && forall i :: 0 <= i < |xs| ==> NoLess(xs[i], ys[i])
    ensures var c, d := Counted(xs), Counted(ys);
      c.examTotal == d.examTotal && c.videoTotal == d.videoTotal && c.examCnt <= d.examCnt && c.videoCnt <= d.videoCnt
  {
    if xs != [] {
      assert NoLess(xs[|xs| - 1], ys[|ys| - 1]);
      CountsGrow(xs[..|xs| - 1], ys[..|ys| - 1]);
    }
  }

  lemma ChangedView(views: seq<View>, i: nat, v: View)
    requires i < |views| && NoLess(views[i], v)
    ensures Overall(views[i := v]) >= Overall(views)
  {
    var ys := views[i := v];
    CountsGrow(views, ys);
    PercentMonotone(Counted(views), Counted(ys));
  }

  /** Marking one more exam or video done never lowers the progress, whether the cached field
      held a text or, before the first mark, was missing. */
  lemma ProgressNeverFalls(views: seq<View>, i: nat, ps: Pairs, k: string, v: string)
    requires i < |views| && WellFormed(ps) && k != "" && Word(k) && Word(v)
    ensures var after := Some(AddedResource(k, v, MapText(ps)).0);
      && (views[i].examsDone in {None, Some(MapText(ps))}
          ==> Overall(views[i := views[i].(examsDone := after)]) >= Overall(views))
      && (views[i].videosDone in {None, Some(MapText(ps))}
          ==> Overall(views[i := views[i].(videosDone := after)]) >= Overall(views))
  {
    RefinesFiniteMap(ps, k, v);
    var after := Some(MapText(Put(ps, k, v)));
    if views[i].examsDone in {None, Some(MapText(ps))} {
      DoneGrows(views[i].exams, ps, k, v);
      ChangedView(views, i, views[i].(examsDone := after));
    }
    if views[i].videosDone in {None, Some(MapText(ps))} {
      DoneGrows(views[i].videos, ps, k, v);
      ChangedView(views, i, views[i].(videosDone := after));
    }
  }
}
