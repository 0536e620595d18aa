/** The overall progress in numbers. */
module ProgressAnswers {
  import opened Texts
  import opened ClassProgress

  function ExamsListed(views: seq<View>): nat {
    if views == [] then 0 else ExamsListed(views[..|views| - 1]) + |Ids(views[|views| - 1].exams)|
  }

  function ExamsDone(views: seq<View>): nat {
    if views == [] then 0
    else ExamsDone(views[..|views| - 1]) + Done(views[|views| - 1].exams, views[|views| - 1].examsDone)
  }

  function VideosListed(views: seq<View>): nat {
    if views == [] then 0 else VideosListed(views[..|views| - 1]) + |Ids(views[|views| - 1].videos)|
  }

  function VideosDone(views: seq<View>): nat {
    if views == [] then 0
    else VideosDone(views[..|views| - 1]) + Done(views[|views| - 1].videos, views[|views| - 1].videosDone)
  }

  lemma {:induction false} CountedAre(views: seq<View>)
    ensures Counted(views) == Counts(ExamsDone(views), ExamsListed(views), VideosDone(views), VideosListed(views))
  {
    if views != [] {
      CountedAre(views[..|views| - 1]);
    }
  }

  /** q is the whole part of share * done / listed. */
  predicate WholePart(q: nat, share: nat, done: nat, listed: nat) {
    q * listed <= share * done < (q + 1) * listed
  }

  lemma QuotientIsWholePart(share: nat, done: nat, listed: nat) returns (q: nat)
    requires listed > 0
    ensures q == done * share / listed && WholePart(q, share, done, listed)
  {
    q := done * share / listed;
    QuotientSpan(done * share, listed);
    assert (q + 1) * listed == listed * q + listed;
  }

  /** Exams weigh twenty and videos eighty in a class that has both, and a hundred where it has
      one kind only; each share is rounded down for itself. */
  lemma OverallIs(views: seq<View>) returns (e: nat, v: nat)
    ensures Overall(views) == e + v
    ensures if ExamsListed(views) == 0 then e == 0
            else WholePart(e, if VideosListed(views) > 0 then 20 else 100, ExamsDone(views), ExamsListed(views))
    ensures if VideosListed(views) == 0 then v == 0
            else WholePart(v, if ExamsListed(views) > 0 then 80 else 100, VideosDone(views), VideosListed(views))
  {
    CountedAre(views);
    var et, vt := ExamsListed(views), VideosListed(views);
    e, v := 0, 0;
    if et > 0 && vt > 0 {
      e := QuotientIsWholePart(20, ExamsDone(views), et);
      v := QuotientIsWholePart(80, VideosDone(views), vt);
    } else if et > 0 {
      e := QuotientIsWholePart(100, ExamsDone(views), et);
    } else if vt > 0 {
      v := QuotientIsWholePart(100, VideosDone(views), vt);
    }
  }

  lemma AllOverAll(t: nat, share: nat)
    requires t > 0
    ensures t * share / t == share && 0 * share / t == 0
  {
    QuotientExact(t, share);
    assert 0 * share == 0;
  }

  lemma PercentEnds(t: nat, u: nat)
    requires t > 0 && u > 0
    ensures Percent(Counts(t, t, 0, u)) == 20 && Percent(Counts(0, t, u, u)) == 80
  {
    AllOverAll(t, 20);
    AllOverAll(u, 80);
  }

  /** A class with both kinds: all its exams and no video are 20, all its videos and no exam
      are 80. */
  lemma OneKindDone(views: seq<View>)
    requires ExamsListed(views) > 0 && VideosListed(views) > 0
    ensures ExamsDone(views) == ExamsListed(views) && VideosDone(views) == 0 ==> Overall(views) == 20
    ensures ExamsDone(views) == 0 && VideosDone(views) == VideosListed(views) ==> Overall(views) == 80
  {
    CountedAre(views);
    PercentEnds(ExamsListed(views), VideosListed(views));
  }

  lemma PairSplits(k: string, v: string)
    requires Free(k, ',') && Free(k, ':') && Free(v, ',') && Free(v, ':')
    ensures Split(k + ":" + v, ',') == [k + ":" + v] && Split(k + ":" + v, ':') == [k, v]
  {
    SplitFree(k + ":" + v, ',');
    SplitAtSep(k, v, ':');
    SplitFree(v, ':');
  }

  lemma PairIds(k: string, v: string)
    requires Free(k, ',') && Free(k, ':') && Free(v, ',') && Free(v, ':')
    ensures Ids(Some(k + ":" + v)) == {k}
    ensures Done(Some(k + ":" + v), None) == 0
  {
    var text := k + ":" + v;
    PairSplits(k, v);
    assert [text][..0] == [];
    assert Keys([text]) == Keys([]) + {k};
  }

  lemma PairDone(k: string, v: string, w: string)
    requires Free(k, ',') && Free(k, ':') && Free(v, ',') && Free(v, ':') && Free(w, ',') && Free(w, ':')
    ensures Done(Some(k + ":" + v), Some(k + ":" + w)) == 1
  {
    var text := k + ":" + w;
    PairIds(k, v);
    PairSplits(k, w);
    assert [text][..0] == [];
    assert Hits([text], {k}) == Hits([], {k}) + 1;
  }

  lemma OneView(v: View)
    ensures ExamsListed([v]) == |Ids(v.exams)| && ExamsDone([v]) == Done(v.exams, v.examsDone)
    ensures VideosListed([v]) == |Ids(v.videos)| && VideosDone([v]) == Done(v.videos, v.videosDone)
  {
    assert [v][..0] == [];
  }

  /** One meeting with one exam and one video: the exam done is 20, the video done is 80. */
  lemma OneOfEach(exam: string, video: string, x: string, y: string)
    requires Free(exam, ',') && Free(exam, ':') && Free(video, ',') && Free(video, ':')
    requires Free(x, ',') && Free(x, ':') && Free(y, ',') && Free(y, ':')
    ensures Overall([View(Some(exam + ":" + x), Some(exam + ":" + y), Some(video + ":" + x), None)]) == 20
    ensures Overall([View(Some(exam + ":" + x), None, Some(video + ":" + x), Some(video + ":" + y))]) == 80
  {
    PairIds(exam, x);
    PairIds(video, x);
    PairDone(exam, x, y);
    PairDone(video, x, y);
    var e, v := View(Some(exam + ":" + x), Some(exam + ":" + y), Some(video + ":" + x), None),
                View(Some(exam + ":" + x), None, Some(video + ":" + x), Some(video + ":" + y));
    OneView(e);
    OneView(v);
    OneKindDone([e]);
    OneKindDone([v]);
  }

  /** An item of two parts adds its first part to the keys, and counts if that part is listed;
      any other item does neither. */
  lemma ItemCounts(items: seq<string>, item: string, ids: set<string>)
    ensures var parts := Split(item, ':');
      && Keys(items + [item]) == Keys(items) + (if |parts| == 2 then {parts[0]} else {})
      && Hits(items + [item], ids) == Hits(items, ids) + (if |parts| == 2 && parts[0] in ids then 1 else 0)
      && Keys([]) == {} && Hits([], ids) == 0
  {
    assert (items + [item])[..|items|] == items;
  }

  /** What the progress of a meeting is counted from: the meeting's two lists and the user's
      two texts in it. Where a list is not cached nothing is listed and nothing done. */
  lemma ViewIs(cache: Cache, meeting: int, user: int)
    ensures var v := cache.ViewOf(meeting, user);
      && (if meeting in cache.examLists then v.exams == Some(cache.examLists[meeting]) else Ids(v.exams) == {})
      && (if meeting in cache.videoLists then v.videos == Some(cache.videoLists[meeting]) else Ids(v.videos) == {})
      && ((meeting, user) in cache.exams ==> v.examsDone == Some(cache.exams[(meeting, user)]))
      && ((meeting, user) in cache.videos ==> v.videosDone == Some(cache.videos[(meeting, user)]))
      && ((meeting, user) !in cache.exams ==> Done(v.exams, v.examsDone) == 0)
      && ((meeting, user) !in cache.videos ==> Done(v.videos, v.videosDone) == 0)
  {}
}
