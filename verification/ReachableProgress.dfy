/** The progress texts the services write have each key once, so the progress they lead to
    stays within a hundred. */
module ReachableProgress {
  import opened Texts
  import opened StringMaps
  import opened UrlEscape
  import MeetingBooks
  import opened ClassProgress

  const NO_LEDGER := MeetingBooks.Ledger(map[], map[])

  function After(b: MeetingBooks.Books, calls: seq<MeetingBooks.Call>): MeetingBooks.Books {
    MeetingBooks.Run(b, NO_LEDGER, calls).0
  }

  /** The exam field a user's progress in a meeting is cached with. */
  function ExamField(b: MeetingBooks.Books, user: int, meeting: int): Option<string> {
    if (user, meeting) in b.cached then Some(b.cached[(user, meeting)].exams) else None
  }

  lemma EmptyIsUnique()
    ensures UniqueText(Some(""))
  {
    MapIds([]);
  }

  /** After any run of answers, scores and lost cache entries, the exam text of every row and
      every cached copy, an experience user's too, has each exam once. */
  lemma ReachableExamTexts(b: MeetingBooks.Books, calls: seq<MeetingBooks.Call>, user: int, meeting: int)
    requires MeetingBooks.Fresh(b)
    ensures var after := After(b, calls);
      && UniqueText(ExamField(after, user, meeting))
      && ((user, meeting) in after.rows ==> UniqueText(Some(after.rows[(user, meeting)].exams)))
  {
    var seat := (user, meeting);
    MeetingBooks.FreshIsKept(b);
    MeetingBooks.EveryRun(b, NO_LEDGER, calls, seat, meeting);
    var (after, l) := MeetingBooks.Run(b, NO_LEDGER, calls);
    EmptyIsUnique();
    if seat in after.rows {
      var rs := MeetingBooks.AnswersOf(l, seat);
      MeetingBooks.AnswerPairsForm(rs, 0);
      MapIds(MeetingBooks.AnswerPairs(rs));
    }
  }

  /** A student's mark on a video, at a time. */
  datatype Mark = Mark(videoId: Bytes, time: int)

  /** SetVideoProgress: a blank id is no video of any meeting; any other id is added escaped. */
  function MarkCalls(marks: seq<Mark>): seq<MapCall> {
    if marks == [] then []
    else
      var key := EscapeForStr64(marks[0].videoId);
      (if key == "" then [] else [Add(key, "1_" + Itoa(marks[0].time))]) + MarkCalls(marks[1..])
  }

  /** A video text is grown from nothing by marks; None before the field is cached. */
  function VideoField(marks: Option<seq<Mark>>): Option<string> {
    if marks.None? then None else Some(RunText(MarkCalls(marks.value), ""))
  }

  lemma MarkIsWord(key: string, time: int)
    requires key != "" && Word(key)
    ensures WordsOnly(Add(key, "1_" + Itoa(time)))
  {
    ItoaFree(time, ',');
    ItoaFree(time, ':');
  }

  lemma {:induction false} MarksAreWords(marks: seq<Mark>)
    ensures forall i :: 0 <= i < |MarkCalls(marks)| ==> WordsOnly(MarkCalls(marks)[i])
  {
    if marks != [] {
      var key := EscapeForStr64(marks[0].videoId);
      MarksAreWords(marks[1..]);
      EscapedForStr64(marks[0].videoId);
      if key != "" {
        MarkIsWord(key, marks[0].time);
        assert MarkCalls(marks) == [Add(key, "1_" + Itoa(marks[0].time))] + MarkCalls(marks[1..]);
      } else {
        assert MarkCalls(marks) == MarkCalls(marks[1..]);
      }
    }
  }

  /** Whatever ids are marked, no key stands in a video text twice. */
  lemma ReachableVideoTexts(marks: Option<seq<Mark>>)
    ensures UniqueText(VideoField(marks))
  {
    if marks.Some? {
      var calls := MarkCalls(marks.value);
      MarksAreWords(marks.value);
      EveryRunIsAMap(calls, []);
      MapIds(RunPairs(calls, []));
    }
  }

  predicate Reached(views: seq<View>, after: MeetingBooks.Books, user: int, meetings: seq<int>,
                    marks: seq<Option<seq<Mark>>>) {
    && |meetings| == |marks| == |views|
    && forall i :: 0 <= i < |views| ==>
         && views[i].examsDone == ExamField(after, user, meetings[i])
         && views[i].videosDone == VideoField(marks[i])
  }

  /** Whatever a class's meetings list: after any run of answers and any marks of videos the
      overall progress of any user lies between 0 and 100, and is 100 just when there is an
      exam or a video and every one listed is done. */
  lemma ReachableProgressIsBounded(b: MeetingBooks.Books, calls: seq<MeetingBooks.Call>, user: int,
                                   meetings: seq<int>, marks: seq<Option<seq<Mark>>>, views: seq<View>)
    requires MeetingBooks.Fresh(b)
    ensures Reached(views, After(b, calls), user, meetings, marks) ==>
      && 0 <= Overall(views) <= 100
      && (Overall(views) == 100 <==>
            Counted(views).examTotal + Counted(views).videoTotal > 0 && Finished(views))
  {
    if Reached(views, After(b, calls), user, meetings, marks) {
      forall i | 0 <= i < |views|
        ensures UniqueText(views[i].examsDone) && UniqueText(views[i].videosDone)
      {
        ReachableExamTexts(b, calls, user, meetings[i]);
        ReachableVideoTexts(marks[i]);
      }
      ProgressBounds(views);
    }
  }
}
