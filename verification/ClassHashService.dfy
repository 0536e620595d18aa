/** The class service over rows and cached hashes: each method takes one step of a run. */
module ClassHashService {
  import opened Texts
  import Lists = StringLists
  import opened ClassCache
  import opened ClassHashRuns

  /** What the ending of a meeting comes to. */
  function Ending(s: Store, id: int, meeting: int, ends: bool, at: Stamp): HashCall {
    var read := Fetched(s, id).1;
    if read.None? || meeting !in read.value.meetings || !ends then Get(id)
    else Write(id, ClassHashRuns.EndMeeting(at))
  }

  /** How a row's lists, and so the class, change when a meeting is deleted. */
  function Moving(row: Row, meeting: int, ended: bool, at: Stamp): Update {
    var (ml, left) := Lists.Deleted(Itoa(meeting), row.meetings);
    var (dl, came) := Lists.Added(Itoa(meeting), row.deleted);
    if !left && !came then StampHash([MeetingList, Deleted], at)
    else ClassHashRuns.DropMeeting([TextEdit(MeetingList, ml), TextEdit(Deleted, dl)], ended, at)
  }

  /** What the deletion of a meeting comes to. The meeting's end time is None where it has no
      row of its own. */
  function Deletion(s: Store, id: int, meeting: int, endTime: Option<int>, system: bool, at: Stamp): HashCall {
    var read := Fetched(s, id).1;
    if id !in s.rows || read.None? || (!system && read.value.endTime > 0) || meeting !in read.value.meetings
       || endTime.None?
    then Get(id)
    else Write(id, Moving(s.rows[id], meeting, endTime.value > 0, at))
  }

  /** How a class changes when a parent is put on its list or taken off. */
  function Reparenting(row: Row, parent: int, add: bool, at: Stamp): Update {
    var (pl, changed) :=
      if add then Lists.Added(Itoa(parent), row.parent) else Lists.Deleted(Itoa(parent), row.parent);
    if changed then Change([TextEdit(Parent, pl)], at) else StampHash([Parent], at)
  }

  /** What the second transaction of a link comes to: the parent list of the child. */
  function Linking(s: Store, child: int, parent: int, add: bool, at: Stamp): HashCall {
    if child !in s.rows then Get(child) else Write(child, Reparenting(s.rows[child], parent, add, at))
  }

  /** A list that is left unchanged keeps its text. */
  lemma UnchangedText(x: string, l: string)
    ensures !Lists.Deleted(x, l).1 ==> Lists.Deleted(x, l).0 == l
    ensures !Lists.Added(x, l).1 ==> Lists.Added(x, l).0 == l
  {
    if l != "" && !Lists.Deleted(x, l).1 {
      Lists.WithoutAbsent(Split(l, ','), x);
      JoinSplit(l, ',');
    }
  }

  lemma {:induction false} PlainLeavesCount(m: Fields, edits: seq<Edit>)
    requires Plain(edits)
    ensures Finished in m <==> Finished in Wrote(m, edits)
    ensures Finished in m ==> Wrote(m, edits)[Finished] == m[Finished]
    decreases |edits|
  {
    if edits != [] {
      assert !IsLoose(edits[0].field);
      PlainLeavesCount(EditHash(m, edits[0]), edits[1..]);
    }
  }

  lemma CountWritten(m: Fields, n: int)
    ensures Wrote(m, Counting(n)) == m[Finished := Itoa(n)] && Itoa(0) == "0"
  {
    assert Counting(n)[1..] == [];
  }

  /** A hash that can be read has a row behind it, as in every state of a run. */
  predicate Backed(s: Store, id: int) {
    id in s.cached && Readable(s.cached[id]) ==> id in s.rows
  }

  lemma RunsAreBacked(rows: map<int, Row>, calls: seq<HashCall>, id: int)
    ensures Backed(Run(Store(rows, map[]), calls), id)
  {
    var s := Run(Store(rows, map[]), calls);
    RunRefines(Store(rows, map[]), calls, id);
    if id in s.cached && id !in s.rows {
      ScrapIsUnreadable(s.cached[id], InitialRow());
    }
  }

  lemma WrittenCount(m: Fields, row: Row)
    ensures Number(Written(m, row), Finished).Some?
  {
    WrittenShows(m, row);
    NumbersAreRead(Written(m, row), row);
    assert NumberColumn(row, Finished).Some?;
  }

  /** What a method needs of the class it has read. */
  lemma ReadClass(s: Store, id: int)
    requires Backed(s, id)
    ensures var (s', read) := Fetched(s, id);
      && s'.rows == s.rows && (read.Some? <==> id in s.rows)
      && (id in s.rows ==> id in s'.cached && Number(s'.cached[id], Finished).Some?)
  {
    if id in s.rows {
      WrittenCount(HashOf(s, id), s.rows[id]);
    }
  }

  lemma IsStep(s: Store, id: int, u: Update, s': Store)
    requires id in s.rows && Proper(u) && id in Fetched(s, id).0.cached && Fetched(s, id).1.Some?
    requires Fetched(s, id).0.rows == s.rows
    requires var (s1, read) := Fetched(s, id);
      var row, m := s.rows[id], s1.cached[id];
      && s'.rows == s.rows[id := Edited(row, RowEdits(row, u))]
      && s'.cached == s1.cached[id := Wrote(m, HashEdits(row, read.value, m, u))]
    ensures s' == Step(s, Write(id, u))
  {
    WriteStepIs(s, id, u);
  }

  lemma OwnOne(row: Row, f: Field)
    requires IsText(f)
    ensures Own(row, [f]) == [TextEdit(f, TextColumn(row, f).value)]
  {
    assert [f][1..] == [];
  }

  lemma OwnTwo(row: Row, f: Field, g: Field)
    requires IsText(f) && IsText(g)
    ensures Own(row, [f, g]) == [TextEdit(f, TextColumn(row, f).value), TextEdit(g, TextColumn(row, g).value)]
  {
    assert [f, g][1..] == [g];
    OwnOne(row, g);
  }

  class Service {
    var rows: map<int, Row>
    var cached: map<int, Fields>

    constructor (rows: map<int, Row>)
      ensures this.rows == rows && cached == map[]
    {
      this.rows, cached := rows, map[];
    }

    ghost function State(): Store
      reads this
    {
      Store(rows, cached)
    }

    /** From the cache if it can be read there; else from the row, which then is cached over
        whatever the hash held. */
    method GetClass(id: int) returns (ci: Option<ClassInfo>)
      modifies this
      ensures (State(), ci) == Fetched(old(State()), id)
    {
      if id in cached {
        ci := NewClassInfoFromMap(cached[id], id);
        if ci.Some? {
          return;
        }
      }
      if id !in rows {
        return None;
      }
      var row := rows[id];
      var m := WriteFields(if id in cached then cached[id] else map[], row);
      cached := cached[id := m];
      var subjects := Lists.StringToIntArray(row.subjects);
      var teachers := Lists.StringToIntArray(row.teachers);
      var students := Lists.StringToIntArray(row.students);
      var meetings := Lists.StringToIntArray(row.meetings);
      var deleted := Lists.StringToIntArray(row.deleted);
      var parent := Lists.StringToIntArray(row.parent);
      ci := Some(ClassInfo(
        id, row.name, subjects, teachers, row.keepers, students, meetings, deleted, row.finished, parent, row.group,
        row.course, row.template, row.platform, row.platformData, row.ally, row.startTime, row.endTime, "", 0,
        row.updateTime, row.updateIP, row.updater));
    }

    /** One field of a hash, made if need be. */
    method SetField(id: int, f: Field, text: string)
      modifies this`cached
      ensures cached == old(cached)[id := HashOf(old(State()), id)[f := text]]
    {
      cached := cached[id := (if id in cached then cached[id] else map[])[f := text]];
    }

    /** Fields of a hash, made if need be. */
    method SetFields(id: int, edits: seq<Edit>)
      requires edits != []
      modifies this`cached
      ensures cached == old(cached)[id := Wrote(HashOf(old(State()), id), edits)]
    {
      ghost var m := HashOf(State(), id);
      for i := 0 to |edits|
        invariant i == 0 ==> cached == old(cached)
        invariant cached == old(cached)[id := HashOf(State(), id)] || i == 0
        invariant Wrote(HashOf(State(), id), edits[i..]) == Wrote(m, edits)
      {
        match edits[i]
        case TextEdit(f, text) => SetField(id, f, text);
        case NumberEdit(f, n) => SetField(id, f, Itoa(n));
        assert edits[i..][1..] == edits[i + 1..];
      }
      assert edits[|edits|..] == [];
    }

    /** Columns of a row, if there is one. */
    method Exec(id: int, edits: seq<Edit>)
      modifies this`rows
      ensures rows == if id in old(rows) then old(rows)[id := Edited(old(rows)[id], edits)] else old(rows)
    {
      if id !in rows {
        return;
      }
      var row := rows[id];
      for i := 0 to |edits|
        invariant Edited(row, edits[i..]) == Edited(rows[id], edits)
      {
        row := EditRow(row, edits[i]);
        assert edits[i..][1..] == edits[i + 1..];
      }
      assert edits[|edits|..] == [];
      rows := rows[id := row];
    }

    /** The two writes of an ended meeting. */
    method CountEnded(id: int, read: ClassInfo, at: Stamp)
      requires id in rows && id in cached
      modifies this
      ensures var row, m := old(rows)[id], old(cached)[id];
        var u := ClassHashRuns.EndMeeting(at);
        && rows == old(rows)[id := Edited(row, RowEdits(row, u))]
        && cached == old(cached)[id := Wrote(m, HashEdits(row, read, m, u))]
    {
      Exec(id, Counting(rows[id].finished + 1) + Marks(at));
      SetFields(id, Counting(read.finished + 1) + Marks(at));
    }

    /** The finished meetings of a class, one more. */
    method EndMeeting(id: int, meeting: int, ends: bool, at: Stamp) returns (ok: bool)
      requires Backed(State(), id)
      modifies this
      ensures State() == Step(old(State()), Ending(old(State()), id, meeting, ends, at))
      ensures ok <==> Ending(old(State()), id, meeting, ends, at).Write?
    {
      ReadClass(State(), id);
      var ci := GetClass(id);
      if ci.None? || meeting !in ci.value.meetings || !ends {
        return false;
      }
      CountEnded(id, ci.value, at);
      IsStep(old(State()), id, ClassHashRuns.EndMeeting(at), State());
      return true;
    }

    /** Counts a field down, a missing one from zero; a text that is no number is left. */
    method DecrField(id: int, f: Field) returns (n: int)
      requires id in cached
      modifies this`cached
      ensures f in old(cached)[id] && Number(old(cached)[id], f).None? ==> n == 0 && cached == old(cached)
      ensures !(f in old(cached)[id] && Number(old(cached)[id], f).None?) ==>
        n == NumberOrZero(old(cached)[id], f) - 1 && cached == old(cached)[id := old(cached)[id][f := Itoa(n)]]
    {
      n := 0;
      if f in cached[id] {
        var v := Atoi(cached[id][f]);
        if v.None? {
          return;
        }
        n := v.value;
      }
      n := n - 1;
      SetField(id, f, Itoa(n));
    }

    /** The counter of a hash counted down, but not below zero. */
    method CountDown(id: int)
      requires id in cached && Number(cached[id], Finished).Some?
      modifies this`cached
      ensures var m := old(cached)[id];
        cached == old(cached)[id := Wrote(m, Counting(AtLeastZero(NumberOrZero(m, Finished) - 1)))]
    {
      ghost var m := cached[id];
      var n := DecrField(id, Finished);
      CountWritten(m, n);
      CountWritten(m, 0);
      if n < 0 {
        SetField(id, Finished, "0");
        assert m[Finished := Itoa(n)][Finished := "0"] == m[Finished := "0"];
      }
    }

    /** The lists of a class, and its counter if the meeting had ended. The stamps go to the
        row alone. */
    method DropMeeting(id: int, lists: seq<Edit>, ended: bool, at: Stamp)
      requires Plain(lists) && lists != []
      requires id in rows && id in cached && Number(cached[id], Finished).Some?
      modifies this
      ensures var row, m := old(rows)[id], old(cached)[id];
        && rows == old(rows)[id := Edited(row, RowEdits(row, ClassHashRuns.DropMeeting(lists, ended, at)))]
        && cached == old(cached)[id := Wrote(m, lists + MaybeCounting(ended, AtLeastZero(NumberOrZero(m, Finished) - 1)))]
    {
      ghost var m := cached[id];
      var counted := [];
      if ended {
        counted := Counting(rows[id].finished - 1);
      }
      Exec(id, lists + counted + Marks(at));
      SetFields(id, lists);
      PlainLeavesCount(m, lists);
      WroteConcat(m, lists, MaybeCounting(ended, AtLeastZero(NumberOrZero(m, Finished) - 1)));
      if ended {
        CountDown(id);
      }
    }

    /** The transaction of a deletion. */
    method MoveMeeting(id: int, meeting: int, ended: bool, at: Stamp, ghost read: ClassInfo)
      requires id in rows && id in cached && Number(cached[id], Finished).Some?
      modifies this
      ensures var row, m := old(rows)[id], old(cached)[id];
        var u := Moving(row, meeting, ended, at);
        && Proper(u)
        && rows == old(rows)[id := Edited(row, RowEdits(row, u))]
        && cached == old(cached)[id := Wrote(m, HashEdits(row, read, m, u))]
    {
      var ml, left := Lists.DeleteFromList(Itoa(meeting), rows[id].meetings);
      var dl, came := Lists.AddToList(Itoa(meeting), rows[id].deleted);
      var lists := [TextEdit(MeetingList, ml), TextEdit(Deleted, dl)];
      if !left && !came {
        UnchangedText(Itoa(meeting), rows[id].meetings);
        UnchangedText(Itoa(meeting), rows[id].deleted);
        OwnTwo(rows[id], MeetingList, Deleted);
        SetFields(id, lists + Marks(at));
        assert rows[id := rows[id]] == rows;
      } else {
        DropMeeting(id, lists, ended, at);
      }
    }

    method DeleteMeeting(id: int, meeting: int, endTime: Option<int>, system: bool, at: Stamp) returns (ok: bool)
      requires Backed(State(), id)
      modifies this
      ensures State() == Step(old(State()), Deletion(old(State()), id, meeting, endTime, system, at))
      ensures ok <==> Deletion(old(State()), id, meeting, endTime, system, at).Write?
    {
      ReadClass(State(), id);
      var ci := GetClass(id);
      if ci.None? || (!system && ci.value.endTime > 0) || meeting !in ci.value.meetings || endTime.None? {
        return false;
      }
      ghost var u := Moving(rows[id], meeting, endTime.value > 0, at);
      MoveMeeting(id, meeting, endTime.value > 0, at, ci.value);
      IsStep(old(State()), id, u, State());
      return true;
    }

    /** The transaction on a child's list of parents. */
    method MoveParent(child: int, parent: int, add: bool, at: Stamp, ghost read: ClassInfo)
      requires child in rows && child in cached
      modifies this
      ensures var row, m := old(rows)[child], old(cached)[child];
        var u := Reparenting(row, parent, add, at);
        && Proper(u)
        && rows == old(rows)[child := Edited(row, RowEdits(row, u))]
        && cached == old(cached)[child := Wrote(m, HashEdits(row, read, m, u))]
    {
      var pl, changed := "", false;
      if add {
        pl, changed := Lists.AddToList(Itoa(parent), rows[child].parent);
      } else {
        pl, changed := Lists.DeleteFromList(Itoa(parent), rows[child].parent);
      }
      if changed {
        Exec(child, [TextEdit(Parent, pl)] + Marks(at));
      } else {
        UnchangedText(Itoa(parent), rows[child].parent);
        OwnOne(rows[child], Parent);
        assert rows[child := rows[child]] == rows;
      }
      SetFields(child, [TextEdit(Parent, pl)] + Marks(at));
    }

    /** A package put on, or taken off, a class's list of parents. */
    method ChangeParent(child: int, parent: int, add: bool, at: Stamp) returns (ok: bool)
      requires Backed(State(), child)
      modifies this
      ensures State() == Step(old(State()), Linking(old(State()), child, parent, add, at))
      ensures ok <==> child in old(rows)
    {
      ReadClass(State(), child);
      var ci := GetClass(child);
      if ci.None? {
        return false;
      }
      ghost var u := Reparenting(rows[child], parent, add, at);
      MoveParent(child, parent, add, at, ci.value);
      IsStep(old(State()), child, u, State());
      return true;
    }

    /** The keepers, written without a look at the class. */
    method RefreshKeeperList(id: int, keepers: string)
      modifies this
      ensures State() == Step(old(State()), Rewrite(id, KeeperList, keepers))
    {
      if id in rows {
        rows := rows[id := rows[id].(keepers := keepers)];
      }
      SetField(id, KeeperList, keepers);
    }

    /** The meetings' text from the hash, or from the row, which fills the one field. */
    method GetMeetingList(id: int) returns (ml: Option<string>)
      modifies this
      ensures var m := HashOf(old(State()), id);
        if MeetingList in m then ml == Some(m[MeetingList]) && State() == old(State())
        else
          && ml == (if id in old(rows) then Some(old(rows)[id].meetings) else None)
          && State() == Step(old(State()), Fill(id, MeetingList))
    {
      if id in cached && MeetingList in cached[id] {
        return Some(cached[id][MeetingList]);
      }
      if id !in rows {
        return None;
      }
      SetField(id, MeetingList, rows[id].meetings);
      return Some(rows[id].meetings);
    }
  }

  /** A class read when it is not cached, and read again from the cache that filled. */
  method ReadTwice(service: Service, id: int) returns (first: Option<ClassInfo>, second: Option<ClassInfo>)
    requires id !in service.cached && id in service.rows
    modifies service
    ensures first == second == Some(InfoOf(old(service.rows[id]), id))
  {
    first := service.GetClass(id);
    WrittenShows(map[], service.rows[id]);
    WrittenKeeps(map[], service.rows[id]);
    SecondReadAgrees(map[], service.cached[id], service.rows[id], id);
    second := service.GetClass(id);
  }
}
