/** What each step on a class row and its hash does, column by column. */
module HashEffects {
  import opened Texts
  import opened ClassCache
  import opened ClassHashRuns
  import opened ClassHashService
  import Lists = StringLists

  /** Every other class keeps its row and its hash. */
  ghost predicate OnlyThis(s: Store, s': Store, id: int) {
    && (forall x :: x != id ==> (x in s'.rows <==> x in s.rows) && (x in s'.cached <==> x in s.cached))
    && (forall x :: x != id && x in s.rows && x in s'.rows ==> s'.rows[x] == s.rows[x])
    && (forall x :: x != id && x in s.cached && x in s'.cached ==> s'.cached[x] == s.cached[x])
  }

  /** A hash that could be read is left; any other one, or none, becomes one that shows every
      column of the row and keeps what else it held. A class without a row stays without. */
  lemma ReadStep(s: Store, id: int)
    requires Kept(s)
    ensures var s' := Step(s, Get(id));
      && OnlyThis(s, s', id) && s'.rows == s.rows
      && (id !in s.rows || (id in s.cached && Readable(s.cached[id])) ==> s' == s)
      && (id in s.rows && !(id in s.cached && Readable(s.cached[id])) ==>
            && id in s'.cached && Shows(s'.cached[id], s.rows[id])
            && TextOrNone(s'.cached[id], Schedule) == TextOrNone(HashOf(s, id), Schedule))
  {
    if id in s.rows {
      WrittenShows(HashOf(s, id), s.rows[id]);
      WrittenKeeps(HashOf(s, id), s.rows[id]);
    } else if id in s.cached {
      ScrapIsUnreadable(s.cached[id], InitialRow());
    }
  }

  /** The row and the hash of a class after an update: the sixteen columns of the row, and of
      the hash, are those of base, and each has its own stamps and counter. */
  ghost predicate Becomes(s: Store, s': Store, id: int, base: Row, row: Side, hash: Side) {
    && OnlyThis(s, s', id)
    && id in s'.rows && s'.rows[id] == WithSide(base, row)
    && id in s'.cached && Shows(s'.cached[id], WithSide(base, hash))
  }

  lemma BaseBothWays(row: Row, base: Row, x: Side)
    requires SameBase(row, base)
    ensures row == WithSide(base, RowSide(row)) && WithSide(row, x) == WithSide(base, x)
  {}

  lemma WriteIsLocal(s: Store, id: int, u: Update)
    ensures OnlyThis(s, Step(s, Write(id, u)), id)
  {}

  /** What the hash of a class has for the loose columns once the class was read. */
  function SideRead(s: Store, id: int): Side
    requires id in s.rows
  {
    if id in s.cached && Readable(s.cached[id]) then HashSide(s.cached[id]) else RowSide(s.rows[id])
  }

  lemma UpdateBecomes(s: Store, id: int, u: Update, base: Row)
    requires Kept(s) && id in s.rows && Proper(u)
    requires SameBase(Edited(s.rows[id], RowEdits(s.rows[id], u)), base)
    ensures Becomes(s, Step(s, Write(id, u)), id, base, NextRow(RowSide(s.rows[id]), u), NextHash(SideRead(s, id), u))
  {
    FetchedKeeps(s, id);
    WriteIsLocal(s, id, u);
    WriteStepIs(s, id, u);
    WrittenBecomes(s, id, u, base, Fetched(s, id).0, Fetched(s, id).1.value);
  }

  lemma WrittenBecomes(s: Store, id: int, u: Update, base: Row, s1: Store, read: ClassInfo)
    requires id in s.rows && Proper(u) && id in s1.cached && s1.rows == s.rows
    requires Complete(s1.cached[id], s.rows[id]) && read.finished == HashSide(s1.cached[id]).count
    requires SideRead(s, id) == HashSide(s1.cached[id])
    requires SameBase(Edited(s.rows[id], RowEdits(s.rows[id], u)), base)
    ensures var (row, m) := (s.rows[id], s1.cached[id]);
      && Edited(row, RowEdits(row, u)) == WithSide(base, NextRow(RowSide(row), u))
      && Shows(Wrote(m, HashEdits(row, read, m, u)), WithSide(base, NextHash(SideRead(s, id), u)))
  {
    var row, m := s.rows[id], s1.cached[id];
    UpdateKeeps(row, read, m, u);
    BaseBothWays(Edited(row, RowEdits(row, u)), base, NextHash(HashSide(m), u));
    CompleteIsRead(Wrote(m, HashEdits(row, read, m, u)), Edited(row, RowEdits(row, u)), id);
  }

  // ------------------------------------------------------------ the four updates

  /** A change sets its columns and the stamps on both sides; the counters stay. */
  lemma ChangeStep(s: Store, id: int, edits: seq<Edit>, at: Stamp)
    requires Kept(s) && id in s.rows && Plain(edits)
    ensures Becomes(s, Step(s, Write(id, Change(edits, at))), id, Edited(s.rows[id], edits),
                    Side(at, s.rows[id].finished), Side(at, SideRead(s, id).count))
  {
    ChangeOnRow(s.rows[id], edits, at);
    PlainKeepsSide(s.rows[id], edits);
    UpdateBecomes(s, id, Change(edits, at), Edited(s.rows[id], edits));
  }

  /** The end of a meeting adds one to both counters and stamps both sides. */
  lemma EndMeetingStep(s: Store, id: int, at: Stamp)
    requires Kept(s) && id in s.rows
    ensures Becomes(s, Step(s, Write(id, EndMeeting(at))), id, s.rows[id],
                    Side(at, s.rows[id].finished + 1), Side(at, SideRead(s, id).count + 1))
  {
    EndOnRow(s.rows[id], s.rows[id].finished + 1, at);
    UpdateBecomes(s, id, EndMeeting(at), s.rows[id]);
  }

  function DroppedCount(n: int, ended: bool): int {
    if ended then n - 1 else n
  }

  function ClampedCount(n: int, ended: bool): int {
    if !ended then n else if n >= 1 then n - 1 else 0
  }

  lemma DroppedSides(x: Side, lists: seq<Edit>, ended: bool, at: Stamp)
    ensures NextRow(x, DropMeeting(lists, ended, at)) == Side(at, DroppedCount(x.count, ended))
    ensures NextHash(x, DropMeeting(lists, ended, at)) == Side(x.stamp, ClampedCount(x.count, ended))
  {}

  lemma DroppedBase(row: Row, lists: seq<Edit>, ended: bool, at: Stamp)
    requires Plain(lists)
    ensures SameBase(Edited(row, RowEdits(row, DropMeeting(lists, ended, at))), Edited(row, lists))
  {
    CountedAndMarked(row, lists, ended, row.finished - 1, at);
  }

  /** A deletion sets its lists on both sides and the stamps in the row alone; if the meeting
      had ended the row's counter goes down by one, and the hash's too, but not below zero. */
  lemma DropMeetingStep(s: Store, id: int, lists: seq<Edit>, ended: bool, at: Stamp)
    requires Kept(s) && id in s.rows && Plain(lists)
    ensures var x := SideRead(s, id);
      Becomes(s, Step(s, Write(id, DropMeeting(lists, ended, at))), id, Edited(s.rows[id], lists),
              Side(at, DroppedCount(s.rows[id].finished, ended)), Side(x.stamp, ClampedCount(x.count, ended)))
  {
    DroppedBase(s.rows[id], lists, ended, at);
    DroppedSides(RowSide(s.rows[id]), lists, ended, at);
    DroppedSides(SideRead(s, id), lists, ended, at);
    UpdateBecomes(s, id, DropMeeting(lists, ended, at), Edited(s.rows[id], lists));
  }

  /** A call that finds its list as it should be stamps the hash alone. */
  lemma StampHashStep(s: Store, id: int, fields: seq<Field>, at: Stamp)
    requires Kept(s) && id in s.rows && Proper(StampHash(fields, at))
    ensures var x := SideRead(s, id);
      Becomes(s, Step(s, Write(id, StampHash(fields, at))), id, s.rows[id], RowSide(s.rows[id]), Side(at, x.count))
  {
    UpdateBecomes(s, id, StampHash(fields, at), s.rows[id]);
  }

  /** An update of a class without a row only tries to read it. */
  lemma NoRowNoUpdate(s: Store, id: int, u: Update)
    requires id !in s.rows
    ensures Step(s, Write(id, u)) == Step(s, Get(id))
  {}

  predicate Untouched(edits: seq<Edit>, f: Field) {
    forall i :: 0 <= i < |edits| ==> edits[i].field != f
  }

  /** Edits leave every other column as it was. */
  lemma {:induction false} OtherColumnsKept(row: Row, edits: seq<Edit>, f: Field)
    requires AllFit(edits) && Untouched(edits, f)
    ensures TextColumn(Edited(row, edits), f) == TextColumn(row, f)
    ensures NumberColumn(Edited(row, edits), f) == NumberColumn(row, f)
    decreases |edits|
  {
    if edits != [] {
      assert edits[0].field != f;
      ColumnsAfterEdit(row, edits[0], f);
      OtherColumnsKept(EditRow(row, edits[0]), edits[1..], f);
    }
  }

  /** And an edited column has what its last edit says. */
  lemma LastEditStands(row: Row, before: seq<Edit>, e: Edit, after: seq<Edit>)
    requires AllFit(before + [e] + after) && Untouched(after, e.field)
    ensures var row' := Edited(row, before + [e] + after);
      && (e.TextEdit? ==> TextColumn(row', e.field) == Some(e.text))
      && (e.NumberEdit? ==> NumberColumn(row', e.field) == Some(e.number))
  {
    var all := before + [e] + after;
    assert all[|before|] == e;
    assert forall i :: 0 <= i < |after| ==> all[|before| + 1 + i] == after[i];
    EditedConcat(row, before + [e], after);
    EditedConcat(row, before, [e]);
    assert [e][1..] == [];
    var mid := Edited(row, before);
    assert Edited(mid, [e]) == EditRow(mid, e);
    ColumnsAfterEdit(mid, e, e.field);
    OtherColumnsKept(EditRow(mid, e), after, e.field);
  }

  // ---------------------------------------------------------- the other calls

  lemma TimesStep(s: Store, id: int, schedule: string, nextTime: string)
    requires Kept(s) && id in s.rows
    ensures var (s1, s') := (Step(s, Get(id)), Step(s, SetTimes(id, schedule, nextTime)));
      && s'.rows == s.rows && s'.cached.Keys == s1.cached.Keys
      && (forall x :: x in s1.cached && x != id ==> s'.cached[x] == s1.cached[x])
      && id in s'.cached && id in s1.cached
      && s'.cached[id] == s1.cached[id][Schedule := schedule][NextTime := nextTime]
  {
    FetchedKeeps(s, id);
  }

  lemma RewriteStep(s: Store, id: int, text: string)
    ensures var s' := Step(s, Rewrite(id, KeeperList, text));
      && OnlyThis(s, s', id)
      && s'.rows == (if id in s.rows then s.rows[id := s.rows[id].(keepers := text)] else s.rows)
      && s'.cached == s.cached[id := HashOf(s, id)[KeeperList := text]]
    ensures var s' := Step(s, Rewrite(id, MeetingList, text));
      && OnlyThis(s, s', id)
      && s'.rows == (if id in s.rows then s.rows[id := s.rows[id].(meetings := text)] else s.rows)
      && s'.cached == s.cached[id := HashOf(s, id)[MeetingList := text]]
  {}

  lemma FillStep(s: Store, id: int)
    requires id in s.rows
    ensures Step(s, Fill(id, MeetingList))
         == s.(cached := s.cached[id := HashOf(s, id)[MeetingList := s.rows[id].meetings]])
    ensures Step(s, Fill(id, PlatformData))
         == s.(cached := s.cached[id := HashOf(s, id)[PlatformData := s.rows[id].platformData]])
    ensures Step(s, Fill(id, PlatformID))
         == s.(cached := s.cached[id := HashOf(s, id)[PlatformID := Itoa(s.rows[id].platform)]])
  {}

  /** Loading all classes writes each row over its hash. */
  lemma PreloadStep(s: Store, id: int)
    ensures var s' := Step(s, Preload(id));
      && OnlyThis(s, s', id) && s'.rows == s.rows
      && (id in s.rows ==> id in s'.cached && Shows(s'.cached[id], s.rows[id]))
      && (id !in s.rows ==> s' == s)
  {
    if id in s.rows {
      WrittenShows(HashOf(s, id), s.rows[id]);
    }
  }

  lemma InsertStep(s: Store, id: int, row: Row)
    requires id !in s.rows
    ensures var s' := Step(s, Insert(id, row));
      && OnlyThis(s, s', id) && s'.rows == s.rows[id := row] && id in s'.cached && Shows(s'.cached[id], row)
  {
    WrittenShows(HashOf(s, id), row);
  }

  lemma GoneSteps(s: Store, id: int)
    ensures id in s.rows ==> Step(s, Delete(id)) == Store(s.rows - {id}, s.cached - {id})
    ensures id !in s.rows ==> Step(s, Delete(id)) == Step(s, Get(id))
    ensures Step(s, Lose(id)) == Store(s.rows, s.cached - {id})
  {}

  // ------------------------------------------------- which step a method takes

  /** A meeting of the class is ended where the class can be read and the meeting can end. */
  lemma EndingIs(s: Store, id: int, meeting: int, ends: bool, at: Stamp)
    ensures var read := Fetched(s, id).1;
      Ending(s, id, meeting, ends, at)
      == if read.Some? && meeting in read.value.meetings && ends then Write(id, EndMeeting(at)) else Get(id)
  {}

  /** A meeting on the class's list goes from it to the end of the deleted ones, unless the
      class has ended and the session is not the system's. */
  lemma DeletionIs(s: Store, id: int, meeting: int, endTime: Option<int>, system: bool, at: Stamp,
                   ms: seq<int>, ds: seq<int>)
    requires id in s.rows && s.rows[id].meetings == Lists.IntsText(ms) && s.rows[id].deleted == Lists.IntsText(ds)
    requires meeting in ms && meeting !in ds
    ensures var read := Fetched(s, id).1;
      Deletion(s, id, meeting, endTime, system, at)
      == if read.Some? && (system || read.value.endTime <= 0) && meeting in read.value.meetings && endTime.Some?
         then Write(id, DropMeeting([TextEdit(MeetingList, Lists.IntsText(Lists.Without(ms, meeting))),
                                     TextEdit(Deleted, Lists.IntsText(ds + [meeting]))], endTime.value > 0, at))
         else Get(id)
  {
    Lists.NumberListOperations(meeting, ms);
    Lists.NumberListOperations(meeting, ds);
  }

  /** A package joins the parents' list, or leaves it, on both sides; where it is there
      already, or is not there, the hash alone is stamped. */
  lemma LinkingIs(s: Store, child: int, parent: int, add: bool, at: Stamp, ps: seq<int>)
    requires child in s.rows && s.rows[child].parent == Lists.IntsText(ps)
    ensures Linking(s, child, parent, add, at)
         == if add == (parent in ps) then Write(child, StampHash([Parent], at))
            else if add then Write(child, Change([TextEdit(Parent, Lists.IntsText(ps + [parent]))], at))
            else Write(child, Change([TextEdit(Parent, Lists.IntsText(Lists.Without(ps, parent)))], at))
  {
    Lists.NumberListOperations(parent, ps);
  }
}
