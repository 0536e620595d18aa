/** Runs over class rows and their cached hashes, field by field. Sixteen columns are written
    to the row and to the hash alike; the counter of finished meetings and the three stamps
    of the last change are not, and a small machine tells what becomes of them. */
module ClassHashRuns {
  import opened Texts
  import opened ClassCache

  predicate IsText(f: Field) {
    f.Name? || f.SubjectList? || f.TeacherList? || f.KeeperList? || f.StudentList? || f.MeetingList? || f.Deleted?
    || f.Parent? || f.PlatformData? || f.UpdateIP?
  }

  predicate IsNumber(f: Field) {
    !IsText(f) && !f.Schedule? && !f.NextTime?
  }

  /** The columns that some call writes on one side only. */
  predicate IsLoose(f: Field) {
    f.Finished? || f.UpdateTime? || f.UpdateIP? || f.Updater?
  }

  /** Columns that some reader fills into a hash without reading the class. */
  predicate IsFillable(f: Field) {
    f.MeetingList? || f.PlatformID? || f.PlatformData?
  }

  /** Columns that some call writes to row and hash without reading the class. */
  predicate IsRewritten(f: Field) {
    f.KeeperList? || f.MeetingList?
  }

  lemma Kinds(row: Row, f: Field)
    ensures TextColumn(row, f).Some? <==> IsText(f)
    ensures NumberColumn(row, f).Some? <==> IsNumber(f)
  {}

  // --------------------------------------------------------------------- edits

  /** A column given a new text or number. */
  datatype Edit = TextEdit(field: Field, text: string) | NumberEdit(field: Field, number: int)

  /** Who changed the class last, when, and from where. */
  datatype Stamp = Stamp(updater: int, time: int, ip: string)

  predicate Fits(e: Edit) {
    match e
    case TextEdit(f, _) => IsText(f)
    case NumberEdit(f, _) => IsNumber(f)
  }

  predicate AllFit(edits: seq<Edit>) {
    forall i :: 0 <= i < |edits| ==> Fits(edits[i])
  }

  /** Edits of the sixteen columns. */
  predicate Plain(edits: seq<Edit>) {
    AllFit(edits) && forall i :: 0 <= i < |edits| ==> !IsLoose(edits[i].field)
  }

  function EditRow(row: Row, e: Edit): Row {
    match e
    case TextEdit(f, text) =>
      (match f
       case Name => row.(name := text)
       case SubjectList => row.(subjects := text)
       case TeacherList => row.(teachers := text)
       case KeeperList => row.(keepers := text)
       case StudentList => row.(students := text)
       case MeetingList => row.(meetings := text)
       case Deleted => row.(deleted := text)
       case Parent => row.(parent := text)
       case PlatformData => row.(platformData := text)
       case UpdateIP => row.(updateIP := text)
       case _ => row)
    case NumberEdit(f, n) =>
      (match f
       case Finished => row.(finished := n)
       case GroupID => row.(group := n)
       case CourseID => row.(course := n)
       case Template => row.(template := n)
       case PlatformID => row.(platform := n)
       case Ally => row.(ally := n)
       case StartTime => row.(startTime := n)
       case EndTime => row.(endTime := n)
       case UpdateTime => row.(updateTime := n)
       case Updater => row.(updater := n)
       case _ => row)
  }

  function EditHash(m: Fields, e: Edit): Fields {
    match e
    case TextEdit(f, text) => m[f := text]
    case NumberEdit(f, n) => m[f := Itoa(n)]
  }

  function Edited(row: Row, edits: seq<Edit>): Row
    decreases |edits|
  {
    if edits == [] then row else Edited(EditRow(row, edits[0]), edits[1..])
  }

  function Wrote(m: Fields, edits: seq<Edit>): Fields
    decreases |edits|
  {
    if edits == [] then m else Wrote(EditHash(m, edits[0]), edits[1..])
  }

  function Marks(at: Stamp): seq<Edit> {
    [NumberEdit(Updater, at.updater), NumberEdit(UpdateTime, at.time), TextEdit(UpdateIP, at.ip)]
  }

  lemma TextEditTexts(row: Row, f: Field, text: string, g: Field)
    requires IsText(f)
    ensures TextColumn(EditRow(row, TextEdit(f, text)), g) == if g == f then Some(text) else TextColumn(row, g)
  {}

  lemma TextEditNumbers(row: Row, f: Field, text: string, g: Field)
    ensures NumberColumn(EditRow(row, TextEdit(f, text)), g) == NumberColumn(row, g)
  {}

  lemma NumberEditTexts(row: Row, f: Field, n: int, g: Field)
    ensures TextColumn(EditRow(row, NumberEdit(f, n)), g) == TextColumn(row, g)
  {}

  lemma NumberEditNumbers(row: Row, f: Field, n: int, g: Field)
    requires IsNumber(f)
    ensures NumberColumn(EditRow(row, NumberEdit(f, n)), g) == if g == f then Some(n) else NumberColumn(row, g)
  {}

  /** An edit sets its own column and no other. */
  lemma ColumnsAfterEdit(row: Row, e: Edit, g: Field)
    requires Fits(e)
    ensures TextColumn(EditRow(row, e), g) == if e.TextEdit? && g == e.field then Some(e.text) else TextColumn(row, g)
    ensures NumberColumn(EditRow(row, e), g)
         == if e.NumberEdit? && g == e.field then Some(e.number) else NumberColumn(row, g)
  {
    match e
    case TextEdit(f, text) =>
      TextEditTexts(row, f, text, g);
      TextEditNumbers(row, f, text, g);
    case NumberEdit(f, n) =>
      NumberEditTexts(row, f, n, g);
      NumberEditNumbers(row, f, n, g);
  }

  lemma EditShows(m: Fields, row: Row, e: Edit)
    requires Shows(m, row) && Fits(e)
    ensures Shows(EditHash(m, e), EditRow(row, e))
  {
    var f, row' := e.field, EditRow(row, e);
    assert SameBut(row, row', f) by {
      forall g: Field | g != f
        ensures TextColumn(row', g) == TextColumn(row, g) && NumberColumn(row', g) == NumberColumn(row, g)
      {
        ColumnsAfterEdit(row, e, g);
      }
    }
    ColumnsAfterEdit(row, e, f);
    Kinds(row, f);
    ChangedShows(m, row, row', f, if e.TextEdit? then e.text else Itoa(e.number));
  }

  lemma {:induction false} EditsShow(m: Fields, row: Row, edits: seq<Edit>)
    requires Shows(m, row) && AllFit(edits)
    ensures Shows(Wrote(m, edits), Edited(row, edits))
    decreases |edits|
  {
    if edits != [] {
      EditShows(m, row, edits[0]);
      EditsShow(EditHash(m, edits[0]), EditRow(row, edits[0]), edits[1..]);
    }
  }

  lemma {:induction false} EditedConcat(row: Row, a: seq<Edit>, b: seq<Edit>)
    ensures Edited(row, a + b) == Edited(Edited(row, a), b)
    decreases |a|
  {
    if a == [] {
      assert a + b == b;
    } else {
      assert (a + b)[1..] == a[1..] + b;
      EditedConcat(EditRow(row, a[0]), a[1..], b);
    }
  }

  lemma {:induction false} WroteConcat(m: Fields, a: seq<Edit>, b: seq<Edit>)
    ensures Wrote(m, a + b) == Wrote(Wrote(m, a), b)
    decreases |a|
  {
    if a == [] {
      assert a + b == b;
    } else {
      assert (a + b)[1..] == a[1..] + b;
      WroteConcat(EditHash(m, a[0]), a[1..], b);
    }
  }

  // --------------------------------------------------------------------- sides

  /** What a row or a hash has for the four loose columns. */
  datatype Side = Side(stamp: Stamp, count: int)

  function RowSide(row: Row): Side {
    Side(Stamp(row.updater, row.updateTime, row.updateIP), row.finished)
  }

  function HashSide(m: Fields): Side {
    Side(Stamp(NumberOrZero(m, Updater), NumberOrZero(m, UpdateTime), TextOrNone(m, UpdateIP)),
         NumberOrZero(m, Finished))
  }

  function WithSide(row: Row, x: Side): Row {
    row.(updater := x.stamp.updater, updateTime := x.stamp.time, updateIP := x.stamp.ip, finished := x.count)
  }

  /** The rows are the same in the sixteen columns. */
  predicate SameBase(row: Row, row': Row) {
    WithSide(row, RowSide(row')) == row'
  }

  lemma BaseThroughTextEdit(row: Row, row': Row, f: Field, text: string)
    requires SameBase(row, row')
    ensures SameBase(EditRow(row, TextEdit(f, text)), EditRow(row', TextEdit(f, text)))
  {}

  lemma BaseThroughNumberEdit(row: Row, row': Row, f: Field, n: int)
    requires SameBase(row, row')
    ensures SameBase(EditRow(row, NumberEdit(f, n)), EditRow(row', NumberEdit(f, n)))
  {}

  lemma BaseThroughEdit(row: Row, row': Row, e: Edit)
    requires SameBase(row, row')
    ensures SameBase(EditRow(row, e), EditRow(row', e))
  {
    match e
    case TextEdit(f, text) => BaseThroughTextEdit(row, row', f, text);
    case NumberEdit(f, n) => BaseThroughNumberEdit(row, row', f, n);
  }

  lemma {:induction false} BaseThroughEdits(row: Row, row': Row, edits: seq<Edit>)
    requires SameBase(row, row')
    ensures SameBase(Edited(row, edits), Edited(row', edits))
    decreases |edits|
  {
    if edits != [] {
      BaseThroughEdit(row, row', edits[0]);
      BaseThroughEdits(EditRow(row, edits[0]), EditRow(row', edits[0]), edits[1..]);
    }
  }

  lemma {:induction false} PlainKeepsSide(row: Row, edits: seq<Edit>)
    requires Plain(edits)
    ensures RowSide(Edited(row, edits)) == RowSide(row)
    decreases |edits|
  {
    if edits != [] {
      assert !IsLoose(edits[0].field);
      PlainKeepsSide(EditRow(row, edits[0]), edits[1..]);
    }
  }

  lemma EditedThree(row: Row, a: Edit, b: Edit, c: Edit)
    ensures Edited(row, [a, b, c]) == EditRow(EditRow(EditRow(row, a), b), c)
  {
    assert [a, b, c][1..] == [b, c] && [b, c][1..] == [c] && [c][1..] == [];
    assert Edited(EditRow(row, a), [b, c]) == Edited(EditRow(EditRow(row, a), b), [c]);
  }

  lemma MarksSetStamp(row: Row, at: Stamp)
    ensures Edited(row, Marks(at)) == WithSide(row, Side(at, row.finished))
  {
    EditedThree(row, NumberEdit(Updater, at.updater), NumberEdit(UpdateTime, at.time), TextEdit(UpdateIP, at.ip));
  }

  function Counting(n: int): seq<Edit> {
    [NumberEdit(Finished, n)]
  }

  function MaybeCounting(ended: bool, n: int): seq<Edit> {
    if ended then Counting(n) else []
  }

  lemma CountingSetsCount(row: Row, n: int)
    ensures Edited(row, Counting(n)) == row.(finished := n)
  {
    assert Counting(n)[1..] == [];
  }

  // ------------------------------------------------------------------ the calls

  /** What a call writes after it has read the class. */
  datatype Update =
    | Change(edits: seq<Edit>, at: Stamp)
    | EndMeeting(at: Stamp)
    | DropMeeting(edits: seq<Edit>, ended: bool, at: Stamp)
    | StampHash(fields: seq<Field>, at: Stamp)

  datatype HashCall =
    | Get(id: int)
    | SetTimes(id: int, schedule: string, nextTime: string)
    | Write(id: int, update: Update)
    | Rewrite(id: int, field: Field, text: string)
    | Fill(id: int, field: Field)
    | Preload(id: int)
    | Insert(id: int, row: Row)
    | Delete(id: int)
    | Lose(id: int)

  predicate Proper(u: Update) {
    match u
    case Change(edits, _) => Plain(edits)
    case EndMeeting(_) => true
    case DropMeeting(edits, _, _) => Plain(edits)
    case StampHash(fields, _) => forall i :: 0 <= i < |fields| ==> IsText(fields[i]) && !IsLoose(fields[i])
  }

  /** A row's own texts. */
  function Own(row: Row, fields: seq<Field>): seq<Edit> {
    if fields == [] then []
    else [TextEdit(fields[0], if IsText(fields[0]) then TextColumn(row, fields[0]).value else "")] + Own(row, fields[1..])
  }

  function AtLeastZero(n: int): nat {
    if n < 0 then 0 else n
  }

  /** What is set in the row. A deletion sets the lists, the counter and the stamps. */
  function RowEdits(row: Row, u: Update): seq<Edit> {
    match u
    case Change(edits, at) => edits + Marks(at)
    case EndMeeting(at) => Counting(row.finished + 1) + Marks(at)
    case DropMeeting(edits, ended, at) => edits + MaybeCounting(ended, row.finished - 1) + Marks(at)
    case StampHash(_, _) => []
  }

  /** What is set in the hash. The counter of an ended meeting comes from the class as it was
      read; a deletion counts down what the hash holds, not below zero, and sets no stamps; a
      call that finds its list as it should be sets the stamps in the hash alone. */
  function HashEdits(row: Row, read: ClassInfo, m: Fields, u: Update): seq<Edit> {
    match u
    case Change(edits, at) => edits + Marks(at)
    case EndMeeting(at) => Counting(read.finished + 1) + Marks(at)
    case DropMeeting(edits, ended, _) => edits + MaybeCounting(ended, AtLeastZero(NumberOrZero(m, Finished) - 1))
    case StampHash(fields, at) => Own(row, fields) + Marks(at)
  }

  function Step(s: Store, c: HashCall): Store {
    match c
    case Get(id) => Fetched(s, id).0
    case SetTimes(id, schedule, nextTime) =>
      var s' := Fetched(s, id).0;
      if id in s.rows
      then s'.(cached := s'.cached[id := HashOf(s', id)[Schedule := schedule][NextTime := nextTime]]) else s'
    case Write(id, u) =>
      var (s', read) := Fetched(s, id);
      if id !in s.rows || read.None? || !Proper(u) then s'
      else
        var row, m := s.rows[id], HashOf(s', id);
        Store(s.rows[id := Edited(row, RowEdits(row, u))],
              s'.cached[id := Wrote(m, HashEdits(row, read.value, m, u))])
    case Rewrite(id, f, text) =>
      if !IsRewritten(f) then s
      else Store(if id in s.rows then s.rows[id := EditRow(s.rows[id], TextEdit(f, text))] else s.rows,
                 s.cached[id := HashOf(s, id)[f := text]])
    case Fill(id, f) =>
      if id !in s.rows || !IsFillable(f) then s
      else s.(cached := s.cached[id := HashOf(s, id)[f := ColumnText(s.rows[id], f)]])
    case Preload(id) =>
      if id !in s.rows then s else s.(cached := s.cached[id := Written(HashOf(s, id), s.rows[id])])
    case Insert(id, row) =>
      if id in s.rows then s else Store(s.rows[id := row], s.cached[id := Written(HashOf(s, id), row)])
    case Delete(id) => if id !in s.rows then Fetched(s, id).0 else Store(s.rows - {id}, s.cached - {id})
    case Lose(id) => s.(cached := s.cached - {id})
  }

  function ColumnText(row: Row, f: Field): string {
    if IsText(f) then TextColumn(row, f).value
    else if IsNumber(f) then Itoa(NumberColumn(row, f).value)
    else ""
  }

  function Run(s: Store, calls: seq<HashCall>): Store
    decreases |calls|
  {
    if calls == [] then s else Run(Step(s, calls[0]), calls[1..])
  }

  // ------------------------------------------------------------------- invariant

  /** None of the sixteen columns in the hash says anything but what the row has. */
  ghost predicate Agrees(m: Fields, row: Row) {
    forall f: Field :: f in m && (IsText(f) || IsNumber(f)) && !IsLoose(f) ==> m[f] == ColumnText(row, f)
  }

  /** The hash shows the whole row, but for the loose columns, where it has its own. */
  ghost predicate Complete(m: Fields, row: Row) {
    Shows(m, WithSide(row, HashSide(m)))
  }

  /** A hash of nothing but what is written without reading. */
  ghost predicate Scraps(m: Fields) {
    forall f: Field :: f in m ==> IsFillable(f) || IsRewritten(f)
  }

  ghost predicate HashKept(m: Fields, row: Row) {
    Complete(m, row) || (Scraps(m) && Agrees(m, row))
  }

  ghost predicate Kept(s: Store) {
    forall id :: id in s.cached ==>
      if id in s.rows then HashKept(s.cached[id], s.rows[id]) else Scraps(s.cached[id])
  }

  lemma ShownSide(m: Fields, row: Row)
    requires Shows(m, row)
    ensures HashSide(m) == RowSide(row)
  {
    NumbersAreRead(m, row);
    NumberFields(f => Number(m, f), row);
    TextFields(m, row);
  }

  /** A hash that shows a row with some side is complete for any row with the same base. */
  lemma ShownIsComplete(m: Fields, shown: Row, row: Row)
    requires Shows(m, shown) && SameBase(row, shown)
    ensures Complete(m, row) && HashSide(m) == RowSide(shown)
  {
    ShownSide(m, shown);
  }

  lemma CompleteAgrees(m: Fields, row: Row)
    requires Complete(m, row)
    ensures Agrees(m, row)
  {
    var shown := WithSide(row, HashSide(m));
    forall f: Field | f in m && (IsText(f) || IsNumber(f)) && !IsLoose(f)
      ensures m[f] == ColumnText(row, f)
    {
      Kinds(shown, f);
    }
  }

  lemma ScrapIsUnreadable(m: Fields, row: Row)
    requires Scraps(m)
    ensures !Readable(m) && !Complete(m, row)
  {
    assert Name !in m;
    assert TextColumn(WithSide(row, HashSide(m)), Name).Some?;
  }

  lemma CompleteIsRead(m: Fields, row: Row, id: int)
    requires Complete(m, row)
    ensures Readable(m)
    ensures FromFields(m, id)
         == Some(InfoOf(WithSide(row, HashSide(m)), id)
                 .(schedule := TextOrNone(m, Schedule), nextTime := NumberOrZero(m, NextTime)))
  {
    ShownIsRead(m, WithSide(row, HashSide(m)), id);
  }

  lemma KeptIsReadable(m: Fields, row: Row)
    requires HashKept(m, row)
    ensures Readable(m) <==> Complete(m, row)
  {
    if Complete(m, row) {
      CompleteIsRead(m, row, 0);
    } else {
      ScrapIsUnreadable(m, row);
    }
  }

  /** Whatever a call sets in a hash, it stays complete for any row that has the same plain
      columns set, and its side is what the edits make of it. */
  lemma WriteKeeps(m: Fields, row: Row, row': Row, edits: seq<Edit>)
    requires Complete(m, row) && AllFit(edits) && SameBase(row', Edited(row, edits))
    ensures Complete(Wrote(m, edits), row')
    ensures HashSide(Wrote(m, edits)) == RowSide(Edited(WithSide(row, HashSide(m)), edits))
  {
    var shown := WithSide(row, HashSide(m));
    EditsShow(m, shown, edits);
    BaseThroughEdits(row, shown, edits);
    ShownIsComplete(Wrote(m, edits), Edited(shown, edits), row');
  }

  // --------------------------------------------------- the machine of two sides

  /** What row and complete hash have for the loose columns of one class. */
  datatype Sides = Sides(row: Option<Side>, hash: Option<Side>)

  function SidesAt(s: Store, id: int): Sides {
    Sides(if id in s.rows then Some(RowSide(s.rows[id])) else None,
          if id in s.cached && Readable(s.cached[id]) then Some(HashSide(s.cached[id])) else None)
  }

  /** After the class was read. */
  function Looked(p: Sides): Sides {
    if p.row.Some? && p.hash.None? then p.(hash := p.row) else p
  }

  function NextRow(x: Side, u: Update): Side {
    match u
    case Change(_, at) => x.(stamp := at)
    case EndMeeting(at) => Side(at, x.count + 1)
    case DropMeeting(_, ended, at) => Side(at, if ended then x.count - 1 else x.count)
    case StampHash(_, _) => x
  }

  function NextHash(x: Side, u: Update): Side {
    match u
    case Change(_, at) => x.(stamp := at)
    case EndMeeting(at) => Side(at, x.count + 1)
    case DropMeeting(_, ended, _) => if ended then x.(count := AtLeastZero(x.count - 1)) else x
    case StampHash(_, at) => x.(stamp := at)
  }

  function Next(p: Sides, c: HashCall): Sides {
    match c
    case Get(_) => Looked(p)
    case SetTimes(_, _, _) => Looked(p)
    case Write(_, u) =>
      var q := Looked(p);
      if p.row.None? || !Proper(u) then q
      else Sides(Some(NextRow(q.row.value, u)), Some(NextHash(q.hash.value, u)))
    case Rewrite(_, _, _) => p
    case Fill(_, _) => p
    case Preload(_) => if p.row.None? then p else p.(hash := p.row)
    case Insert(_, row) => if p.row.Some? then p else Sides(Some(RowSide(row)), Some(RowSide(row)))
    case Delete(_) => if p.row.None? then p else Sides(None, None)
    case Lose(_) => p.(hash := None)
  }

  /** The sides of one class after a run; calls on other classes leave them alone. */
  function After(p: Sides, calls: seq<HashCall>, id: int): Sides
    decreases |calls|
  {
    if calls == [] then p
    else After(if calls[0].id == id then Next(p, calls[0]) else p, calls[1..], id)
  }

  // ----------------------------------------------------------------- every call

  /** From one store to another all hashes are kept, one class gets these sides, and the
      others keep theirs. */
  ghost predicate Moves(s: Store, s': Store, id: int, p: Sides) {
    Kept(s') && SidesAt(s', id) == p && forall x :: x != id ==> SidesAt(s', x) == SidesAt(s, x)
  }

  function SidesOf(row: Row, m: Fields): Sides {
    Sides(Some(RowSide(row)), if Readable(m) then Some(HashSide(m)) else None)
  }

  lemma EntryMoves(s: Store, id: int, row: Row, m: Fields)
    requires Kept(s) && HashKept(m, row)
    ensures Moves(s, Store(s.rows[id := row], s.cached[id := m]), id, SidesOf(row, m))
  {}

  lemma EntryGoes(s: Store, id: int)
    requires Kept(s)
    ensures Moves(s, Store(s.rows - {id}, s.cached - {id}), id, Sides(None, None))
    ensures Moves(s, Store(s.rows, s.cached - {id}), id, SidesAt(s, id).(hash := None))
  {}

  lemma HashMoves(s: Store, id: int, m: Fields)
    requires Kept(s) && id in s.rows && HashKept(m, s.rows[id])
    ensures Moves(s, s.(cached := s.cached[id := m]), id, SidesOf(s.rows[id], m))
  {
    assert s.rows[id := s.rows[id]] == s.rows;
    EntryMoves(s, id, s.rows[id], m);
  }

  lemma WrittenIsComplete(m: Fields, row: Row)
    ensures Complete(Written(m, row), row) && SidesOf(row, Written(m, row)) == Sides(Some(RowSide(row)), Some(RowSide(row)))
  {
    WrittenShows(m, row);
    ShownIsComplete(Written(m, row), row, row);
    CompleteIsRead(Written(m, row), row, 0);
  }

  lemma UnreadRefills(s: Store, id: int)
    requires Kept(s) && id in s.rows && !(id in s.cached && Readable(s.cached[id]))
    ensures var s' := Fetched(s, id).0;
      && Fetched(s, id) == (s.(cached := s.cached[id := Written(HashOf(s, id), s.rows[id])]), Some(InfoOf(s.rows[id], id)))
      && Moves(s, s', id, Looked(SidesAt(s, id)))
      && id in s'.cached && Complete(s'.cached[id], s.rows[id])
      && HashSide(s'.cached[id]).count == s.rows[id].finished
  {
    WrittenIsComplete(HashOf(s, id), s.rows[id]);
    HashMoves(s, id, Written(HashOf(s, id), s.rows[id]));
  }

  /** After a class was read its hash is complete. */
  lemma FetchedKeeps(s: Store, id: int)
    requires Kept(s)
    ensures var (s', read) := Fetched(s, id);
      && Moves(s, s', id, Looked(SidesAt(s, id))) && s'.rows == s.rows
      && (id in s.rows ==>
            && id in s'.cached && Complete(s'.cached[id], s.rows[id])
            && read.Some? && read.value.finished == HashSide(s'.cached[id]).count)
  {
    if id !in s.rows {
      if id in s.cached {
        ScrapIsUnreadable(s.cached[id], InitialRow());
      }
    } else if id in s.cached && Readable(s.cached[id]) {
      KeptIsReadable(s.cached[id], s.rows[id]);
      CompleteIsRead(s.cached[id], s.rows[id], id);
    } else {
      UnreadRefills(s, id);
    }
  }

  function InitialRow(): Row {
    Row("", "", "", "", "", "", "", 0, "", 0, 0, 0, 0, "", 0, 0, 0, 0, "", 0)
  }

  lemma {:induction false} OwnTextsChangeNothing(row: Row, fields: seq<Field>)
    requires forall i :: 0 <= i < |fields| ==> IsText(fields[i]) && !IsLoose(fields[i])
    ensures Edited(row, Own(row, fields)) == row && Plain(Own(row, fields))
  {
    if fields != [] {
      OwnTextsChangeNothing(row, fields[1..]);
      var e := TextEdit(fields[0], TextColumn(row, fields[0]).value);
      assert EditRow(row, e) == row;
      assert Own(row, fields) == [e] + Own(row, fields[1..]);
      assert Own(row, fields)[1..] == Own(row, fields[1..]);
    }
  }

  /** What an update makes of a row, and of the row a hash shows. */
  lemma UpdateOnRow(row: Row, read: ClassInfo, m: Fields, u: Update, shown: Row)
    requires Proper(u) && SameBase(row, shown)
    requires read.finished == shown.finished == NumberOrZero(m, Finished)
    ensures AllFit(RowEdits(row, u)) && AllFit(HashEdits(row, read, m, u))
    ensures RowSide(Edited(row, RowEdits(row, u))) == NextRow(RowSide(row), u)
    ensures RowSide(Edited(shown, HashEdits(row, read, m, u))) == NextHash(RowSide(shown), u)
    ensures SameBase(Edited(row, RowEdits(row, u)), Edited(row, HashEdits(row, read, m, u)))
  {
    match u
    case Change(edits, at) =>
      ChangeOnRow(row, edits, at);
      ChangeOnRow(shown, edits, at);
    case EndMeeting(at) =>
      EndOnRow(row, row.finished + 1, at);
      EndOnRow(row, read.finished + 1, at);
      EndOnRow(shown, read.finished + 1, at);
    case DropMeeting(edits, ended, at) =>
      DropOnRow(row, read, m, edits, ended, at, shown);
    case StampHash(fields, at) =>
      OwnTextsChangeNothing(row, fields);
      ChangeOnRow(row, Own(row, fields), at);
      ChangeOnRow(shown, Own(row, fields), at);
  }

  lemma ChangeOnRow(row: Row, edits: seq<Edit>, at: Stamp)
    requires Plain(edits)
    ensures AllFit(edits + Marks(at))
    ensures Edited(row, edits + Marks(at)) == WithSide(Edited(row, edits), Side(at, row.finished))
    ensures RowSide(Edited(row, edits + Marks(at))) == Side(at, row.finished)
  {
    EditedConcat(row, edits, Marks(at));
    PlainKeepsSide(row, edits);
    MarksSetStamp(Edited(row, edits), at);
  }

  lemma EndOnRow(row: Row, n: int, at: Stamp)
    ensures AllFit(Counting(n) + Marks(at))
    ensures Edited(row, Counting(n) + Marks(at)) == WithSide(row, Side(at, n))
  {
    EditedConcat(row, Counting(n), Marks(at));
    CountingSetsCount(row, n);
    MarksSetStamp(row.(finished := n), at);
  }

  lemma CountedOnRow(row: Row, edits: seq<Edit>, ended: bool, n: int)
    requires Plain(edits)
    ensures AllFit(edits + MaybeCounting(ended, n))
    ensures Edited(row, edits + MaybeCounting(ended, n))
         == Edited(row, edits).(finished := if ended then n else row.finished)
    ensures RowSide(Edited(row, edits + MaybeCounting(ended, n)))
         == RowSide(row).(count := if ended then n else row.finished)
  {
    EditedConcat(row, edits, MaybeCounting(ended, n));
    PlainKeepsSide(row, edits);
    CountingSetsCount(Edited(row, edits), n);
  }

  lemma StampOverCount(row: Row, n: int, at: Stamp)
    ensures WithSide(row.(finished := n), Side(at, n)) == WithSide(row, Side(at, n))
  {}

  lemma CountedAndMarked(row: Row, edits: seq<Edit>, ended: bool, n: int, at: Stamp)
    requires Plain(edits)
    ensures var es := edits + MaybeCounting(ended, n) + Marks(at);
      && AllFit(es)
      && Edited(row, es) == WithSide(Edited(row, edits), Side(at, if ended then n else row.finished))
  {
    var counted := edits + MaybeCounting(ended, n);
    CountedOnRow(row, edits, ended, n);
    EditedConcat(row, counted, Marks(at));
    MarksSetStamp(Edited(row, counted), at);
    StampOverCount(Edited(row, edits), if ended then n else row.finished, at);
  }

  lemma DropOnRow(row: Row, read: ClassInfo, m: Fields, edits: seq<Edit>, ended: bool, at: Stamp, shown: Row)
    requires Plain(edits) && shown.finished == NumberOrZero(m, Finished)
    ensures var u := DropMeeting(edits, ended, at);
      && AllFit(RowEdits(row, u)) && AllFit(HashEdits(row, read, m, u))
      && RowSide(Edited(row, RowEdits(row, u))) == NextRow(RowSide(row), u)
      && RowSide(Edited(shown, HashEdits(row, read, m, u))) == NextHash(RowSide(shown), u)
      && SameBase(Edited(row, RowEdits(row, u)), Edited(row, HashEdits(row, read, m, u)))
  {
    var k := AtLeastZero(NumberOrZero(m, Finished) - 1);
    CountedAndMarked(row, edits, ended, row.finished - 1, at);
    CountedOnRow(row, edits, ended, k);
    CountedOnRow(shown, edits, ended, k);
  }

  /** An update of a complete hash and its row. */
  lemma UpdateKeeps(row: Row, read: ClassInfo, m: Fields, u: Update)
    requires Proper(u) && Complete(m, row) && read.finished == HashSide(m).count
    ensures var row', m' := Edited(row, RowEdits(row, u)), Wrote(m, HashEdits(row, read, m, u));
      && Complete(m', row')
      && SidesOf(row', m') == Sides(Some(NextRow(RowSide(row), u)), Some(NextHash(HashSide(m), u)))
  {
    var row', edits := Edited(row, RowEdits(row, u)), HashEdits(row, read, m, u);
    UpdateOnRow(row, read, m, u, WithSide(row, HashSide(m)));
    WriteKeeps(m, row, row', edits);
    KeptIsReadable(Wrote(m, edits), row');
  }

  lemma WriteStepIs(s: Store, id: int, u: Update)
    requires id in s.rows && Proper(u) && id in Fetched(s, id).0.cached && Fetched(s, id).1.Some?
    requires Fetched(s, id).0.rows == s.rows
    ensures var (s1, read) := Fetched(s, id);
      var row, m := s.rows[id], s1.cached[id];
      Step(s, Write(id, u)) == Store(s1.rows[id := Edited(row, RowEdits(row, u))],
                                    s1.cached[id := Wrote(m, HashEdits(row, read.value, m, u))])
  {}

  lemma WriteStepKeeps(s: Store, id: int, u: Update)
    requires Kept(s)
    ensures Moves(s, Step(s, Write(id, u)), id, Next(SidesAt(s, id), Write(id, u)))
  {
    FetchedKeeps(s, id);
    if id in s.rows && Proper(u) {
      var (s1, read) := Fetched(s, id);
      var row, m := s.rows[id], s1.cached[id];
      CompleteIsRead(m, row, id);
      UpdateKeeps(row, read.value, m, u);
      WriteStepIs(s, id, u);
      EntryMoves(s1, id, Edited(row, RowEdits(row, u)), Wrote(m, HashEdits(row, read.value, m, u)));
    }
  }

  lemma TimesShow(m: Fields, row: Row, schedule: string, nextTime: string)
    requires Complete(m, row)
    ensures var m' := m[Schedule := schedule][NextTime := nextTime];
      Complete(m', row) && SidesOf(row, m') == SidesOf(row, m)
  {
    var m' := m[Schedule := schedule][NextTime := nextTime];
    var shown := WithSide(row, HashSide(m));
    Kinds(shown, Schedule);
    Kinds(shown, NextTime);
    assert Shows(m', shown);
    ShownIsComplete(m', shown, row);
    KeptIsReadable(m, row);
    KeptIsReadable(m', row);
  }

  lemma TimesKeep(s: Store, id: int, schedule: string, nextTime: string)
    requires Kept(s)
    ensures Moves(s, Step(s, SetTimes(id, schedule, nextTime)), id, Looked(SidesAt(s, id)))
  {
    FetchedKeeps(s, id);
    if id in s.rows {
      var s1 := Fetched(s, id).0;
      TimesShow(s1.cached[id], s.rows[id], schedule, nextTime);
      KeptIsReadable(s1.cached[id], s.rows[id]);
      HashMoves(s1, id, s1.cached[id][Schedule := schedule][NextTime := nextTime]);
    }
  }

  lemma PlainEditKeepsSide(row: Row, e: Edit)
    requires !IsLoose(e.field)
    ensures RowSide(EditRow(row, e)) == RowSide(row)
  {}

  lemma ColumnInComplete(m: Fields, row: Row, e: Edit)
    requires Complete(m, row) && Fits(e) && !IsLoose(e.field)
    ensures Complete(EditHash(m, e), EditRow(row, e)) && SidesOf(EditRow(row, e), EditHash(m, e)) == SidesOf(row, m)
  {
    var shown, m', row' := WithSide(row, HashSide(m)), EditHash(m, e), EditRow(row, e);
    EditShows(m, shown, e);
    BaseThroughEdit(row, shown, e);
    ShownIsComplete(m', EditRow(shown, e), row');
    PlainEditKeepsSide(row, e);
    PlainEditKeepsSide(shown, e);
    CompleteIsRead(m, row, 0);
    CompleteIsRead(m', row', 0);
  }

  lemma OtherColumnsStay(row: Row, e: Edit, f: Field)
    requires Fits(e)
    ensures ColumnText(EditRow(row, e), f)
         == if f == e.field then (if e.TextEdit? then e.text else Itoa(e.number)) else ColumnText(row, f)
  {
    ColumnsAfterEdit(row, e, f);
    Kinds(row, f);
    Kinds(EditRow(row, e), f);
  }

  lemma ColumnInScraps(m: Fields, row: Row, e: Edit)
    requires Scraps(m) && Agrees(m, row) && Fits(e) && (IsFillable(e.field) || IsRewritten(e.field))
    ensures Scraps(EditHash(m, e)) && Agrees(EditHash(m, e), EditRow(row, e))
    ensures SidesOf(EditRow(row, e), EditHash(m, e)) == SidesOf(row, m)
  {
    var m', row' := EditHash(m, e), EditRow(row, e);
    ScrapIsUnreadable(m, row);
    ScrapIsUnreadable(m', row');
    PlainEditKeepsSide(row, e);
    forall f: Field | f in m' && (IsText(f) || IsNumber(f)) && !IsLoose(f)
      ensures m'[f] == ColumnText(row', f)
    {
      OtherColumnsStay(row, e, f);
    }
  }

  /** A column set in row and hash alike, whatever the hash is. */
  lemma ColumnKeeps(m: Fields, row: Row, e: Edit)
    requires HashKept(m, row) && Fits(e) && (IsFillable(e.field) || IsRewritten(e.field))
    ensures HashKept(EditHash(m, e), EditRow(row, e))
    ensures SidesOf(EditRow(row, e), EditHash(m, e)) == SidesOf(row, m)
  {
    if Complete(m, row) {
      ColumnInComplete(m, row, e);
    } else {
      ColumnInScraps(m, row, e);
    }
  }

  lemma NoHash(row: Row)
    ensures HashKept(map[], row) && !Readable(map[])
  {}

  lemma RewriteKeeps(s: Store, id: int, f: Field, text: string)
    requires Kept(s)
    ensures Moves(s, Step(s, Rewrite(id, f, text)), id, SidesAt(s, id))
  {
    if IsRewritten(f) {
      var m := HashOf(s, id);
      if id in s.rows {
        var e := TextEdit(f, text);
        NoHash(s.rows[id]);
        ColumnKeeps(m, s.rows[id], e);
        EntryMoves(s, id, EditRow(s.rows[id], e), EditHash(m, e));
      } else {
        ScrapIsUnreadable(m, InitialRow());
        ScrapIsUnreadable(m[f := text], InitialRow());
      }
    }
  }

  function OwnEdit(row: Row, f: Field): Edit
    requires IsFillable(f)
  {
    if f.PlatformID? then NumberEdit(f, row.platform) else TextEdit(f, ColumnText(row, f))
  }

  lemma FillKeeps(s: Store, id: int, f: Field)
    requires Kept(s)
    ensures Moves(s, Step(s, Fill(id, f)), id, SidesAt(s, id))
  {
    if id in s.rows && IsFillable(f) {
      var m, row := HashOf(s, id), s.rows[id];
      var e := OwnEdit(row, f);
      NoHash(row);
      ColumnKeeps(m, row, e);
      assert EditRow(row, e) == row && EditHash(m, e) == m[f := ColumnText(row, f)];
      HashMoves(s, id, EditHash(m, e));
    }
  }

  /** Every call keeps the hashes and moves the sides as the machine does. */
  lemma StepRefines(s: Store, c: HashCall)
    requires Kept(s)
    ensures Moves(s, Step(s, c), c.id, Next(SidesAt(s, c.id), c))
  {
    match c
    case Get(id) => FetchedKeeps(s, id);
    case SetTimes(id, schedule, nextTime) => TimesKeep(s, id, schedule, nextTime);
    case Write(id, u) => WriteStepKeeps(s, id, u);
    case Rewrite(id, f, text) => RewriteKeeps(s, id, f, text);
    case Fill(id, f) => FillKeeps(s, id, f);
    case Preload(id) =>
      if id in s.rows {
        WrittenIsComplete(HashOf(s, id), s.rows[id]);
        HashMoves(s, id, Written(HashOf(s, id), s.rows[id]));
      }
    case Insert(id, row) =>
      if id !in s.rows {
        WrittenIsComplete(HashOf(s, id), row);
        EntryMoves(s, id, row, Written(HashOf(s, id), row));
      }
    case Delete(id) =>
      FetchedKeeps(s, id);
      EntryGoes(s, id);
    case Lose(id) => EntryGoes(s, id);
  }

  lemma {:induction false} RunRefines(s: Store, calls: seq<HashCall>, id: int)
    requires Kept(s)
    ensures Kept(Run(s, calls)) && SidesAt(Run(s, calls), id) == After(SidesAt(s, id), calls, id)
    decreases |calls|
  {
    if calls != [] {
      StepRefines(s, calls[0]);
      RunRefines(Step(s, calls[0]), calls[1..], id);
    }
  }

  // ------------------------------------------------------------------ every run

  /** The sides of a class before anything is cached. */
  function Uncached(rows: map<int, Row>, id: int): Sides {
    Sides(if id in rows then Some(RowSide(rows[id])) else None, None)
  }

  /** After any run from an empty cache, for every class: none of the sixteen columns in its
      hash says anything but what the row has; a hash that can be read holds every column;
      and the class reads as its row, but for the counter and the stamps, which are those of
      the hash, and for the schedule and the next time, which only a hash can hold. The
      counter and the stamps on both sides are those the machine tells from the calls. */
  lemma HashesShowRows(rows: map<int, Row>, calls: seq<HashCall>, id: int)
    ensures var s := Run(Store(rows, map[]), calls);
      var p := After(Uncached(rows, id), calls, id);
      && (id in s.rows <==> p.row.Some?)
      && (id in s.rows ==>
            && RowSide(s.rows[id]) == p.row.value
            && (id in s.cached ==>
                  && Agrees(s.cached[id], s.rows[id])
                  && (Readable(s.cached[id]) <==> Complete(s.cached[id], s.rows[id])))
            && var read := Fetched(s, id).1;
            && read.Some?
            && read.value.(schedule := "", nextTime := 0)
               == InfoOf(WithSide(s.rows[id], Looked(p).hash.value), id))
  {
    var s := Run(Store(rows, map[]), calls);
    RunRefines(Store(rows, map[]), calls, id);
    if id in s.rows && id in s.cached {
      var m, row := s.cached[id], s.rows[id];
      KeptIsReadable(m, row);
      if Complete(m, row) {
        CompleteAgrees(m, row);
        CompleteIsRead(m, row, id);
      }
    }
  }

  /** So a class reads as its row just when the machine has the same on both sides. */
  lemma ReadsAsItsRowIff(rows: map<int, Row>, calls: seq<HashCall>, id: int)
    ensures var s := Run(Store(rows, map[]), calls);
      var p := After(Uncached(rows, id), calls, id);
      id in s.rows ==>
        && Fetched(s, id).1.Some?
        && (Fetched(s, id).1.value.(schedule := "", nextTime := 0) == InfoOf(s.rows[id], id)
            <==> Looked(p).hash == p.row)
  {
    HashesShowRows(rows, calls, id);
  }

  /** After any run two reads of a class in a row are equal: no call leaves a schedule in a
      hash that cannot be read. */
  lemma ReadsAgreeAfterRuns(rows: map<int, Row>, calls: seq<HashCall>, id: int)
    ensures var s := Run(Store(rows, map[]), calls);
      var (s', first) := Fetched(s, id);
      Fetched(s', id).1 == first
  {
    RunRefines(Store(rows, map[]), calls, id);
    RereadAgrees(Run(Store(rows, map[]), calls), id);
  }

  lemma RereadAgrees(s: Store, id: int)
    requires Kept(s)
    ensures Fetched(Fetched(s, id).0, id).1 == Fetched(s, id).1
  {
    if id in s.rows {
      var m, row := HashOf(s, id), s.rows[id];
      if id in s.cached {
        KeptIsReadable(m, row);
      }
      if !(id in s.cached && Readable(m)) {
        assert Schedule !in m && NextTime !in m;
        WrittenShows(m, row);
        WrittenKeeps(m, row);
        ShownIsRead(Written(m, row), row, id);
      }
    }
  }

  // ------------------------------------------------- when the two sides agree

  predicate StampsAgree(p: Sides) {
    p.row.Some? && p.hash.Some? ==> p.hash.value.stamp == p.row.value.stamp
  }

  predicate CountsAgree(p: Sides) {
    p.row.Some? && p.hash.Some? ==> p.hash.value.count == p.row.value.count
  }

  predicate OneSided(c: HashCall) {
    c.Write? && Proper(c.update) && (c.update.DropMeeting? || c.update.StampHash?)
  }

  predicate IsQuiet(c: HashCall, id: int) {
    c.id == id ==> c.Get? || c.SetTimes? || c.Rewrite? || c.Fill?
  }

  /** Calls that leave the stamps of this class alone. */
  predicate Quiet(calls: seq<HashCall>, id: int) {
    forall i :: 0 <= i < |calls| ==> IsQuiet(calls[i], id)
  }

  /** A new class has an id of its own, so an existing one is not inserted again. */
  predicate LeavesStamps(c: HashCall, id: int) {
    IsQuiet(c, id) || c.Insert? || (c.Write? && !Proper(c.update))
  }

  /** Whether the last call that stamped, filled, made or lost this class's hash was a
      deletion of a meeting or a stamping of the hash alone. */
  predicate OneSidedLast(calls: seq<HashCall>, id: int) {
    if calls == [] then false
    else
      var n := |calls| - 1;
      if LeavesStamps(calls[n], id) then OneSidedLast(calls[..n], id) else OneSided(calls[n])
  }

  lemma {:induction false} AfterSnoc(p: Sides, calls: seq<HashCall>, c: HashCall, id: int)
    ensures After(p, calls + [c], id) == if c.id == id then Next(After(p, calls, id), c) else After(p, calls, id)
    decreases |calls|
  {
    if calls == [] {
      assert calls + [c] == [c] && [c][1..] == [];
    } else {
      assert (calls + [c])[1..] == calls[1..] + [c];
      AfterSnoc(if calls[0].id == id then Next(p, calls[0]) else p, calls[1..], c, id);
    }
  }

  /** The stamps agree after every run whose last stamp of this class went to both sides, or
      was filled in with the row. */
  lemma {:induction false} StampsAgreeAfter(p: Sides, calls: seq<HashCall>, id: int)
    requires StampsAgree(p)
    ensures !OneSidedLast(calls, id) ==> StampsAgree(After(p, calls, id))
    decreases |calls|
  {
    if calls != [] {
      var n := |calls| - 1;
      assert calls == calls[..n] + [calls[n]];
      StampsAgreeAfter(p, calls[..n], id);
      AfterSnoc(p, calls[..n], calls[n], id);
    }
  }

  lemma {:induction false} QuietKeeps(p: Sides, calls: seq<HashCall>, id: int)
    requires Quiet(calls, id) && p.hash.Some?
    ensures After(p, calls, id) == p
    decreases |calls|
  {
    if calls != [] {
      assert IsQuiet(calls[0], id);
      QuietKeeps(p, calls[1..], id);
    }
  }

  /** And if that stamp went to one side only, they agree iff it was the very stamp that the
      other side had. */
  lemma OneSidedStampsAgreeIff(p: Sides, c: HashCall, quiet: seq<HashCall>)
    requires p.row.Some? && OneSided(c) && Quiet(quiet, c.id)
    ensures var other := if c.update.DropMeeting? then Looked(p).hash else p.row;
      StampsAgree(After(Next(p, c), quiet, c.id)) <==> c.update.at == other.value.stamp
  {
    QuietKeeps(Next(p, c), quiet, c.id);
  }

  /** A call that sees equal counters leaves them equal, unless it deletes an ended meeting
      when none is counted. */
  lemma CountsPartIff(p: Sides, c: HashCall)
    requires CountsAgree(p)
    ensures CountsAgree(Next(p, c))
            <==> !(p.row.Some? && p.row.value.count <= 0 && c.Write? && Proper(c.update)
                   && c.update.DropMeeting? && c.update.ended)
  {}

  /** Whenever an ended meeting is deleted some meeting is counted. */
  predicate NoneUncounted(p: Sides, calls: seq<HashCall>, id: int)
    decreases |calls|
  {
    calls == []
    || var c := calls[0];
       && (c.id == id && c.Write? && c.update.DropMeeting? && c.update.ended && p.row.Some? ==> p.row.value.count > 0)
       && NoneUncounted(if c.id == id then Next(p, c) else p, calls[1..], id)
  }

  /** The class tables keep that count, so there the clamp of the cached counter is never
      taken (ClassInvariants.ClampNeverTaken); then the counters agree after every run. */
  lemma {:induction false} CountsAgreeAfter(p: Sides, calls: seq<HashCall>, id: int)
    requires CountsAgree(p) && NoneUncounted(p, calls, id)
    ensures CountsAgree(After(p, calls, id))
    decreases |calls|
  {
    if calls != [] {
      var q := if calls[0].id == id then Next(p, calls[0]) else p;
      if calls[0].id == id {
        CountsPartIff(p, calls[0]);
      }
      CountsAgreeAfter(q, calls[1..], id);
    }
  }

  /** Any class, read and then rid of a meeting by somebody else: it reads with the stamps it
      had before, and not with those of its row. */
  lemma DeletionLeavesOldStamps(row: Row, id: int, edits: seq<Edit>, ended: bool, at: Stamp)
    requires Plain(edits)
    ensures var s := Run(Store(map[id := row], map[]), [Get(id), Write(id, DropMeeting(edits, ended, at))]);
      && id in s.rows && RowSide(s.rows[id]).stamp == at
      && Fetched(s, id).1.Some?
      && var read := Fetched(s, id).1.value;
      && Stamp(read.updater, read.updateTime, read.updateIP) == RowSide(row).stamp
  {
    var drop := Write(id, DropMeeting(edits, ended, at));
    HashesShowRows(map[id := row], [Get(id), drop], id);
    var p := Sides(Some(RowSide(row)), None);
    assert [Get(id), drop][1..] == [drop] && [drop][1..] == [];
    assert After(p, [Get(id), drop], id) == After(Looked(p), [drop], id);
    assert After(Looked(p), [drop], id) == Next(Looked(p), drop);
  }
}
