/** The cached copy of a class row: written field by field, read back field by field. */
module ClassCache {
  import opened Texts
  import opened StringLists

  datatype Field =
    | Name | SubjectList | TeacherList | KeeperList | StudentList | MeetingList | Deleted | Finished | Parent | GroupID
    | CourseID | Template | PlatformID | PlatformData | Ally | StartTime | EndTime | UpdateTime | UpdateIP | Updater
    | Schedule | NextTime

  type Fields = map<Field, string>

  datatype Row = Row(
    name: string, subjects: string, teachers: string, keepers: string, students: string, meetings: string,
    deleted: string, finished: int, parent: string, group: int, course: int, template: int, platform: int,
    platformData: string, ally: int, startTime: int, endTime: int, updateTime: int, updateIP: string, updater: int)

  datatype ClassInfo = ClassInfo(
    id: int, name: string, subjects: seq<int>, teachers: seq<int>, keepers: string, students: seq<int>,
    meetings: seq<int>, deleted: seq<int>, finished: int, parent: seq<int>, group: int, course: int, template: int,
    platform: int, platformData: string, ally: int, startTime: int, endTime: int, schedule: string, nextTime: int,
    updateTime: int, updateIP: string, updater: int)

  // ------------------------------------------------------------------ reading

  /** The field as a number, if it is there and is one. */
  function Number(m: Fields, f: Field): Option<int> {
    if f in m then Atoi(m[f]) else None
  }

  function NumberOrZero(m: Fields, f: Field): int {
    match Number(m, f)
    case Some(n) => n
    case None => 0
  }

  function TextOrNone(m: Fields, f: Field): string {
    if f in m then m[f] else ""
  }

  /** What a hash must hold to be read at all. */
  predicate Readable(m: Fields) {
    && Name in m && TeacherList in m && StudentList in m && MeetingList in m && Deleted in m
    && PlatformData in m && UpdateIP in m
    && Number(m, Finished).Some? && Number(m, CourseID).Some? && Number(m, GroupID).Some?
    && Number(m, PlatformID).Some? && Number(m, StartTime).Some? && Number(m, EndTime).Some?
    && Number(m, UpdateTime).Some? && Number(m, Updater).Some?
  }

  function FromFields(m: Fields, id: int): Option<ClassInfo> {
    if !Readable(m) then None
    else Some(ClassInfo(
      id, m[Name], ParseInts(TextOrNone(m, SubjectList)), ParseInts(m[TeacherList]), TextOrNone(m, KeeperList),
      ParseInts(m[StudentList]), ParseInts(m[MeetingList]), ParseInts(m[Deleted]), NumberOrZero(m, Finished),
      ParseInts(TextOrNone(m, Parent)), NumberOrZero(m, GroupID), NumberOrZero(m, CourseID), NumberOrZero(m, Template),
      NumberOrZero(m, PlatformID), m[PlatformData], NumberOrZero(m, Ally), NumberOrZero(m, StartTime),
      NumberOrZero(m, EndTime), TextOrNone(m, Schedule), NumberOrZero(m, NextTime), NumberOrZero(m, UpdateTime),
      m[UpdateIP], NumberOrZero(m, Updater)))
  }

  // ------------------------------------------------------------------ writing

  /** Columns kept as text, as the cache is given them. */
  function TextColumn(row: Row, f: Field): Option<string> {
    match f
    case Name => Some(row.name)
    case SubjectList => Some(row.subjects)
    case TeacherList => Some(row.teachers)
    case KeeperList => Some(row.keepers)
    case StudentList => Some(row.students)
    case MeetingList => Some(row.meetings)
    case Deleted => Some(row.deleted)
    case Parent => Some(row.parent)
    case PlatformData => Some(row.platformData)
    case UpdateIP => Some(row.updateIP)
    case _ => None
  }

  /** Columns kept as numbers; the schedule and the next time are no columns. */
  function NumberColumn(row: Row, f: Field): Option<int> {
    match f
    case Finished => Some(row.finished)
    case GroupID => Some(row.group)
    case CourseID => Some(row.course)
    case Template => Some(row.template)
    case PlatformID => Some(row.platform)
    case Ally => Some(row.ally)
    case StartTime => Some(row.startTime)
    case EndTime => Some(row.endTime)
    case UpdateTime => Some(row.updateTime)
    case Updater => Some(row.updater)
    case _ => None
  }

  /** The record a row is read as. */
  function InfoOf(row: Row, id: int): ClassInfo {
    ClassInfo(
      id, row.name, ParseInts(row.subjects), ParseInts(row.teachers), row.keepers, ParseInts(row.students),
      ParseInts(row.meetings), ParseInts(row.deleted), row.finished, ParseInts(row.parent), row.group, row.course,
      row.template, row.platform, row.platformData, row.ally, row.startTime, row.endTime, "", 0, row.updateTime,
      row.updateIP, row.updater)
  }

  ghost predicate ShowsTexts(m: Fields, row: Row) {
    forall f: Field :: TextColumn(row, f).Some? ==> f in m && m[f] == TextColumn(row, f).value
  }

  ghost predicate ShowsNumbers(m: Fields, row: Row) {
    forall f: Field :: NumberColumn(row, f).Some? ==> f in m && m[f] == Itoa(NumberColumn(row, f).value)
  }

  /** Every column stands in the hash as the row has it. */
  ghost predicate Shows(m: Fields, row: Row) {
    ShowsTexts(m, row) && ShowsNumbers(m, row)
  }

  ghost predicate ReadsNumbers(m: Fields, row: Row) {
    forall f: Field :: NumberColumn(row, f).Some? ==> Number(m, f) == NumberColumn(row, f)
  }

  lemma NumbersAreRead(m: Fields, row: Row)
    requires ShowsNumbers(m, row)
    ensures ReadsNumbers(m, row)
  {
    forall f: Field | NumberColumn(row, f).Some?
      ensures Number(m, f) == NumberColumn(row, f)
    {
      AtoiItoa(NumberColumn(row, f).value);
    }
  }

  lemma NumberFields(get: Field -> Option<int>, row: Row)
    requires forall f: Field :: NumberColumn(row, f).Some? ==> get(f) == NumberColumn(row, f)
    ensures get(Finished) == Some(row.finished) && get(CourseID) == Some(row.course)
    ensures get(GroupID) == Some(row.group) && get(PlatformID) == Some(row.platform)
    ensures get(StartTime) == Some(row.startTime) && get(EndTime) == Some(row.endTime)
    ensures get(UpdateTime) == Some(row.updateTime) && get(Updater) == Some(row.updater)
    ensures get(Template) == Some(row.template) && get(Ally) == Some(row.ally)
  {
    assert NumberColumn(row, Finished).Some? && NumberColumn(row, CourseID).Some? && NumberColumn(row, GroupID).Some?;
    assert NumberColumn(row, PlatformID).Some? && NumberColumn(row, StartTime).Some? && NumberColumn(row, EndTime).Some?;
    assert NumberColumn(row, UpdateTime).Some? && NumberColumn(row, Updater).Some?;
    assert NumberColumn(row, Template).Some? && NumberColumn(row, Ally).Some?;
  }

  lemma TextFields(m: Fields, row: Row)
    requires ShowsTexts(m, row)
    ensures Name in m && TeacherList in m && StudentList in m && MeetingList in m && Deleted in m
    ensures PlatformData in m && UpdateIP in m
    ensures m[Name] == row.name && m[TeacherList] == row.teachers && m[StudentList] == row.students
    ensures m[MeetingList] == row.meetings && m[Deleted] == row.deleted
    ensures m[PlatformData] == row.platformData && m[UpdateIP] == row.updateIP
    ensures TextOrNone(m, SubjectList) == row.subjects && TextOrNone(m, KeeperList) == row.keepers
    ensures TextOrNone(m, Parent) == row.parent
  {
    assert TextColumn(row, Name).Some? && TextColumn(row, TeacherList).Some? && TextColumn(row, StudentList).Some?;
    assert TextColumn(row, MeetingList).Some? && TextColumn(row, Deleted).Some? && TextColumn(row, PlatformData).Some?;
    assert TextColumn(row, UpdateIP).Some? && TextColumn(row, SubjectList).Some? && TextColumn(row, KeeperList).Some?;
    assert TextColumn(row, Parent).Some?;
  }

  /** A hash that shows a row reads as that row, but for the two fields that are no columns. */
  lemma ShownIsRead(m: Fields, row: Row, id: int)
    requires Shows(m, row)
    ensures FromFields(m, id) == Some(InfoOf(row, id).(schedule := TextOrNone(m, Schedule), nextTime := NumberOrZero(m, NextTime)))
  {
    NumbersAreRead(m, row);
    NumberFields(f => Number(m, f), row);
    TextFields(m, row);
  }

  function TextsOf(row: Row): Fields {
    map f: Field | TextColumn(row, f).Some? :: TextColumn(row, f).value
  }

  function NumbersOf(row: Row): map<Field, int> {
    map f: Field | NumberColumn(row, f).Some? :: NumberColumn(row, f).value
  }

  function Printed(numbers: map<Field, int>): Fields {
    map f | f in numbers :: Itoa(numbers[f])
  }

  /** A hash after all columns of a row were written over it. */
  function Written(before: Fields, row: Row): Fields {
    before + TextsOf(row) + Printed(NumbersOf(row))
  }

  lemma WrittenTexts(before: Fields, row: Row)
    ensures ShowsTexts(Written(before, row), row)
  {
    forall f: Field | TextColumn(row, f).Some?
      ensures f in Written(before, row) && Written(before, row)[f] == TextColumn(row, f).value
    {
      assert NumberColumn(row, f).None?;
    }
  }

  lemma WrittenNumbers(before: Fields, row: Row)
    ensures ShowsNumbers(Written(before, row), row)
  {
    forall f: Field | NumberColumn(row, f).Some?
      ensures f in Written(before, row) && Written(before, row)[f] == Itoa(NumberColumn(row, f).value)
    {
      assert f in Printed(NumbersOf(row));
    }
  }

  lemma LeftAlone(before: Fields, row: Row, f: Field)
    requires TextColumn(row, f).None? && NumberColumn(row, f).None?
    ensures f in Written(before, row) <==> f in before
    ensures f in before ==> Written(before, row)[f] == before[f]
  {}

  /** The written hash shows the row. */
  lemma WrittenShows(before: Fields, row: Row)
    ensures Shows(Written(before, row), row)
  {
    WrittenTexts(before, row);
    WrittenNumbers(before, row);
  }

  /** It keeps what are no columns. */
  lemma WrittenKeeps(before: Fields, row: Row)
    ensures TextOrNone(Written(before, row), Schedule) == TextOrNone(before, Schedule)
    ensures NumberOrZero(Written(before, row), NextTime) == NumberOrZero(before, NextTime)
  {
    LeftAlone(before, row, Schedule);
    LeftAlone(before, row, NextTime);
  }

  // ------------------------------------------------------------------ the service

  method Need(m: Fields, f: Field) returns (n: Option<int>)
    ensures n == Number(m, f)
  {
    if f !in m {
      return None;
    }
    return Atoi(m[f]);
  }

  method NewClassInfoFromMap(m: Fields, id: int) returns (ci: Option<ClassInfo>)
    ensures ci == FromFields(m, id)
  {
    if Name !in m || TeacherList !in m || StudentList !in m || MeetingList !in m || Deleted !in m {
      return None;
    }
    var nfm := Need(m, Finished);
    var gdCourseID := Need(m, CourseID);
    var gID := Need(m, GroupID);
    var platformID := Need(m, PlatformID);
    if nfm.None? || gdCourseID.None? || gID.None? || platformID.None? || PlatformData !in m {
      return None;
    }
    var st := Need(m, StartTime);
    var et := Need(m, EndTime);
    var ut := Need(m, UpdateTime);
    var ur := Need(m, Updater);
    if st.None? || et.None? || ut.None? || ur.None? || UpdateIP !in m {
      return None;
    }
    var subjects := StringToIntArray(TextOrNone(m, SubjectList));
    var teachers := StringToIntArray(m[TeacherList]);
    var students := StringToIntArray(m[StudentList]);
    var meetings := StringToIntArray(m[MeetingList]);
    var deleted := StringToIntArray(m[Deleted]);
    var parent := StringToIntArray(TextOrNone(m, Parent));
    return Some(ClassInfo(
      id, m[Name], subjects, teachers, TextOrNone(m, KeeperList), students, meetings, deleted, nfm.value, parent,
      gID.value, gdCourseID.value, NumberOrZero(m, Template), platformID.value, m[PlatformData], NumberOrZero(m, Ally),
      st.value, et.value, TextOrNone(m, Schedule), NumberOrZero(m, NextTime), ut.value, m[UpdateIP], ur.value));
  }

  datatype Store = Store(rows: map<int, Row>, cached: map<int, Fields>)

  function HashOf(s: Store, id: int): Fields {
    if id in s.cached then s.cached[id] else map[]
  }

  /** Reading a class, and the store after it. */
  function Fetched(s: Store, id: int): (Store, Option<ClassInfo>) {
    var read := if id in s.cached then FromFields(s.cached[id], id) else None;
    if read.Some? then (s, read)
    else if id !in s.rows then (s, None)
    else (s.(cached := s.cached[id := Written(HashOf(s, id), s.rows[id])]), Some(InfoOf(s.rows[id], id)))
  }

  method TextColumns(row: Row) returns (m: Fields)
    ensures m == TextsOf(row)
  {
    m := map[Name := row.name, SubjectList := row.subjects, TeacherList := row.teachers, KeeperList := row.keepers,
             StudentList := row.students, MeetingList := row.meetings, Deleted := row.deleted, Parent := row.parent,
             PlatformData := row.platformData, UpdateIP := row.updateIP];
  }

  method NumberColumns(row: Row) returns (m: map<Field, int>)
    ensures m == NumbersOf(row)
  {
    m := map[Finished := row.finished, GroupID := row.group, CourseID := row.course, Template := row.template,
             PlatformID := row.platform, Ally := row.ally, StartTime := row.startTime, EndTime := row.endTime,
             UpdateTime := row.updateTime, Updater := row.updater];
  }

  /** Fields are written over whatever the hash held. */
  method WriteFields(before: Fields, row: Row) returns (m: Fields)
    ensures m == Written(before, row)
  {
    var texts := TextColumns(row);
    var numbers := NumberColumns(row);
    m := before + texts + Printed(numbers);
  }

  // ------------------------------------------------------------ reading it twice

  /** After a first read that filled the cache over an unreadable hash, the second read
      answers as the first iff the hash held no schedule and no next time. */
  lemma SecondReadAgrees(before: Fields, m: Fields, row: Row, id: int)
    requires Shows(m, row) && FromFields(before, id).None?
    requires TextOrNone(m, Schedule) == TextOrNone(before, Schedule)
    requires NumberOrZero(m, NextTime) == NumberOrZero(before, NextTime)
    ensures FromFields(m, id).Some?
    ensures FromFields(m, id) == Some(InfoOf(row, id))
            <==> TextOrNone(before, Schedule) == "" && NumberOrZero(before, NextTime) == 0
  {
    ShownIsRead(m, row, id);
  }

  /** Any class whose hash holds a schedule and nothing else: the first read has no schedule,
      the second one has. */
  lemma LeftoverSchedule(row: Row, id: int, schedule: string)
    requires schedule != ""
    ensures var s := Store(map[id := row], map[id := map[Schedule := schedule]]);
      var (s1, first) := Fetched(s, id);
      var (s2, second) := Fetched(s1, id);
      && first == Some(InfoOf(row, id)) && second == Some(InfoOf(row, id).(schedule := schedule))
      && first != second
  {
    var before: Fields := map[Schedule := schedule];
    assert !Readable(before);
    WrittenShows(before, row);
    WrittenKeeps(before, row);
    ShownIsRead(Written(before, row), row, id);
  }

  predicate HasText(row: Row, f: Field, text: string) {
    if TextColumn(row, f).Some? then TextColumn(row, f).value == text
    else NumberColumn(row, f).Some? && text == Itoa(NumberColumn(row, f).value)
  }

  ghost predicate SameBut(row: Row, row': Row, f: Field) {
    forall g: Field :: g != f ==> TextColumn(row', g) == TextColumn(row, g) && NumberColumn(row', g) == NumberColumn(row, g)
  }

  lemma ChangedShows(m: Fields, row: Row, row': Row, f: Field, text: string)
    requires Shows(m, row) && HasText(row', f, text) && SameBut(row, row', f)
    ensures Shows(m[f := text], row')
  {
    assert TextColumn(row', f).None? || NumberColumn(row', f).None?;
  }

  lemma OtherFieldsStay(m: Fields, row': Row, f: Field, text: string)
    requires HasText(row', f, text)
    ensures TextOrNone(m[f := text], Schedule) == TextOrNone(m, Schedule)
    ensures NumberOrZero(m[f := text], NextTime) == NumberOrZero(m, NextTime)
  {
    assert f != Schedule && f != NextTime;
  }

  /** A column changed in the row and in the copy that shows it is read back from the copy. */
  lemma WritingBothSides(m: Fields, row: Row, row': Row, f: Field, text: string, id: int)
    requires Shows(m, row) && HasText(row', f, text) && SameBut(row, row', f)
    ensures Shows(m[f := text], row')
    ensures FromFields(m[f := text], id)
         == Some(InfoOf(row', id).(schedule := TextOrNone(m, Schedule), nextTime := NumberOrZero(m, NextTime)))
  {
    ChangedShows(m, row, row', f, text);
    OtherFieldsStay(m, row', f, text);
    ShownIsRead(m[f := text], row', id);
  }

  // ------------------------------------------------- column by column

  const TEXTS_NEEDED: set<Field> := {Name, TeacherList, StudentList, MeetingList, Deleted, PlatformData, UpdateIP}
  const NUMBERS_NEEDED: set<Field> := {Finished, CourseID, GroupID, PlatformID, StartTime, EndTime, UpdateTime, Updater}

  /** A hash can be read when it has seven texts and eight numbers; nothing else is needed. */
  lemma NeededFields(m: Fields, id: int)
    ensures FromFields(m, id).Some?
        <==> TEXTS_NEEDED <= m.Keys && forall f :: f in NUMBERS_NEEDED ==> f in m && Atoi(m[f]).Some?
  {}

  lemma ShownTexts(m: Fields, row: Row)
    requires ShowsTexts(m, row)
    ensures TextsStand(m, row)
  {
    TextFields(m, row);
    assert TextColumn(row, SubjectList).Some? && TextColumn(row, KeeperList).Some? && TextColumn(row, Parent).Some?;
  }

  predicate Stands(m: Fields, f: Field, n: int) {
    f in m && m[f] == Itoa(n)
  }

  lemma ShownNumber(m: Fields, row: Row, f: Field, n: int)
    requires ShowsNumbers(m, row) && NumberColumn(row, f) == Some(n)
    ensures Stands(m, f, n)
  {}

  lemma ShownIds(m: Fields, row: Row)
    requires ShowsNumbers(m, row)
    ensures IdsStand(m, row)
  {
    ShownNumber(m, row, GroupID, row.group);
    ShownNumber(m, row, CourseID, row.course);
    ShownNumber(m, row, Template, row.template);
    ShownNumber(m, row, PlatformID, row.platform);
    ShownNumber(m, row, Ally, row.ally);
  }

  lemma ShownTimes(m: Fields, row: Row)
    requires ShowsNumbers(m, row)
    ensures TimesStand(m, row)
  {
    ShownNumber(m, row, Finished, row.finished);
    ShownNumber(m, row, StartTime, row.startTime);
    ShownNumber(m, row, EndTime, row.endTime);
    ShownNumber(m, row, UpdateTime, row.updateTime);
    ShownNumber(m, row, Updater, row.updater);
  }

  /** What stands in a hash that shows a row. */
  lemma ShownColumns(m: Fields, row: Row)
    requires Shows(m, row)
    ensures TextsStand(m, row) && IdsStand(m, row) && TimesStand(m, row)
  {
    ShownTexts(m, row);
    ShownIds(m, row);
    ShownTimes(m, row);
  }

  predicate TextsStand(m: Fields, row: Row) {
    && TEXTS_NEEDED + {SubjectList, KeeperList, Parent} <= m.Keys
    && m[Name] == row.name && m[SubjectList] == row.subjects && m[TeacherList] == row.teachers
    && m[KeeperList] == row.keepers && m[StudentList] == row.students && m[MeetingList] == row.meetings
    && m[Deleted] == row.deleted && m[Parent] == row.parent && m[PlatformData] == row.platformData
    && m[UpdateIP] == row.updateIP
  }

  predicate IdsStand(m: Fields, row: Row) {
    && Stands(m, GroupID, row.group) && Stands(m, CourseID, row.course) && Stands(m, Template, row.template)
    && Stands(m, PlatformID, row.platform) && Stands(m, Ally, row.ally)
  }

  predicate TimesStand(m: Fields, row: Row) {
    && Stands(m, Finished, row.finished) && Stands(m, StartTime, row.startTime) && Stands(m, EndTime, row.endTime)
    && Stands(m, UpdateTime, row.updateTime) && Stands(m, Updater, row.updater)
  }

  /** What is read from any hash, the seven fields that may be missing included. */
  lemma ReadFields(m: Fields, id: int)
    requires FromFields(m, id).Some?
    ensures var i := FromFields(m, id).value;
      && i.id == id && i.name == m[Name] && i.teachers == ParseInts(m[TeacherList])
      && i.students == ParseInts(m[StudentList]) && i.meetings == ParseInts(m[MeetingList])
      && i.deleted == ParseInts(m[Deleted]) && i.platformData == m[PlatformData] && i.updateIP == m[UpdateIP]
      && Some(i.finished) == Atoi(m[Finished]) && Some(i.group) == Atoi(m[GroupID])
      && Some(i.course) == Atoi(m[CourseID]) && Some(i.platform) == Atoi(m[PlatformID])
      && Some(i.startTime) == Atoi(m[StartTime]) && Some(i.endTime) == Atoi(m[EndTime])
      && Some(i.updateTime) == Atoi(m[UpdateTime]) && Some(i.updater) == Atoi(m[Updater])
    ensures var i := FromFields(m, id).value;
      && i.subjects == (if SubjectList in m then ParseInts(m[SubjectList]) else [])
      && i.keepers == (if KeeperList in m then m[KeeperList] else "")
      && i.parent == (if Parent in m then ParseInts(m[Parent]) else [])
      && i.schedule == (if Schedule in m then m[Schedule] else "")
      && i.template == (if Template in m && Atoi(m[Template]).Some? then Atoi(m[Template]).value else 0)
      && i.ally == (if Ally in m && Atoi(m[Ally]).Some? then Atoi(m[Ally]).value else 0)
      && i.nextTime == (if NextTime in m && Atoi(m[NextTime]).Some? then Atoi(m[NextTime]).value else 0)
  {}

  /** What a row is read as. */
  lemma ReadColumns(row: Row, id: int)
    ensures var i := InfoOf(row, id);
      && i.id == id && i.name == row.name && i.subjects == ParseInts(row.subjects) && i.teachers == ParseInts(row.teachers)
      && i.keepers == row.keepers && i.students == ParseInts(row.students) && i.meetings == ParseInts(row.meetings)
      && i.deleted == ParseInts(row.deleted) && i.finished == row.finished && i.parent == ParseInts(row.parent)
      && i.group == row.group && i.course == row.course && i.template == row.template && i.platform == row.platform
      && i.platformData == row.platformData && i.ally == row.ally && i.startTime == row.startTime
      && i.endTime == row.endTime && i.schedule == "" && i.nextTime == 0 && i.updateTime == row.updateTime
      && i.updateIP == row.updateIP && i.updater == row.updater
  {}
}
