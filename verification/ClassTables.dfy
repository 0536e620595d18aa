/** The class tables and their Redis copies, and every service call as a step on them.
    Lists are sequences of ids; NumberListOperations and SortedAddedOnNumbers in
    StringLists show that the stored comma texts behave like these sequences. */
module ClassTables {
  import opened StringLists
  import opened Texts

  datatype ClassRow = ClassRow(
    group: int, isPackage: bool,
    teachers: seq<int>, students: seq<int>,
    meetings: seq<int>, deleted: seq<int>, finished: int,
    endTime: int, parent: seq<int>, children: seq<int>)

  /** Number of rows for a (user, meeting) pair; the table has no unique key. */
  type ProgressRows = map<(int, int), nat>

  datatype Tables = Tables(
    classes: map<int, ClassRow>,
    meetings: map<int, int>,
    userClasses: map<int, seq<int>>,
    progress: ProgressRows,
    cache: map<int, ClassRow>,
    userCache: map<int, seq<int>>,
    listing: set<(int, int)>,
    nextClass: int, nextMeeting: int)

  const EMPTY: Tables := Tables(map[], map[], map[], map[], map[], map[], {}, 1, 1)

  // ------------------------------------------------------------ list helpers

  function ListAdd(n: int, l: seq<int>): seq<int> {
    if n in l then l else l + [n]
  }

  function SortedAdd(n: int, l: seq<int>): seq<int> {
    if n in l then l else if l == [] then [n] else Insert(n, Sorted(l))
  }

  function Rows(p: ProgressRows, user: int, m: int): nat {
    if (user, m) in p then p[(user, m)] else 0
  }

  function InsertRow(p: ProgressRows, user: int, m: int): ProgressRows {
    p[(user, m) := Rows(p, user, m) + 1]
  }

  function InsertRows(p: ProgressRows, users: seq<int>, m: int): ProgressRows {
    if users == [] then p
    else InsertRow(InsertRows(p, users[..|users| - 1], m), users[|users| - 1], m)
  }

  function UserList(lists: map<int, seq<int>>, user: int): seq<int> {
    if user in lists then lists[user] else []
  }

  // ------------------------------------------------------------------ GetClass

  /** A class record comes from the cache, or else from the table. */
  function Found(t: Tables, c: int): Option<ClassRow> {
    if c in t.cache then Some(t.cache[c]) else if c in t.classes then Some(t.classes[c]) else None
  }

  /** Reading a class fills the cache. */
  function Fetched(t: Tables, c: int): Tables {
    if c in t.cache || c !in t.classes then t else t.(cache := t.cache[c := t.classes[c]])
  }

  // ---------------------------------------------------------------- AddClass

  function AddClass(t: Tables, group: int, isPackage: bool): Tables {
    var row := ClassRow(group, isPackage, [], [], [], [], 0, 0, [], []);
    var id := t.nextClass;
    t.(classes := t.classes[id := row], cache := t.cache[id := row],
       listing := t.listing + {(group, id)}, nextClass := id + 1)
  }

  function EndClass(t: Tables, c: int, now: int): Tables
    requires c in t.classes && c in t.cache
  {
    t.(classes := t.classes[c := t.classes[c].(endTime := now)],
       cache := t.cache[c := t.cache[c].(endTime := now)])
  }

  // -------------------------------------------------------------- ChangeUser

  function Roster(r: ClassRow, isTeacher: bool): seq<int> {
    if isTeacher then r.teachers else r.students
  }

  function WithRoster(r: ClassRow, isTeacher: bool, l: seq<int>): ClassRow {
    if isTeacher then r.(teachers := l) else r.(students := l)
  }

  function NewRoster(l: seq<int>, user: int, add: bool): seq<int> {
    if add then ListAdd(user, l) else Without(l, user)
  }

  function WriteRoster(t: Tables, user: int, c: int, isTeacher: bool, add: bool): Tables
    requires c in t.classes && c in t.cache
  {
    var l := NewRoster(Roster(t.classes[c], isTeacher), user, add);
    t.(classes := t.classes[c := WithRoster(t.classes[c], isTeacher, l)],
       cache := t.cache[c := WithRoster(t.cache[c], isTeacher, l)])
  }

  /** A user without a row gets one that holds the class, even on removal. */
  function NewUserList(t: Tables, user: int, c: int, add: bool): seq<int> {
    if user !in t.userClasses then [c]
    else if add then SortedAdd(c, t.userClasses[user])
    else Without(t.userClasses[user], c)
  }

  function WriteUserList(t: Tables, user: int, c: int, add: bool): Tables {
    var l := NewUserList(t, user, c, add);
    if user in t.userClasses && (if add then c in t.userClasses[user] else c !in t.userClasses[user]) then t
    else t.(userClasses := t.userClasses[user := l], userCache := t.userCache[user := l])
  }

  /** The current meetings the user has no row for. */
  function Missing(t: Tables, user: int, ml: seq<int>): set<int> {
    set m | m in ml && (user, m) !in t.progress
  }

  function WithRows(p: ProgressRows, user: int, ms: set<int>): ProgressRows {
    p + map m | m in ms :: (user, m) := 1
  }

  function ChangeUser(t: Tables, user: int, c: int, isTeacher: bool, add: bool): Tables
    requires c in t.classes && c in t.cache
  {
    var t1 := WriteUserList(WriteRoster(t, user, c, isTeacher, add), user, c, add);
    if add && !isTeacher
    then t1.(progress := WithRows(t1.progress, user, Missing(t1, user, t.classes[c].meetings)))
    else t1
  }

  // ---------------------------------------------------------------- meetings

  function AddMeeting(t: Tables, c: int): Tables
    requires c in t.classes && c in t.cache
  {
    var m := t.nextMeeting;
    var ml := ListAdd(m, t.classes[c].meetings);
    t.(meetings := t.meetings[m := 0], nextMeeting := m + 1,
       progress := InsertRows(t.progress, t.cache[c].students, m),
       classes := t.classes[c := t.classes[c].(meetings := ml)],
       cache := t.cache[c := t.cache[c].(meetings := ml)])
  }

  function EndMeeting(t: Tables, c: int, m: int, now: int): Tables
    requires c in t.classes && c in t.cache
  {
    t.(meetings := t.meetings[m := now],
       classes := t.classes[c := t.classes[c].(finished := t.classes[c].finished + 1)],
       cache := t.cache[c := t.cache[c].(finished := t.cache[c].finished + 1)])
  }

  predicate Ended(meetings: map<int, int>, m: int) {
    m in meetings && meetings[m] > 0
  }

  /** The cached counter is clamped at zero, the stored one is not. */
  function DeleteMeeting(t: Tables, m: int, c: int): Tables
    requires c in t.classes && c in t.cache
  {
    var row := t.classes[c];
    var ml, dl := Without(row.meetings, m), ListAdd(m, row.deleted);
    var one := if Ended(t.meetings, m) then 1 else 0;
    var n := t.cache[c].finished - one;
    t.(classes := t.classes[c := row.(meetings := ml, deleted := dl, finished := row.finished - one)],
       cache := t.cache[c := t.cache[c].(meetings := ml, deleted := dl, finished := if one == 1 && n < 0 then 0 else n)])
  }

  /** Meetings m of the source, in order, get the ids from id on. */
  function Ids(id: int, n: nat): (ids: seq<int>)
    ensures |ids| == n && forall i :: 0 <= i < n ==> ids[i] == id + i
  {
    seq(n, i => id + i)
  }

  function CloneMeetings(t: Tables, n: nat): Tables {
    t.(meetings := t.meetings + (map m | m in Ids(t.nextMeeting, n) :: 0), nextMeeting := t.nextMeeting + n)
  }

  function CloneClass(t: Tables, c: int, group: int, isPackage: bool): Tables
    requires c in t.cache
  {
    var id := t.nextClass;
    var n := |t.cache[c].meetings|;
    var t1 := CloneMeetings(AddClass(t, group, isPackage), n);
    var ml := Ids(t.nextMeeting, n);
    t1.(classes := t1.classes[id := t1.classes[id].(meetings := ml)],
        cache := t1.cache[id := t1.cache[id].(meetings := ml)])
  }

  // ------------------------------------------------------------- DeleteClass

  function Dropped(lists: map<int, seq<int>>, users: set<int>, c: int): map<int, seq<int>> {
    map u | u in lists :: if u in users then Without(lists[u], c) else lists[u]
  }

  /** The users whose stored list changes. */
  function Affected(lists: map<int, seq<int>>, users: set<int>, c: int): set<int> {
    set u | u in lists && u in users && c in lists[u]
  }

  function DropFromLists(t: Tables, users: set<int>, c: int): Tables {
    var hit := Affected(t.userClasses, users, c);
    t.(userClasses := Dropped(t.userClasses, users, c),
       userCache := t.userCache + map u | u in hit :: Without(t.userClasses[u], c))
  }

  /** A deleted meeting goes for good, with its rows; one that is gone already is skipped. */
  function Purge(t: Tables, ms: set<int>): Tables {
    t.(meetings := t.meetings - ms,
       progress := map q | q in t.progress && q.1 !in ms :: t.progress[q])
  }

  function Members(l: seq<int>): (s: set<int>)
    ensures forall x :: x in s <==> x in l
  {
    set x | x in l
  }

  function DeleteClass(t: Tables, c: int, mayPurge: set<int>): Tables
    requires c in t.cache
  {
    var r := t.cache[c];
    var t1 := t.(classes := t.classes - {c}, cache := t.cache - {c}, listing := t.listing - {(r.group, c)});
    var t2 := DropFromLists(t1, Members(r.students) + Members(r.teachers), c);
    Purge(t2, Members(r.deleted) * mayPurge * t2.meetings.Keys)
  }

  // -------------------------------------------------------------- sub-classes

  function AddSubClass(t: Tables, c: int, s: int): Tables
    requires c in t.classes && c in t.cache && s in t.classes && s in t.cache
  {
    var cl := ListAdd(s, t.classes[c].children);
    var t1 := t.(classes := t.classes[c := t.classes[c].(children := cl)],
                 cache := t.cache[c := t.cache[c].(children := cl)],
                 listing := t.listing - {(t.cache[s].group, s)});
    var pl := ListAdd(c, t1.classes[s].parent);
    t1.(classes := t1.classes[s := t1.classes[s].(parent := pl)],
        cache := t1.cache[s := t1.cache[s].(parent := pl)])
  }

  function DeleteSubClass(t: Tables, c: int, s: int): Tables
    requires c in t.classes && c in t.cache && s in t.classes && s in t.cache
  {
    var cl := Without(t.classes[c].children, s);
    var t1 := t.(classes := t.classes[c := t.classes[c].(children := cl)],
                 cache := t.cache[c := t.cache[c].(children := cl)]);
    var pl := Without(t1.classes[s].parent, c);
    t1.(classes := t1.classes[s := t1.classes[s].(parent := pl)],
        cache := t1.cache[s := t1.cache[s].(parent := pl)],
        listing := if pl == [] then t1.listing + {(t1.cache[s].group, s)} else t1.listing)
  }

  // -------------------------------------------------------------------- calls

  /** The verdicts of checks on the session, the clock and the input texts are inputs
      of a call. The last three calls are not the program's: a cache entry may be lost,
      and a user's list may be loaded, at any time. */
  datatype Call =
    | CallAddClass(group: int, isPackage: bool, valid: bool)
    | CallGetClass(c: int)
    | CallEndClass(c: int, allowed: bool, now: int)
    | CallChangeUser(user: int, c: int, isTeacher: bool, add: bool, allowed: bool)
    | CallAddMeeting(c: int, allowed: bool, valid: bool)
    | CallCopyMeetingTo(m: int, c: int, allowed: bool, valid: bool)
    | CallEndMeeting(c: int, m: int, allowed: bool, started: bool, now: int)
    | CallDeleteMeeting(m: int, c: int, isSystem: bool, allowed: bool)
    | CallCloneClass(c: int, group: int, isPackage: bool, allowed: bool, valid: bool)
    | CallDeleteClass(c: int, allowed: bool, mayPurge: set<int>)
    | CallAddSubClass(c: int, s: int, allowed: bool, allowedSub: bool)
    | CallDeleteSubClass(c: int, s: int, allowed: bool, allowedSub: bool)
    | Evict(c: int)
    | EvictUser(user: int)
    | LoadUser(user: int)

  /** Clock readings are positive. */
  predicate Timely(call: Call) {
    match call
    case CallEndClass(_, _, now) => now > 0
    case CallEndMeeting(_, _, _, _, now) => now > 0
    case _ => true
  }

  /** The record a call works on, once its session may see it. */
  function Seen(t: Tables, c: int, allowed: bool): Option<ClassRow> {
    if allowed && c in t.classes then Found(t, c) else None
  }

  function Apply(t: Tables, call: Call): Tables {
    match call
    case CallAddClass(group, isPackage, valid) =>
      if valid then AddClass(t, group, isPackage) else t
    case CallGetClass(c) => Fetched(t, c)
    case CallEndClass(c, allowed, now) =>
      (match Seen(t, c, allowed)
       case None => Fetched(t, c)
       case Some(ci) => if ci.endTime > 0 then Fetched(t, c) else EndClass(Fetched(t, c), c, now))
    case CallChangeUser(user, c, isTeacher, add, allowed) =>
      (match Seen(t, c, allowed)
       case None => Fetched(t, c)
       case Some(ci) =>
         if add == (user in Roster(ci, isTeacher)) then Fetched(t, c)
         else ChangeUser(Fetched(t, c), user, c, isTeacher, add))
    case CallAddMeeting(c, allowed, valid) =>
      if Seen(t, c, allowed).Some? && valid then AddMeeting(Fetched(t, c), c) else Fetched(t, c)
    case CallCopyMeetingTo(m, c, allowed, valid) =>
      if m !in t.meetings then t
      else if Seen(t, c, allowed).Some? && valid then AddMeeting(Fetched(t, c), c) else Fetched(t, c)
    case CallEndMeeting(c, m, allowed, started, now) =>
      (match Seen(t, c, allowed)
       case None => Fetched(t, c)
       case Some(ci) =>
         if m !in ci.meetings || m !in t.meetings || Ended(t.meetings, m) || !started then Fetched(t, c)
         else EndMeeting(Fetched(t, c), c, m, now))
    case CallDeleteMeeting(m, c, isSystem, allowed) =>
      (match Seen(t, c, allowed)
       case None => Fetched(t, c)
       case Some(ci) =>
         if (!isSystem && ci.endTime > 0) || m !in ci.meetings || m !in t.meetings then Fetched(t, c)
         else DeleteMeeting(Fetched(t, c), m, c))
    case CallCloneClass(c, group, isPackage, allowed, valid) =>
      if Seen(t, c, allowed).Some? && valid then CloneClass(Fetched(t, c), c, group, isPackage) else Fetched(t, c)
    case CallDeleteClass(c, allowed, mayPurge) =>
      (match Seen(t, c, allowed)
       case None => Fetched(t, c)
       case Some(ci) =>
         if (if ci.isPackage then ci.children != [] else ci.meetings != []) then Fetched(t, c)
         else DeleteClass(Fetched(t, c), c, mayPurge))
    case CallAddSubClass(c, s, allowed, allowedSub) =>
      (match Seen(t, c, allowed)
       case None => Fetched(t, c)
       case Some(ci) =>
         if !ci.isPackage || s in ci.children then Fetched(t, c)
         else if Seen(t, s, allowedSub).None? then Fetched(Fetched(t, c), s)
         else AddSubClass(Fetched(Fetched(t, c), s), c, s))
    case CallDeleteSubClass(c, s, allowed, allowedSub) =>
      (match Seen(t, c, allowed)
       case None => Fetched(t, c)
       case Some(ci) =>
         if !ci.isPackage || s !in ci.children then Fetched(t, c)
         else if Seen(t, s, allowedSub).None? then Fetched(Fetched(t, c), s)
         else DeleteSubClass(Fetched(Fetched(t, c), s), c, s))
    case Evict(c) => t.(cache := t.cache - {c})
    case EvictUser(user) => t.(userCache := t.userCache - {user})
    case LoadUser(user) =>
      if user in t.userClasses && user !in t.userCache then t.(userCache := t.userCache[user := t.userClasses[user]]) else t
  }
}
