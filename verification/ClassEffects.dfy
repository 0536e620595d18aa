/** What each service call does to the tables, in their own fields: which guards let it
    through, what it writes then, and that it only reads otherwise. */
module ClassEffects {
  import opened StringLists
  import opened ClassTables
  import opened Texts
  import opened ClassInvariants
  import opened ClassRuns

  /** Nothing but the class's record in the cache. */
  predicate OnlyRead(t: Tables, t': Tables, c: int) {
    t' == if c in t.classes then t.(cache := t.cache[c := t.classes[c]]) else t
  }

  /** One class's row and record replaced alike. */
  predicate RowBecomes(t: Tables, t': Tables, c: int, row: ClassRow) {
    t'.classes == t.classes[c := row] && t'.cache == t.cache[c := row]
  }

  predicate SameUsers(t: Tables, t': Tables) {
    t'.userClasses == t.userClasses && t'.userCache == t.userCache
  }

  predicate SameMeetingRows(t: Tables, t': Tables) {
    t'.meetings == t.meetings && t'.nextMeeting == t.nextMeeting && t'.progress == t.progress
  }

  lemma ReadOnly(t: Tables, c: int)
    requires CacheInv(t)
    ensures OnlyRead(t, Fetched(t, c), c)
    ensures c in t.classes ==> Found(t, c) == Some(t.classes[c])
  {}

  lemma GetClassCall(t: Tables, c: int)
    requires Core(t)
    ensures OnlyRead(t, Apply(t, CallGetClass(c)), c)
  {
    ReadOnly(t, c);
  }

  lemma AddClassCall(t: Tables, group: int, isPackage: bool, valid: bool)
    requires Core(t)
    ensures var t' := Apply(t, CallAddClass(group, isPackage, valid));
      if valid
      then
        && RowBecomes(t, t', t.nextClass, ClassRow(group, isPackage, [], [], [], [], 0, 0, [], []))
        && t.nextClass !in t.classes && t'.nextClass == t.nextClass + 1
        && t'.listing == t.listing + {(group, t.nextClass)}
        && SameUsers(t, t') && SameMeetingRows(t, t')
      else t' == t
  {}

  lemma EndClassCall(t: Tables, c: int, allowed: bool, now: int)
    requires Core(t)
    ensures var t' := Apply(t, CallEndClass(c, allowed, now));
      if allowed && c in t.classes && t.classes[c].endTime <= 0
      then
        && RowBecomes(t, t', c, t.classes[c].(endTime := now))
        && SameUsers(t, t') && SameMeetingRows(t, t') && t'.listing == t.listing && t'.nextClass == t.nextClass
      else OnlyRead(t, t', c)
  {
    ReadOnly(t, c);
  }

  /** One row more for each of these users, in one meeting. */
  ghost predicate RowsFor(p: ProgressRows, p': ProgressRows, users: seq<int>, m: int) {
    && (forall u, k :: (u, k) in p' <==> (u, k) in p || (k == m && u in users))
    && (forall u, k :: (u, k) in p' ==> p'[(u, k)] == if (u, k) in p then p[(u, k)] else 1)
  }

  ghost predicate MeetingAdded(t: Tables, t': Tables, c: int)
    requires c in t.classes
  {
    && RowBecomes(t, t', c, t.classes[c].(meetings := t.classes[c].meetings + [t.nextMeeting]))
    && t.nextMeeting !in t.meetings && t'.meetings == t.meetings[t.nextMeeting := 0]
    && t'.nextMeeting == t.nextMeeting + 1
    && RowsFor(t.progress, t'.progress, t.classes[c].students, t.nextMeeting)
    && SameUsers(t, t') && t'.listing == t.listing && t'.nextClass == t.nextClass
  }

  /** What is done to a class that was read is done to it. */
  lemma ReadFirst(t: Tables, f: Tables, t': Tables, c: int, row: ClassRow)
    requires OnlyRead(t, f, c) && c in t.classes && RowBecomes(f, t', c, row)
    ensures RowBecomes(t, t', c, row)
  {}

  lemma AddedToCached(f: Tables, c: int)
    requires Core(f) && c in f.classes && c in f.cache
    ensures MeetingAdded(f, AddMeeting(f, c), c)
  {
    AddMeetingKeeps(f, c);
    assert RowInv(f.classes[c], f.meetings, f.nextMeeting);
    InsertRowsFacts(f.progress, f.classes[c].students, f.nextMeeting);
  }

  lemma MeetingIsAdded(t: Tables, c: int)
    requires Core(t) && c in t.classes
    ensures MeetingAdded(t, AddMeeting(Fetched(t, c), c), c)
  {
    ReadOnly(t, c);
    FetchedSame(t, c);
    var f := Fetched(t, c);
    AddedToCached(f, c);
    ReadFirst(t, f, AddMeeting(f, c), c, t.classes[c].(meetings := t.classes[c].meetings + [t.nextMeeting]));
  }

  lemma AddMeetingCall(t: Tables, c: int, allowed: bool, valid: bool)
    requires Core(t)
    ensures var t' := Apply(t, CallAddMeeting(c, allowed, valid));
      if allowed && valid && c in t.classes then MeetingAdded(t, t', c) else OnlyRead(t, t', c)
  {
    ReadOnly(t, c);
    if c in t.classes {
      MeetingIsAdded(t, c);
    }
  }

  /** The copy is a new meeting; a meeting that does not exist is not copied, and then the
      class is not even read. */
  lemma CopyMeetingToCall(t: Tables, m: int, c: int, allowed: bool, valid: bool)
    requires Core(t)
    ensures var t' := Apply(t, CallCopyMeetingTo(m, c, allowed, valid));
      if m !in t.meetings then t' == t
      else if allowed && valid && c in t.classes then MeetingAdded(t, t', c)
      else OnlyRead(t, t', c)
  {
    ReadOnly(t, c);
    if c in t.classes {
      MeetingIsAdded(t, c);
    }
  }

  lemma EndMeetingCall(t: Tables, c: int, m: int, allowed: bool, started: bool, now: int)
    requires Core(t)
    ensures var t' := Apply(t, CallEndMeeting(c, m, allowed, started, now));
      if allowed && c in t.classes && m in t.classes[c].meetings && m in t.meetings && t.meetings[m] <= 0 && started
      then
        && RowBecomes(t, t', c, t.classes[c].(finished := t.classes[c].finished + 1))
        && t'.meetings == t.meetings[m := now] && t'.nextMeeting == t.nextMeeting && t'.progress == t.progress
        && SameUsers(t, t') && t'.listing == t.listing && t'.nextClass == t.nextClass
      else OnlyRead(t, t', c)
  {
    ReadOnly(t, c);
  }

  ghost predicate MeetingDeleted(t: Tables, t': Tables, m: int, c: int)
    requires c in t.classes && m in t.meetings
  {
    var row := t.classes[c];
    && m !in row.deleted
    && RowBecomes(t, t', c,
         row.(meetings := Without(row.meetings, m), deleted := row.deleted + [m],
              finished := row.finished - if t.meetings[m] > 0 then 1 else 0))
    && SameMeetingRows(t, t') && SameUsers(t, t') && t'.listing == t.listing && t'.nextClass == t.nextClass
  }

  lemma DeletedFromCached(f: Tables, m: int, c: int)
    requires Core(f) && c in f.classes && c in f.cache && m in f.classes[c].meetings && m in f.meetings
    ensures MeetingDeleted(f, DeleteMeeting(f, m, c), m, c)
  {
    assert RowInv(f.classes[c], f.meetings, f.nextMeeting);
    if f.meetings[m] > 0 {
      ClampNeverTaken(f, m, c);
    }
  }

  lemma MeetingIsDeleted(t: Tables, m: int, c: int)
    requires Core(t) && c in t.classes && m in t.classes[c].meetings && m in t.meetings
    ensures MeetingDeleted(t, DeleteMeeting(Fetched(t, c), m, c), m, c)
  {
    ReadOnly(t, c);
    FetchedSame(t, c);
    var f := Fetched(t, c);
    DeletedFromCached(f, m, c);
    ReadFirst(t, f, DeleteMeeting(f, m, c), c, DeleteMeeting(f, m, c).classes[c]);
  }

  /** The class's end time stops everybody but the system. */
  lemma DeleteMeetingCall(t: Tables, m: int, c: int, isSystem: bool, allowed: bool)
    requires Core(t)
    ensures var t' := Apply(t, CallDeleteMeeting(m, c, isSystem, allowed));
      if allowed && c in t.classes && (isSystem || t.classes[c].endTime <= 0)
         && m in t.classes[c].meetings && m in t.meetings
      then MeetingDeleted(t, t', m, c)
      else OnlyRead(t, t', c)
  {
    ReadOnly(t, c);
    if c in t.classes && m in t.classes[c].meetings && m in t.meetings {
      MeetingIsDeleted(t, m, c);
    }
  }

  /** As many new meetings as the source has, numbered in order, with no rows. */
  ghost predicate Cloned(t: Tables, t': Tables, c: int, group: int, isPackage: bool, ids: seq<int>)
    requires c in t.classes
  {
    var row := ClassRow(group, isPackage, [], [], ids, [], 0, 0, [], []);
    && |ids| == |t.classes[c].meetings| && (forall i :: 0 <= i < |ids| ==> ids[i] == t.nextMeeting + i)
    && t.nextClass !in t.classes && t'.nextClass == t.nextClass + 1
    && t'.classes == t.classes[t.nextClass := row]
    && t'.cache == t.cache[c := t.classes[c]][t.nextClass := row]
    && t'.listing == t.listing + {(group, t.nextClass)}
    && t'.nextMeeting == t.nextMeeting + |ids| && t'.progress == t.progress
    && (forall m :: m in t'.meetings <==> m in t.meetings || m in ids)
    && (forall m :: m in t'.meetings ==> t'.meetings[m] == if m in ids then 0 else t.meetings[m])
    && SameUsers(t, t')
  }

  lemma CloneClassCall(t: Tables, c: int, group: int, isPackage: bool, allowed: bool, valid: bool)
    requires Core(t)
    ensures var t' := Apply(t, CallCloneClass(c, group, isPackage, allowed, valid));
      if allowed && valid && c in t.classes
      then Cloned(t, t', c, group, isPackage, Ids(t.nextMeeting, |t.classes[c].meetings|))
      else OnlyRead(t, t', c)
  {
    ReadOnly(t, c);
    if c in t.classes {
      CloneClassShape(Fetched(t, c), c, group, isPackage);
    }
  }

  // ----------------------------------------------------------------- rosters

  /** The roster with the user at its end, or without the user; the other one as it was. */
  function NewRow(row: ClassRow, user: int, isTeacher: bool, add: bool): ClassRow {
    if isTeacher
    then row.(teachers := if add then row.teachers + [user] else Without(row.teachers, user))
    else row.(students := if add then row.students + [user] else Without(row.students, user))
  }

  /** A user's list of classes after an addition: the class alone where there was no list, as
      it was where the class is listed, else the sorted list with the class; after a removal
      the list without the class, but the class alone where there was no list. */
  ghost predicate ListBecomes(lists: map<int, seq<int>>, lists': map<int, seq<int>>, user: int, c: int, add: bool) {
    && lists'.Keys == lists.Keys + {user}
    && (forall u :: u in lists && u != user ==> lists'[u] == lists[u])
    && (user !in lists ==> lists'[user] == [c])
    && (user in lists && add && c in lists[user] ==> lists'[user] == lists[user])
    && (user in lists && add && c !in lists[user] ==>
          Ascending(lists'[user]) && multiset(lists'[user]) == multiset(lists[user]) + multiset{c})
    && (user in lists && !add ==> lists'[user] == Without(lists[user], c))
  }

  predicate ListStays(lists: map<int, seq<int>>, user: int, c: int, add: bool) {
    user in lists && (if add then c in lists[user] else c !in lists[user])
  }

  ghost predicate UserChanged(t: Tables, t': Tables, user: int, c: int, isTeacher: bool, add: bool)
    requires c in t.classes
  {
    && RowBecomes(t, t', c, NewRow(t.classes[c], user, isTeacher, add))
    && ListBecomes(t.userClasses, t'.userClasses, user, c, add)
    && t'.userCache == (if ListStays(t.userClasses, user, c, add) then t.userCache
                        else t.userCache[user := t'.userClasses[user]])
    && (forall u, m :: (u, m) in t'.progress <==>
          (u, m) in t.progress || (add && !isTeacher && u == user && m in t.classes[c].meetings))
    && (forall u, m :: (u, m) in t'.progress ==>
          t'.progress[(u, m)] == if (u, m) in t.progress then t.progress[(u, m)] else 1)
    && t'.meetings == t.meetings && t'.nextMeeting == t.nextMeeting && t'.listing == t.listing
    && t'.nextClass == t.nextClass
  }

  lemma NewListIs(t: Tables, user: int, c: int, add: bool)
    requires user in t.userClasses
    ensures var l, l' := t.userClasses[user], NewUserList(t, user, c, add);
      && (add && c !in l ==> Ascending(l') && multiset(l') == multiset(l) + multiset{c})
      && (!add ==> l' == Without(l, c))
      && (!add && c !in l ==> l' == l)
  {
    var l := t.userClasses[user];
    InsertedIsSorted(c, l);
    if l == [] {
      assert multiset([c]) == multiset(l) + multiset{c};
    }
    if c !in l {
      WithoutAbsent(l, c);
    }
  }

  lemma NewUserListIs(t: Tables, user: int, c: int, add: bool)
    ensures var t' := WriteUserList(t, user, c, add);
      && ListBecomes(t.userClasses, t'.userClasses, user, c, add)
      && t'.userCache == (if ListStays(t.userClasses, user, c, add) then t.userCache
                          else t.userCache[user := t'.userClasses[user]])
      && t' == t.(userClasses := t'.userClasses, userCache := t'.userCache)
  {
    if user in t.userClasses {
      NewListIs(t, user, c, add);
      if ListStays(t.userClasses, user, c, add) {
        assert t.userClasses.Keys == t.userClasses.Keys + {user};
      }
    }
  }

  lemma RosterBecomes(t: Tables, user: int, c: int, isTeacher: bool, add: bool)
    requires c in t.classes && c in t.cache && t.cache[c] == t.classes[c]
    requires add != (user in Roster(t.classes[c], isTeacher))
    ensures var t' := WriteRoster(t, user, c, isTeacher, add);
      && RowBecomes(t, t', c, NewRow(t.classes[c], user, isTeacher, add))
      && t' == t.(classes := t'.classes, cache := t'.cache)
  {}

  lemma ChangedCached(f: Tables, user: int, c: int, isTeacher: bool, add: bool)
    requires Core(f) && c in f.classes && c in f.cache && add != (user in Roster(f.classes[c], isTeacher))
    ensures UserChanged(f, ChangeUser(f, user, c, isTeacher, add), user, c, isTeacher, add)
  {
    RosterBecomes(f, user, c, isTeacher, add);
    var t1 := WriteRoster(f, user, c, isTeacher, add);
    NewUserListIs(t1, user, c, add);
    var t2 := WriteUserList(t1, user, c, add);
    WithRowsFacts(t2.progress, user, Missing(t2, user, f.classes[c].meetings));
  }

  lemma UserIsChanged(t: Tables, user: int, c: int, isTeacher: bool, add: bool)
    requires Core(t) && c in t.classes && add != (user in Roster(t.classes[c], isTeacher))
    ensures UserChanged(t, ChangeUser(Fetched(t, c), user, c, isTeacher, add), user, c, isTeacher, add)
  {
    ReadOnly(t, c);
    FetchedSame(t, c);
    var f := Fetched(t, c);
    ChangedCached(f, user, c, isTeacher, add);
    ReadFirst(t, f, ChangeUser(f, user, c, isTeacher, add), c, NewRow(t.classes[c], user, isTeacher, add));
  }

  lemma ChangeUserCall(t: Tables, user: int, c: int, isTeacher: bool, add: bool, allowed: bool)
    requires Core(t)
    ensures var t' := Apply(t, CallChangeUser(user, c, isTeacher, add, allowed));
      if allowed && c in t.classes
         && add == (user !in (if isTeacher then t.classes[c].teachers else t.classes[c].students))
      then UserChanged(t, t', user, c, isTeacher, add)
      else OnlyRead(t, t', c)
  {
    ReadOnly(t, c);
    if c in t.classes && add != (user in Roster(t.classes[c], isTeacher)) {
      UserIsChanged(t, user, c, isTeacher, add);
    }
  }

  // ------------------------------------------------------------ deletion, links

  /** The class, its cache entry and its listing go; its users' lists lose it, in the table and,
      where they had it, in the cache; and of its deleted meetings those that may be purged go
      for good with their rows. */
  ghost predicate ClassDeleted(t: Tables, t': Tables, c: int, mayPurge: set<int>)
    requires c in t.classes
  {
    var r := t.classes[c];
    && t'.classes == t.classes - {c} && t'.cache == t.cache - {c} && t'.listing == t.listing - {(r.group, c)}
    && t'.userClasses.Keys == t.userClasses.Keys
    && (forall u :: u in t.userClasses ==>
          t'.userClasses[u] == if OnRoster(r, u) then Without(t.userClasses[u], c) else t.userClasses[u])
    && (forall u :: u in t'.userCache <==>
          u in t.userCache || (u in t.userClasses && OnRoster(r, u) && c in t.userClasses[u]))
    && (forall u :: u in t'.userCache ==> u in t'.userClasses && t'.userCache[u] == t'.userClasses[u])
    && (forall m :: m in t'.meetings <==> m in t.meetings && !(m in r.deleted && m in mayPurge))
    && (forall m :: m in t'.meetings ==> t'.meetings[m] == t.meetings[m])
    && (forall u, m :: (u, m) in t'.progress <==>
          (u, m) in t.progress && !(m in mayPurge && m in r.deleted && m in t.meetings))
    && (forall u, m :: (u, m) in t'.progress ==> t'.progress[(u, m)] == t.progress[(u, m)])
    && t'.nextClass == t.nextClass && t'.nextMeeting == t.nextMeeting
  }

  lemma UsersDropped(f: Tables, users: set<int>, c: int)
    requires CacheInv(f)
    ensures var t' := DropFromLists(f, users, c);
      && t'.userClasses.Keys == f.userClasses.Keys
      && (forall u :: u in f.userClasses ==>
            t'.userClasses[u] == if u in users then Without(f.userClasses[u], c) else f.userClasses[u])
      && (forall u :: u in t'.userCache <==> u in f.userCache || (u in f.userClasses && u in users && c in f.userClasses[u]))
      && (forall u :: u in t'.userCache ==> t'.userCache[u] == t'.userClasses[u])
  {
    DropFromListsCache(f, users, c);
  }

  lemma ClassIsDeleted(t: Tables, c: int, mayPurge: set<int>)
    requires Core(t) && c in t.classes
    ensures ClassDeleted(t, DeleteClass(Fetched(t, c), c, mayPurge), c, mayPurge)
  {
    ReadOnly(t, c);
    FetchedSame(t, c);
    var f, r := Fetched(t, c), t.classes[c];
    DeleteClassShape(f, c, mayPurge);
    UsersDropped(f, Members(r.students) + Members(r.teachers), c);
  }

  lemma DeleteClassCall(t: Tables, c: int, allowed: bool, mayPurge: set<int>)
    requires Core(t)
    ensures var t' := Apply(t, CallDeleteClass(c, allowed, mayPurge));
      if allowed && c in t.classes
         && (if t.classes[c].isPackage then t.classes[c].children == [] else t.classes[c].meetings == [])
      then ClassDeleted(t, t', c, mayPurge)
      else OnlyRead(t, t', c)
  {
    ReadOnly(t, c);
    if c in t.classes {
      ClassIsDeleted(t, c, mayPurge);
    }
  }

  /** The child on the package's list, the package on the child's, and the child off the
      listing of its group. */
  ghost predicate Linked(t: Tables, t': Tables, c: int, s: int)
    requires c in t.classes && s in t.classes
  {
    var (p, q) := (t.classes[c], t.classes[s]);
    var parents := if c in q.parent then q.parent else q.parent + [c];
    && t'.classes.Keys == t.classes.Keys
    && (forall d :: d in t.classes && d != c && d != s ==> t'.classes[d] == t.classes[d])
    && t'.classes[c].children == p.children + [s] && t'.classes[s].parent == parents
    && (c != s ==> t'.classes[c] == p.(children := p.children + [s]) && t'.classes[s] == q.(parent := parents))
    && (c == s ==> t'.classes[c] == p.(children := p.children + [s], parent := parents))
    && t'.cache == t.cache[c := t'.classes[c]][s := t'.classes[s]]
    && t'.listing == t.listing - {(q.group, s)}
    && SameUsers(t, t') && SameMeetingRows(t, t') && t'.nextClass == t.nextClass
  }

  lemma LinkedCached(f: Tables, c: int, s: int)
    requires CacheInv(f) && c in f.classes && c in f.cache && s in f.classes && s in f.cache
    requires s !in f.classes[c].children
    ensures Linked(f, AddSubClass(f, c, s), c, s)
  {}

  lemma LinkedAfterReading(t: Tables, c: int, s: int)
    requires Core(t) && c in t.classes && s in t.classes && s !in t.classes[c].children
    ensures Linked(t, AddSubClass(Fetched(Fetched(t, c), s), c, s), c, s)
  {
    var f := Fetched(Fetched(t, c), s);
    FetchedBoth(t, c, s);
    ReadBoth(t, c, s);
    LinkedCached(f, c, s);
    LinkedThrough(t, f, AddSubClass(f, c, s), c, s);
  }

  lemma LinkedThrough(t: Tables, f: Tables, t': Tables, c: int, s: int)
    requires c in t.classes && s in t.classes && f.classes == t.classes
    requires OnlyReadBoth(t, f, c, s) && Linked(f, t', c, s)
    ensures Linked(t, t', c, s)
  {}

  /** The child is read only for a package that does not list it yet. */
  lemma AddSubClassCall(t: Tables, c: int, s: int, allowed: bool, allowedSub: bool)
    requires Core(t)
    ensures var t' := Apply(t, CallAddSubClass(c, s, allowed, allowedSub));
      if !(allowed && c in t.classes && t.classes[c].isPackage && s !in t.classes[c].children) then OnlyRead(t, t', c)
      else if !(allowedSub && s in t.classes) then OnlyReadBoth(t, t', c, s)
      else Linked(t, t', c, s)
  {
    FetchedBoth(t, c, s);
    ReadOnly(t, c);
    ReadBoth(t, c, s);
    if c in t.classes {
      AddSubClassIs(t, c, s, allowed, allowedSub);
      if s in t.classes && s !in t.classes[c].children {
        LinkedAfterReading(t, c, s);
      }
    }
  }

  predicate OnlyReadBoth(t: Tables, t': Tables, c: int, s: int)
    requires c in t.classes
  {
    t' == if s in t.classes then t.(cache := t.cache[c := t.classes[c]][s := t.classes[s]])
          else t.(cache := t.cache[c := t.classes[c]])
  }

  lemma ReadBoth(t: Tables, c: int, s: int)
    requires CacheInv(t)
    ensures c in t.classes ==> OnlyReadBoth(t, Fetched(Fetched(t, c), s), c, s)
  {
    ReadOnly(t, c);
    FetchedKeeps(t, c);
    ReadOnly(Fetched(t, c), s);
  }

  /** The child off the package's list, the package off the child's; a child without parents
      is listed in its group again. */
  ghost predicate Unlinked(t: Tables, t': Tables, c: int, s: int)
    requires c in t.classes && s in t.classes
  {
    var (p, q) := (t.classes[c], t.classes[s]);
    var children, parents := Without(p.children, s), Without(q.parent, c);
    && t'.classes.Keys == t.classes.Keys
    && (forall d :: d in t.classes && d != c && d != s ==> t'.classes[d] == t.classes[d])
    && (c != s ==> t'.classes[c] == p.(children := children) && t'.classes[s] == q.(parent := parents))
    && (c == s ==> t'.classes[c] == p.(children := children, parent := parents))
    && t'.cache == t.cache[c := t'.classes[c]][s := t'.classes[s]]
    && t'.listing == (if parents == [] then t.listing + {(q.group, s)} else t.listing)
    && SameUsers(t, t') && SameMeetingRows(t, t') && t'.nextClass == t.nextClass
  }

  lemma UnlinkedCached(f: Tables, c: int, s: int)
    requires CacheInv(f) && c in f.classes && c in f.cache && s in f.classes && s in f.cache
    ensures Unlinked(f, DeleteSubClass(f, c, s), c, s)
  {}

  lemma UnlinkedAfterReading(t: Tables, c: int, s: int)
    requires Core(t) && c in t.classes && s in t.classes && s in t.classes[c].children
    ensures Unlinked(t, DeleteSubClass(Fetched(Fetched(t, c), s), c, s), c, s)
  {
    var f := Fetched(Fetched(t, c), s);
    FetchedBoth(t, c, s);
    ReadBoth(t, c, s);
    UnlinkedCached(f, c, s);
    UnlinkedThrough(t, f, DeleteSubClass(f, c, s), c, s);
  }

  lemma UnlinkedThrough(t: Tables, f: Tables, t': Tables, c: int, s: int)
    requires c in t.classes && s in t.classes && f.classes == t.classes
    requires OnlyReadBoth(t, f, c, s) && Unlinked(f, t', c, s)
    ensures Unlinked(t, t', c, s)
  {}

  lemma DeleteSubClassCall(t: Tables, c: int, s: int, allowed: bool, allowedSub: bool)
    requires Core(t)
    ensures var t' := Apply(t, CallDeleteSubClass(c, s, allowed, allowedSub));
      if !(allowed && c in t.classes && t.classes[c].isPackage && s in t.classes[c].children) then OnlyRead(t, t', c)
      else if !(allowedSub && s in t.classes) then OnlyReadBoth(t, t', c, s)
      else Unlinked(t, t', c, s)
  {
    FetchedBoth(t, c, s);
    ReadOnly(t, c);
    ReadBoth(t, c, s);
    if c in t.classes {
      DeleteSubClassIs(t, c, s, allowed, allowedSub);
      if s in t.classes && s in t.classes[c].children {
        UnlinkedAfterReading(t, c, s);
      }
    }
  }

  // ------------------------------------------------------------------- the cache

  /** The three calls that are not the program's touch the cache alone. */
  lemma CacheCalls(t: Tables, x: int)
    ensures Apply(t, Evict(x)) == t.(cache := t.cache - {x})
    ensures Apply(t, EvictUser(x)) == t.(userCache := t.userCache - {x})
    ensures var t' := Apply(t, LoadUser(x));
      t' == if x in t.userClasses && x !in t.userCache then t.(userCache := t.userCache[x := t.userClasses[x]]) else t
  {}
}
