/** The class service as it runs: one object over the tables and their Redis copies,
    every call writing them step by step. */
module ClassService {
  import Sets
  import opened StringLists
  import opened ClassTables
  import opened Texts

  lemma Pick<T>(s: set<T>) returns (x: T)
    requires s != {}
    ensures x in s
  {
    x :| x in s;
  }

  class Service {
    var classes: map<int, ClassRow>
    var meetings: map<int, int>
    var userClasses: map<int, seq<int>>
    var progress: ProgressRows
    var cache: map<int, ClassRow>
    var userCache: map<int, seq<int>>
    var listing: set<(int, int)>
    var nextClass: int
    var nextMeeting: int

    ghost function State(): Tables
      reads this
    {
      Tables(classes, meetings, userClasses, progress, cache, userCache, listing, nextClass, nextMeeting)
    }

    constructor ()
      ensures State() == EMPTY
    {
      classes, meetings, userClasses, progress := map[], map[], map[], map[];
      cache, userCache, listing := map[], map[], {};
      nextClass, nextMeeting := 1, 1;
    }

    method GetClass(c: int) returns (ci: Option<ClassRow>)
      modifies `cache
      ensures ci == Found(old(State()), c) && State() == Fetched(old(State()), c)
    {
      if c in cache {
        return Some(cache[c]);
      }
      if c !in classes {
        return None;
      }
      cache := cache[c := classes[c]];
      return Some(classes[c]);
    }

    /** The record, if the session may see it and the row is there to be locked. */
    method Authorized(c: int, allowed: bool) returns (ci: Option<ClassRow>)
      modifies `cache
      ensures ci == Seen(old(State()), c, allowed) && State() == Fetched(old(State()), c)
    {
      ci := GetClass(c);
      if !allowed || c !in classes {
        ci := None;
      }
    }

    method AddClass(group: int, isPackage: bool, valid: bool)
      modifies this
      ensures State() == Apply(old(State()), CallAddClass(group, isPackage, valid))
    {
      if !valid {
        return;
      }
      var row := ClassRow(group, isPackage, [], [], [], [], 0, 0, [], []);
      classes := classes[nextClass := row];
      cache := cache[nextClass := row];
      listing := listing + {(group, nextClass)};
      nextClass := nextClass + 1;
    }

    method EndClass(c: int, allowed: bool, now: int)
      modifies this
      ensures State() == Apply(old(State()), CallEndClass(c, allowed, now))
    {
      var ci := Authorized(c, allowed);
      if ci == None || ci.value.endTime > 0 {
        return;
      }
      classes := classes[c := classes[c].(endTime := now)];
      cache := cache[c := cache[c].(endTime := now)];
    }

    /** Step 1 of ChangeUser: the roster, in the table and in the cache. */
    method ChangeRoster(user: int, c: int, isTeacher: bool, add: bool)
      requires c in classes && c in cache
      modifies `classes, `cache
      ensures State() == WriteRoster(old(State()), user, c, isTeacher, add)
    {
      var l := NewRoster(Roster(classes[c], isTeacher), user, add);
      classes := classes[c := WithRoster(classes[c], isTeacher, l)];
      cache := cache[c := WithRoster(cache[c], isTeacher, l)];
    }

    /** Step 3: the user's own list. */
    method ChangeUserList(user: int, c: int, add: bool)
      modifies `userClasses, `userCache
      ensures State() == WriteUserList(old(State()), user, c, add)
    {
      if user in userClasses {
        var cl := userClasses[user];
        var changed := if add then c !in cl else c in cl;
        if changed {
          cl := if add then SortedAdd(c, cl) else Without(cl, c);
          userClasses := userClasses[user := cl];
          userCache := userCache[user := cl];
        }
      } else {
        userClasses := userClasses[user := [c]];
        userCache := userCache[user := [c]];
      }
    }

    /** The current meetings the user has no row for: all of them, less those with a row. */
    method FindMissing(user: int, ml: seq<int>) returns (existing: set<int>)
      ensures existing == Missing(State(), user, ml)
    {
      existing := {};
      for i := 0 to |ml|
        invariant existing == Members(ml[..i])
      {
        assert ml[..i + 1] == ml[..i] + [ml[i]];
        existing := existing + {ml[i]};
      }
      assert ml[..|ml|] == ml;
      var rows := progress.Keys;
      while rows != {}
        invariant rows <= progress.Keys
        invariant forall m :: m in existing <==> m in ml && ((user, m) in progress ==> (user, m) in rows)
        decreases rows
      {
        ghost var q := Pick(rows);
        var row :| row in rows;
        rows := rows - {row};
        if row.0 == user {
          existing := existing - {row.1};
        }
      }
      Sets.SameMembers(existing, Missing(State(), user, ml));
    }

    /** Step 4: a row for every current meeting the user has none for. */
    method AddMissingRows(user: int, ml: seq<int>)
      modifies `progress
      ensures progress == WithRows(old(progress), user, Missing(old(State()), user, ml))
    {
      var existing := FindMissing(user, ml);
      ghost var p, missing := progress, existing;
      ghost var done: set<int> := {};
      while existing != {}
        invariant forall m :: m in existing <==> m in missing && m !in done
        invariant forall m :: m in done ==> m in missing
        invariant progress == WithRows(p, user, done)
        decreases existing
      {
        ghost var q := Pick(existing);
        var id :| id in existing;
        existing := existing - {id};
        WithOneRow(p, user, done, id);
        progress := progress[(user, id) := 1];
        done := done + {id};
      }
      Sets.SameMembers(done, missing);
    }

    method ChangeUser(user: int, c: int, isTeacher: bool, add: bool, allowed: bool)
      modifies this
      ensures State() == Apply(old(State()), CallChangeUser(user, c, isTeacher, add, allowed))
    {
      var ci := Authorized(c, allowed);
      if ci == None {
        return;
      }
      if add == (user in Roster(ci.value, isTeacher)) {
        return;
      }
      var ml := classes[c].meetings;
      ChangeRoster(user, c, isTeacher, add);
      ChangeUserList(user, c, add);
      if add && !isTeacher {
        AddMissingRows(user, ml);
      }
    }

    /** The meeting service's part: the meeting and a row for every listed student. */
    method CreateMeeting(students: seq<int>) returns (m: int)
      modifies `meetings, `nextMeeting, `progress
      ensures m == old(nextMeeting) && nextMeeting == m + 1 && meetings == old(meetings)[m := 0]
      ensures progress == InsertRows(old(progress), students, m)
    {
      m := nextMeeting;
      nextMeeting := nextMeeting + 1;
      meetings := meetings[m := 0];
      ghost var p := progress;
      for i := 0 to |students|
        invariant progress == InsertRows(p, students[..i], m)
        invariant nextMeeting == m + 1 && meetings == old(meetings)[m := 0]
      {
        assert students[..i + 1][..i] == students[..i];
        progress := InsertRow(progress, students[i], m);
      }
      assert students[..|students|] == students;
    }

    method AddMeeting(c: int, allowed: bool, valid: bool)
      modifies this
      ensures State() == Apply(old(State()), CallAddMeeting(c, allowed, valid))
    {
      var ci := Authorized(c, allowed);
      if ci == None || !valid {
        return;
      }
      var m := CreateMeeting(ci.value.students);
      var ml := ListAdd(m, classes[c].meetings);
      classes := classes[c := classes[c].(meetings := ml)];
      cache := cache[c := cache[c].(meetings := ml)];
    }

    method CopyMeetingTo(m: int, c: int, allowed: bool, valid: bool)
      modifies this
      ensures State() == Apply(old(State()), CallCopyMeetingTo(m, c, allowed, valid))
    {
      if m !in meetings {
        return;
      }
      AddMeeting(c, allowed, valid);
    }

    method EndMeeting(c: int, m: int, allowed: bool, started: bool, now: int)
      modifies this
      ensures State() == Apply(old(State()), CallEndMeeting(c, m, allowed, started, now))
    {
      var ci := Authorized(c, allowed);
      if ci == None || m !in ci.value.meetings || m !in meetings {
        return;
      }
      if meetings[m] > 0 || !started {
        return;
      }
      meetings := meetings[m := now];
      classes := classes[c := classes[c].(finished := classes[c].finished + 1)];
      cache := cache[c := cache[c].(finished := ci.value.finished + 1)];
    }

    method DeleteMeeting(m: int, c: int, isSystem: bool, allowed: bool)
      modifies this
      ensures State() == Apply(old(State()), CallDeleteMeeting(m, c, isSystem, allowed))
    {
      var ci := Authorized(c, allowed);
      if ci == None || (!isSystem && ci.value.endTime > 0) || m !in ci.value.meetings || m !in meetings {
        return;
      }
      DropMeeting(m, c);
    }

    /** The transaction: from the current list to the deleted one, with the counter. */
    method DropMeeting(m: int, c: int)
      requires c in classes && c in cache && m in meetings
      modifies `classes, `cache
      ensures State() == ClassTables.DeleteMeeting(old(State()), m, c)
    {
      var row := classes[c];
      var ml, dl := Without(row.meetings, m), ListAdd(m, row.deleted);
      var ended := meetings[m] > 0;
      classes := classes[c := row.(meetings := ml, deleted := dl,
                                   finished := if ended then row.finished - 1 else row.finished)];
      cache := cache[c := cache[c].(meetings := ml, deleted := dl)];
      if ended {
        var n := cache[c].finished - 1;
        cache := cache[c := cache[c].(finished := n)];
        if n < 0 {
          cache := cache[c := cache[c].(finished := 0)];
        }
      }
    }

    /** One new meeting for each of the source's. */
    method CloneAll(source: seq<int>) returns (ml: seq<int>)
      modifies `meetings, `nextMeeting
      ensures State() == CloneMeetings(old(State()), |source|) && ml == Ids(old(nextMeeting), |source|)
    {
      ghost var t := State();
      ml := [];
      CloneNone(t);
      for i := 0 to |source|
        invariant ml == Ids(t.nextMeeting, i)
        invariant meetings == CloneMeetings(t, i).meetings && nextMeeting == t.nextMeeting + i
      {
        CloneOne(t, i);
        meetings := meetings[nextMeeting := 0];
        ml := ml + [nextMeeting];
        nextMeeting := nextMeeting + 1;
      }
    }

    method CloneClass(c: int, group: int, isPackage: bool, allowed: bool, valid: bool)
      modifies this
      ensures State() == Apply(old(State()), CallCloneClass(c, group, isPackage, allowed, valid))
    {
      var ci := Authorized(c, allowed);
      if ci == None || !valid {
        return;
      }
      CopyClass(c, group, isPackage);
    }

    method CopyClass(c: int, group: int, isPackage: bool)
      requires c in cache
      modifies this
      ensures State() == ClassTables.CloneClass(old(State()), c, group, isPackage)
    {
      var id, source := nextClass, cache[c].meetings;
      AddClass(group, isPackage, true);
      var ml := CloneAll(source);
      classes := classes[id := classes[id].(meetings := ml)];
      cache := cache[id := cache[id].(meetings := ml)];
    }

    /** Takes the class off the lists of its users. */
    method DropUsers(users: seq<int>, c: int)
      modifies `userClasses, `userCache
      ensures State() == DropFromLists(old(State()), Members(users), c)
    {
      ghost var t := State();
      DropNobody(t, c);
      for i := 0 to |users|
        invariant userClasses == DropFromLists(t, Members(users[..i]), c).userClasses
        invariant userCache == DropFromLists(t, Members(users[..i]), c).userCache
      {
        assert Members(users[..i + 1]) == Members(users[..i]) + {users[i]};
        var u := users[i];
        DropOne(t, Members(users[..i]), u, c);
        var cl := UserList(userClasses, u);
        if c in cl {
          cl := Without(cl, c);
          userClasses := userClasses[u := cl];
          userCache := userCache[u := cl];
        }
      }
      assert users[..|users|] == users;
    }

    /** Deletes meetings for good, one by one, those the session may delete. */
    method PurgeMeetings(ms: seq<int>, mayPurge: set<int>)
      modifies `meetings, `progress
      ensures State() == Purge(old(State()), Members(ms) * mayPurge * old(meetings.Keys))
    {
      ghost var t := State();
      PurgeNothing(t);
      for i := 0 to |ms|
        invariant State() == Purge(t, Members(ms[..i]) * mayPurge * t.meetings.Keys)
      {
        assert Members(ms[..i + 1]) == Members(ms[..i]) + {ms[i]};
        PurgeNext(Members(ms[..i]), mayPurge, ms[i]);
        if ms[i] in mayPurge {
          PurgeOne(t, Members(ms[..i]) * mayPurge, ms[i]);
          if ms[i] in meetings {
            meetings := meetings - {ms[i]};
            progress := map q | q in progress && q.1 != ms[i] :: progress[q];
          }
        }
      }
      assert ms[..|ms|] == ms;
    }

    method DeleteClass(c: int, allowed: bool, mayPurge: set<int>)
      modifies this
      ensures State() == Apply(old(State()), CallDeleteClass(c, allowed, mayPurge))
    {
      var ci := Authorized(c, allowed);
      if ci == None {
        return;
      }
      var r := ci.value;
      if if r.isPackage then r.children != [] else r.meetings != [] {
        return;
      }
      RemoveClass(c, mayPurge);
    }

    /** The class, then its place on every list, then its deleted meetings. */
    method RemoveClass(c: int, mayPurge: set<int>)
      requires c in cache
      modifies this
      ensures State() == ClassTables.DeleteClass(old(State()), c, mayPurge)
    {
      var r := cache[c];
      classes := classes - {c};
      cache := cache - {c};
      listing := listing - {(r.group, c)};
      assert Members(r.students + r.teachers) == Members(r.students) + Members(r.teachers);
      DropUsers(r.students + r.teachers, c);
      PurgeMeetings(r.deleted, mayPurge);
    }

    method AddSubClass(c: int, s: int, allowed: bool, allowedSub: bool)
      modifies this
      ensures State() == Apply(old(State()), CallAddSubClass(c, s, allowed, allowedSub))
    {
      var ci := Authorized(c, allowed);
      if ci == None || !ci.value.isPackage || s in ci.value.children {
        return;
      }
      var sci := Authorized(s, allowedSub);
      if sci == None {
        return;
      }
      AddLinks(c, s);
    }

    /** The two transactions: the package's list, then the class's own. */
    method AddLinks(c: int, s: int)
      requires c in classes && c in cache && s in classes && s in cache
      modifies `classes, `cache, `listing
      ensures State() == ClassTables.AddSubClass(old(State()), c, s)
    {
      var cl := ListAdd(s, classes[c].children);
      classes := classes[c := classes[c].(children := cl)];
      listing := listing - {(cache[s].group, s)};
      cache := cache[c := cache[c].(children := cl)];
      var pl := ListAdd(c, classes[s].parent);
      classes := classes[s := classes[s].(parent := pl)];
      cache := cache[s := cache[s].(parent := pl)];
    }

    method DeleteSubClass(c: int, s: int, allowed: bool, allowedSub: bool)
      modifies this
      ensures State() == Apply(old(State()), CallDeleteSubClass(c, s, allowed, allowedSub))
    {
      var ci := Authorized(c, allowed);
      if ci == None || !ci.value.isPackage || s !in ci.value.children {
        return;
      }
      var sci := Authorized(s, allowedSub);
      if sci == None {
        return;
      }
      RemoveLinks(c, s);
    }

    /** The two transactions: the package's list, then the class's own. */
    method RemoveLinks(c: int, s: int)
      requires c in classes && c in cache && s in classes && s in cache
      modifies `classes, `cache, `listing
      ensures State() == ClassTables.DeleteSubClass(old(State()), c, s)
    {
      var cl := Without(classes[c].children, s);
      classes := classes[c := classes[c].(children := cl)];
      cache := cache[c := cache[c].(children := cl)];
      var pl := Without(classes[s].parent, c);
      if pl == [] {
        listing := listing + {(cache[s].group, s)};
      }
      classes := classes[s := classes[s].(parent := pl)];
      cache := cache[s := cache[s].(parent := pl)];
    }
  }

  lemma CloneNone(t: Tables)
    ensures CloneMeetings(t, 0) == t
  {
    assert t.meetings + map[] == t.meetings;
    assert (map m | m in Ids(t.nextMeeting, 0) :: 0) == map[];
  }

  lemma WithOneRow(p: ProgressRows, user: int, done: set<int>, id: int)
    ensures WithRows(p, user, done + {id}) == WithRows(p, user, done)[(user, id) := 1]
  {}

  lemma NextId(id: int, i: nat)
    ensures Ids(id, i + 1) == Ids(id, i) + [id + i]
  {}

  lemma ZerosSnoc(ids: seq<int>, k: int)
    ensures (map m | m in ids + [k] :: 0) == (map m | m in ids :: 0)[k := 0]
  {}

  lemma CloneOne(t: Tables, i: nat)
    ensures Ids(t.nextMeeting, i + 1) == Ids(t.nextMeeting, i) + [t.nextMeeting + i]
    ensures CloneMeetings(t, i + 1).meetings == CloneMeetings(t, i).meetings[t.nextMeeting + i := 0]
  {
    NextId(t.nextMeeting, i);
    ZerosSnoc(Ids(t.nextMeeting, i), t.nextMeeting + i);
  }

  lemma DropNobody(t: Tables, c: int)
    ensures DropFromLists(t, {}, c) == t
  {
    assert Dropped(t.userClasses, {}, c) == t.userClasses;
  }

  lemma DroppedOne(lists: map<int, seq<int>>, users: set<int>, u: int, c: int)
    ensures var before := Dropped(lists, users, c);
      var cl := UserList(before, u);
      if c in cl
      then Dropped(lists, users + {u}, c) == before[u := Without(cl, c)] && u in lists && cl == lists[u]
        && Affected(lists, users + {u}, c) == Affected(lists, users, c) + {u}
      else Dropped(lists, users + {u}, c) == before && Affected(lists, users + {u}, c) == Affected(lists, users, c)
  {
    if u in users {
      assert users + {u} == users;
    } else {
      WithoutAbsentIf(UserList(lists, u), c);
    }
  }

  lemma WithoutAbsentIf(l: seq<int>, c: int)
    ensures c !in l ==> Without(l, c) == l
  {
    if c !in l {
      WithoutAbsent(l, c);
    }
  }

  lemma DropOne(t: Tables, users: set<int>, u: int, c: int)
    ensures var before, after := DropFromLists(t, users, c), DropFromLists(t, users + {u}, c);
      var cl := UserList(before.userClasses, u);
      if c in cl
      then after.userClasses == before.userClasses[u := Without(cl, c)]
        && after.userCache == before.userCache[u := Without(cl, c)]
      else after == before
  {
    DroppedOne(t.userClasses, users, u, c);
  }

  lemma PurgeNothing(t: Tables)
    ensures forall ms: set<int> :: ms == {} ==> Purge(t, ms) == t
  {}

  lemma PurgeNext(ms: set<int>, mayPurge: set<int>, m: int)
    ensures (ms + {m}) * mayPurge == if m in mayPurge then ms * mayPurge + {m} else ms * mayPurge
  {}

  lemma PurgeOne(t: Tables, ms: set<int>, m: int)
    ensures var before, after := Purge(t, ms * t.meetings.Keys), Purge(t, (ms + {m}) * t.meetings.Keys);
      after == if m in before.meetings
               then before.(meetings := before.meetings - {m},
                            progress := map q | q in before.progress && q.1 != m :: before.progress[q])
               else before
  {}
}
