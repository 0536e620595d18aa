/** Whole runs of service calls. */
module ClassRuns {
  import opened StringLists
  import opened ClassTables
  import opened Texts
  import opened ClassInvariants

  ghost predicate Core(t: Tables) {
    CacheInv(t) && IdInv(t) && MeetingInv(t) && ProgressInv(t)
  }

  lemma FetchedSame(t: Tables, c: int)
    requires Core(t)
    ensures Core(Fetched(t, c))
    ensures Fetched(t, c).classes == t.classes && Fetched(t, c).meetings == t.meetings
    ensures RosterInv(t) <==> RosterInv(Fetched(t, c))
    ensures LinkInv(t) <==> LinkInv(Fetched(t, c))
    ensures c in t.classes ==> c in Fetched(t, c).cache && Found(t, c) == Some(t.classes[c])
    ensures forall d :: d in t.cache ==> d in Fetched(t, c).cache
  {}

  /** From t to t' the core invariants hold on; the rosters and the links, if they agreed
      before, agree after iff they are spared. */
  ghost predicate Kept(t: Tables, t': Tables, sparesRosters: bool, sparesLinks: bool) {
    && Core(t')
    && (RosterInv(t) ==> (RosterInv(t') <==> sparesRosters))
    && (LinkInv(t) ==> (LinkInv(t') <==> sparesLinks))
  }

  // ------------------------------------------- each operation on a cached class

  lemma AddClassOp(t: Tables, group: int, isPackage: bool)
    requires Core(t)
    ensures Kept(t, AddClass(t, group, isPackage), true, true)
  {
    AddClassKeeps(t, group, isPackage);
    if RosterInv(t) { AddClassRosters(t, group, isPackage); }
    if LinkInv(t) { AddClassLinks(t, group, isPackage); }
  }

  lemma EndClassOp(t: Tables, c: int, now: int)
    requires Core(t) && c in t.classes && c in t.cache
    ensures Kept(t, EndClass(t, c, now), true, true)
  {
    EndClassKeeps(t, c, now);
    EndClassRest(t, c, now);
  }

  lemma ChangeUserOp(t: Tables, user: int, c: int, isTeacher: bool, add: bool)
    requires Core(t) && c in t.classes && c in t.cache
    requires add != (user in Roster(t.classes[c], isTeacher))
    ensures Kept(t, ChangeUser(t, user, c, isTeacher, add), add || !OnBothRosters(t.classes[c], user), true)
  {
    ChangeUserCache(t, user, c, isTeacher, add);
    ChangeUserIds(t, user, c, isTeacher, add);
    ChangeUserMeetings(t, user, c, isTeacher, add);
    ChangeUserProgress(t, user, c, isTeacher, add);
    if RosterInv(t) { ChangeUserRosters(t, user, c, isTeacher, add); }
    if LinkInv(t) { ChangeUserLinks(t, user, c, isTeacher, add); }
  }

  lemma AddMeetingOp(t: Tables, c: int)
    requires Core(t) && c in t.classes && c in t.cache
    ensures Kept(t, AddMeeting(t, c), true, true)
  {
    AddMeetingKeeps(t, c);
    AddMeetingMeetings(t, c);
    AddMeetingProgress(t, c);
    AddMeetingRest(t, c);
  }

  lemma EndMeetingOp(t: Tables, c: int, m: int, now: int)
    requires Core(t) && c in t.classes && c in t.cache
    requires m in t.classes[c].meetings && m in t.meetings && !Ended(t.meetings, m) && now > 0
    ensures Kept(t, EndMeeting(t, c, m, now), true, true)
  {
    EndMeetingKeeps(t, c, m, now);
    EndMeetingMeetings(t, c, m, now);
    EndMeetingRest(t, c, m, now);
  }

  lemma DeleteMeetingOp(t: Tables, m: int, c: int)
    requires Core(t) && c in t.classes && c in t.cache && m in t.classes[c].meetings
    ensures Kept(t, DeleteMeeting(t, m, c), true, true)
  {
    DeleteMeetingKeeps(t, m, c);
    DeleteMeetingMeetings(t, m, c);
    DeleteMeetingRest(t, m, c);
  }

  lemma CloneClassOp(t: Tables, c: int, group: int, isPackage: bool)
    requires Core(t) && c in t.cache
    ensures Kept(t, CloneClass(t, c, group, isPackage), true, true)
  {
    CloneClassKeeps(t, c, group, isPackage);
    CloneClassMeetings(t, c, group, isPackage);
    CloneClassRest(t, c, group, isPackage);
  }

  lemma DeleteClassOp(t: Tables, c: int, mayPurge: set<int>)
    requires Core(t) && c in t.classes && c in t.cache
    requires if t.classes[c].isPackage then t.classes[c].children == [] else t.classes[c].meetings == []
    ensures Kept(t, DeleteClass(t, c, mayPurge), true, t.classes[c].parent == [])
  {
    DeleteClassKeeps(t, c, mayPurge);
    DeleteClassMeetings(t, c, mayPurge);
    DeleteClassProgress(t, c, mayPurge);
    if RosterInv(t) { DeleteClassRosters(t, c, mayPurge); }
    if LinkInv(t) { DeleteClassLinks(t, c, mayPurge); }
  }

  lemma AddSubClassOp(t: Tables, c: int, s: int)
    requires Core(t) && c in t.classes && c in t.cache && s in t.classes && s in t.cache && t.classes[c].isPackage
    ensures Kept(t, AddSubClass(t, c, s), true, true)
  {
    AddSubClassKeeps(t, c, s);
    if LinkInv(t) { AddSubClassLinks(t, c, s); }
  }

  lemma DeleteSubClassOp(t: Tables, c: int, s: int)
    requires Core(t) && c in t.classes && c in t.cache && s in t.classes && s in t.cache
    requires s in t.classes[c].children
    ensures Kept(t, DeleteSubClass(t, c, s), true, true)
  {
    DeleteSubClassKeeps(t, c, s);
    if LinkInv(t) { DeleteSubClassLinks(t, c, s); }
  }

  // ------------------------------------------------------------------- calls

  /** A removal that reaches a user who stays on the class's other roster. */
  predicate BreaksRosters(t: Tables, call: Call) {
    call.CallChangeUser? && !call.add && call.allowed
    && call.c in t.classes && OnBothRosters(t.classes[call.c], call.user)
  }

  /** A deletion that goes through for a class some package still lists. */
  predicate BreaksLinks(t: Tables, call: Call) {
    call.CallDeleteClass? && call.allowed && call.c in t.classes
    && (if t.classes[call.c].isPackage then t.classes[call.c].children == [] else t.classes[call.c].meetings == [])
    && t.classes[call.c].parent != []
  }

  /** Every call keeps the core, and keeps rosters and links agreed iff it is not one of
      the two that break them. */
  lemma EveryCall(t: Tables, call: Call)
    requires Core(t) && Timely(call)
    ensures Kept(t, Apply(t, call), !BreaksRosters(t, call), !BreaksLinks(t, call))
  {
    match call
    case CallAddClass(group, isPackage, valid) => AddClassOp(t, group, isPackage);
    case CallAddSubClass(c, s, allowed, allowedSub) => SubClassCall(t, c, s, call);
    case CallDeleteSubClass(c, s, allowed, allowedSub) => SubClassCall(t, c, s, call);
    case Evict(c) =>
    case EvictUser(user) =>
    case LoadUser(user) =>
    case _ => ClassCall(t, call);
  }

  lemma SubClassCall(t: Tables, c: int, s: int, call: Call)
    requires Core(t)
    requires (call.CallAddSubClass? || call.CallDeleteSubClass?) && c == call.c && s == call.s
    ensures Kept(t, Apply(t, call), true, true)
  {
    if call.CallAddSubClass? {
      AddSubClassCall(t, c, s, call.allowed, call.allowedSub);
    } else {
      DeleteSubClassCall(t, c, s, call.allowed, call.allowedSub);
    }
  }

  /** Both classes read, one after the other. */
  lemma FetchedBoth(t: Tables, c: int, s: int)
    requires Core(t)
    ensures var g := Fetched(Fetched(t, c), s);
      && Core(g) && g.classes == t.classes
      && (RosterInv(t) <==> RosterInv(g)) && (LinkInv(t) <==> LinkInv(g))
      && (c in t.classes ==> c in g.cache && Found(t, c) == Some(t.classes[c]))
      && (s in t.classes ==> s in g.cache && Found(t, s) == Some(t.classes[s]))
  {
    FetchedSame(t, c);
    FetchedSame(t, s);
    FetchedSame(Fetched(t, c), s);
  }

  lemma AddSubClassIs(t: Tables, c: int, s: int, allowed: bool, allowedSub: bool)
    requires c in t.classes && Found(t, c) == Some(t.classes[c])
    requires s in t.classes ==> Found(t, s) == Some(t.classes[s])
    requires s in t.classes ==> c in Fetched(Fetched(t, c), s).cache && s in Fetched(Fetched(t, c), s).cache
    ensures var r, t' := t.classes[c], Apply(t, CallAddSubClass(c, s, allowed, allowedSub));
      if !allowed || !r.isPackage || s in r.children then t' == Fetched(t, c)
      else if !allowedSub || s !in t.classes then t' == Fetched(Fetched(t, c), s)
      else t' == AddSubClass(Fetched(Fetched(t, c), s), c, s)
  {}

  lemma AddSubClassCall(t: Tables, c: int, s: int, allowed: bool, allowedSub: bool)
    requires Core(t)
    ensures Kept(t, Apply(t, CallAddSubClass(c, s, allowed, allowedSub)), true, true)
  {
    FetchedSame(t, c);
    FetchedBoth(t, c, s);
    if c in t.classes {
      AddSubClassIs(t, c, s, allowed, allowedSub);
      var g := Fetched(Fetched(t, c), s);
      if s in t.classes && t.classes[c].isPackage {
        AddSubClassOp(g, c, s);
        KeptThrough(t, g, AddSubClass(g, c, s), true, true);
      }
    }
  }

  lemma DeleteSubClassIs(t: Tables, c: int, s: int, allowed: bool, allowedSub: bool)
    requires c in t.classes && Found(t, c) == Some(t.classes[c])
    requires s in t.classes ==> Found(t, s) == Some(t.classes[s])
    requires s in t.classes ==> c in Fetched(Fetched(t, c), s).cache && s in Fetched(Fetched(t, c), s).cache
    ensures var r, t' := t.classes[c], Apply(t, CallDeleteSubClass(c, s, allowed, allowedSub));
      if !allowed || !r.isPackage || s !in r.children then t' == Fetched(t, c)
      else if !allowedSub || s !in t.classes then t' == Fetched(Fetched(t, c), s)
      else t' == DeleteSubClass(Fetched(Fetched(t, c), s), c, s)
  {}

  lemma DeleteSubClassCall(t: Tables, c: int, s: int, allowed: bool, allowedSub: bool)
    requires Core(t)
    ensures Kept(t, Apply(t, CallDeleteSubClass(c, s, allowed, allowedSub)), true, true)
  {
    FetchedSame(t, c);
    FetchedBoth(t, c, s);
    if c in t.classes {
      DeleteSubClassIs(t, c, s, allowed, allowedSub);
      var g := Fetched(Fetched(t, c), s);
      if s in t.classes && s in t.classes[c].children {
        DeleteSubClassOp(g, c, s);
        KeptThrough(t, g, DeleteSubClass(g, c, s), true, true);
      }
    }
  }

  lemma ClassCall(t: Tables, call: Call)
    requires Core(t) && Timely(call)
    requires call.CallGetClass? || call.CallEndClass? || call.CallChangeUser? || call.CallAddMeeting?
          || call.CallCopyMeetingTo? || call.CallEndMeeting? || call.CallDeleteMeeting?
          || call.CallCloneClass? || call.CallDeleteClass?
    ensures Kept(t, Apply(t, call), !BreaksRosters(t, call), !BreaksLinks(t, call))
  {
    FetchedSame(t, call.c);
    match call
    case CallGetClass(_) =>
    case CallEndClass(_, _, _) => EndClassCall(t, call);
    case CallChangeUser(_, _, _, _, _) => ChangeUserCall(t, call);
    case CallAddMeeting(_, _, _) => NewMeetingCall(t, call);
    case CallCopyMeetingTo(_, _, _, _) => NewMeetingCall(t, call);
    case CallEndMeeting(_, _, _, _, _) => EndMeetingCall(t, call);
    case CallDeleteMeeting(_, _, _, _) => DeleteMeetingCall(t, call);
    case CallCloneClass(_, _, _, _, _) => CloneClassCall(t, call);
    case CallDeleteClass(_, _, _) => DeleteClassCall(t, call);
  }

  lemma EndClassCall(t: Tables, call: Call)
    requires Core(t) && call.CallEndClass?
    ensures Kept(t, Apply(t, call), true, true)
  {
    FetchedSame(t, call.c);
    if call.c in t.classes {
      EndClassOp(Fetched(t, call.c), call.c, call.now);
    }
  }

  lemma ChangeUserCall(t: Tables, call: Call)
    requires Core(t) && call.CallChangeUser?
    ensures Kept(t, Apply(t, call), !BreaksRosters(t, call), true)
  {
    FetchedSame(t, call.c);
    if call.c in t.classes && call.add != (call.user in Roster(t.classes[call.c], call.isTeacher)) {
      ChangeUserOp(Fetched(t, call.c), call.user, call.c, call.isTeacher, call.add);
    }
  }

  lemma NewMeetingCall(t: Tables, call: Call)
    requires Core(t) && (call.CallAddMeeting? || call.CallCopyMeetingTo?)
    ensures Kept(t, Apply(t, call), true, true)
  {
    FetchedSame(t, call.c);
    if call.c in t.classes {
      AddMeetingOp(Fetched(t, call.c), call.c);
    }
  }

  lemma EndMeetingCall(t: Tables, call: Call)
    requires Core(t) && call.CallEndMeeting? && Timely(call)
    ensures Kept(t, Apply(t, call), true, true)
  {
    FetchedSame(t, call.c);
    if call.c in t.classes && call.m in t.classes[call.c].meetings
       && call.m in t.meetings && !Ended(t.meetings, call.m) {
      EndMeetingOp(Fetched(t, call.c), call.c, call.m, call.now);
    }
  }

  lemma DeleteMeetingCall(t: Tables, call: Call)
    requires Core(t) && call.CallDeleteMeeting?
    ensures Kept(t, Apply(t, call), true, true)
  {
    FetchedSame(t, call.c);
    if call.c in t.classes && call.m in t.classes[call.c].meetings {
      DeleteMeetingOp(Fetched(t, call.c), call.m, call.c);
    }
  }

  lemma CloneClassCall(t: Tables, call: Call)
    requires Core(t) && call.CallCloneClass?
    ensures Kept(t, Apply(t, call), true, true)
  {
    FetchedSame(t, call.c);
    if call.c in t.classes {
      CloneClassOp(Fetched(t, call.c), call.c, call.group, call.isPackage);
    }
  }

  lemma DeleteClassIs(t: Tables, c: int, allowed: bool, mayPurge: set<int>)
    requires c in t.classes && c in Fetched(t, c).cache && Found(t, c) == Some(t.classes[c])
    ensures var r := t.classes[c];
      Apply(t, CallDeleteClass(c, allowed, mayPurge))
      == if allowed && (if r.isPackage then r.children == [] else r.meetings == [])
         then DeleteClass(Fetched(t, c), c, mayPurge) else Fetched(t, c)
  {}

  /** A class is read, and then something is done. */
  lemma KeptThrough(t: Tables, f: Tables, t': Tables, sparesRosters: bool, sparesLinks: bool)
    requires RosterInv(t) <==> RosterInv(f)
    requires LinkInv(t) <==> LinkInv(f)
    requires Kept(f, t', sparesRosters, sparesLinks)
    ensures Kept(t, t', sparesRosters, sparesLinks)
  {}

  lemma DeleteClassCall(t: Tables, call: Call)
    requires Core(t) && call.CallDeleteClass?
    ensures Kept(t, Apply(t, call), true, !BreaksLinks(t, call))
  {
    FetchedSame(t, call.c);
    if call.c in t.classes {
      var r, f := t.classes[call.c], Fetched(t, call.c);
      DeleteClassIs(t, call.c, call.allowed, call.mayPurge);
      if call.allowed && (if r.isPackage then r.children == [] else r.meetings == []) {
        DeleteClassOp(f, call.c, call.mayPurge);
        KeptThrough(t, f, Apply(t, call), true, !BreaksLinks(t, call));
      }
    }
  }

  // ------------------------------------------------------------------- runs

  function Run(calls: seq<Call>): Tables {
    if calls == [] then EMPTY else Apply(Run(calls[..|calls| - 1]), calls[|calls| - 1])
  }

  predicate AllTimely(calls: seq<Call>) {
    forall k :: 0 <= k < |calls| ==> Timely(calls[k])
  }

  predicate SparesRosters(calls: seq<Call>) {
    forall k :: 0 <= k < |calls| ==> !BreaksRosters(Run(calls[..k]), calls[k])
  }

  predicate SparesLinks(calls: seq<Call>) {
    forall k :: 0 <= k < |calls| ==> !BreaksLinks(Run(calls[..k]), calls[k])
  }

  lemma ShorterRun(calls: seq<Call>)
    requires calls != []
    ensures var p := calls[..|calls| - 1];
      && (AllTimely(calls) ==> AllTimely(p))
      && (SparesRosters(calls) ==> SparesRosters(p) && !BreaksRosters(Run(p), calls[|calls| - 1]))
      && (SparesLinks(calls) ==> SparesLinks(p) && !BreaksLinks(Run(p), calls[|calls| - 1]))
  {
    var p := calls[..|calls| - 1];
    assert forall k :: 0 <= k < |p| ==> p[..k] == calls[..k] && p[k] == calls[k];
  }

  /** After any run: cached records are the stored ones; ids are fresh; meeting lists have no
      repeats, do not overlap and are counted right; no (user, meeting) pair has two rows and
      every current student has one for every current meeting. */
  lemma {:induction false} EveryRunKeepsCore(calls: seq<Call>)
    requires AllTimely(calls)
    ensures Core(Run(calls))
  {
    if calls != [] {
      ShorterRun(calls);
      EveryRunKeepsCore(calls[..|calls| - 1]);
      EveryCall(Run(calls[..|calls| - 1]), calls[|calls| - 1]);
    }
  }

  /** After any run without a removal of a user from one of two rosters: a class is in a
      user's list iff the user is on one of its rosters. */
  lemma {:induction false} EveryRunKeepsRosters(calls: seq<Call>)
    requires AllTimely(calls) && SparesRosters(calls)
    ensures RosterInv(Run(calls))
  {
    if calls != [] {
      ShorterRun(calls);
      EveryRunKeepsCore(calls[..|calls| - 1]);
      EveryRunKeepsRosters(calls[..|calls| - 1]);
      EveryCall(Run(calls[..|calls| - 1]), calls[|calls| - 1]);
    }
  }

  /** After any run that deletes no package's child: child and parent lists mirror each
      other and a group lists exactly its parentless classes. */
  lemma {:induction false} EveryRunKeepsLinks(calls: seq<Call>)
    requires AllTimely(calls) && SparesLinks(calls)
    ensures LinkInv(Run(calls))
  {
    if calls != [] {
      ShorterRun(calls);
      EveryRunKeepsCore(calls[..|calls| - 1]);
      EveryRunKeepsLinks(calls[..|calls| - 1]);
      EveryCall(Run(calls[..|calls| - 1]), calls[|calls| - 1]);
    }
  }

  /** The two removals that break agreement do occur: a user put on both rosters and taken
      off one keeps neither the class in its list nor the agreement. */
  lemma BothRostersExample()
    ensures var t1 := Apply(EMPTY, CallAddClass(9, false, true));
      var t2 := Apply(t1, CallChangeUser(7, 1, true, true, true));
      var t3 := Apply(t2, CallChangeUser(7, 1, false, true, true));
      var t4 := Apply(t3, CallChangeUser(7, 1, true, false, true));
      InClass(t4.classes, 7, 1) && !InUserList(t4.userClasses, 7, 1)
  {
    var t1 := Apply(EMPTY, CallAddClass(9, false, true));
    assert t1.classes[1].teachers == [] && 1 in t1.cache && t1.cache[1] == t1.classes[1];
    var t2 := Apply(t1, CallChangeUser(7, 1, true, true, true));
    assert t2.classes[1].teachers == [7] && t2.cache[1] == t2.classes[1] && t2.userClasses[7] == [1];
    var t3 := Apply(t2, CallChangeUser(7, 1, false, true, true));
    assert t3.classes[1].students == [7] && t3.classes[1].teachers == [7] && t3.cache[1] == t3.classes[1];
    assert t3.userClasses[7] == [1];
  }

  function PackageRow(children: seq<int>): ClassRow {
    ClassRow(9, true, [], [], [], [], 0, 0, [], children)
  }

  function ChildRow(parent: seq<int>): ClassRow {
    ClassRow(9, false, [], [], [], [], 0, 0, parent, [])
  }

  /** A package 1 of group 9 with one child 2. */
  function OnePackage(): Tables {
    Apply(Apply(Apply(EMPTY, CallAddClass(9, true, true)), CallAddClass(9, false, true)), CallAddSubClass(1, 2, true, true))
  }

  lemma TwoClasses()
    ensures var t := Apply(Apply(EMPTY, CallAddClass(9, true, true)), CallAddClass(9, false, true));
      && t.classes == map[1 := PackageRow([]), 2 := ChildRow([])] && t.cache == t.classes
      && t.listing == {(9, 1), (9, 2)}
  {}

  lemma Linked(t: Tables)
    requires t.classes == map[1 := PackageRow([]), 2 := ChildRow([])] && t.cache == t.classes
    requires t.listing == {(9, 1), (9, 2)}
    ensures var t' := AddSubClass(t, 1, 2);
      && t'.classes == map[1 := PackageRow([2]), 2 := ChildRow([1])] && t'.cache == t'.classes && t'.listing == {(9, 1)}
  {
    assert [] + [1] == [1] && [] + [2] == [2];
  }

  lemma OnePackageLinks(t: Tables)
    requires t.classes == map[1 := PackageRow([2]), 2 := ChildRow([1])] && t.listing == {(9, 1)}
    ensures LinkInv(t)
  {}

  lemma OnePackageIs()
    ensures var t := OnePackage();
      && t.classes == map[1 := PackageRow([2]), 2 := ChildRow([1])] && t.cache == t.classes
      && t.listing == {(9, 1)} && LinkInv(t)
  {
    var t := Apply(Apply(EMPTY, CallAddClass(9, true, true)), CallAddClass(9, false, true));
    TwoClasses();
    AddSubClassIs(t, 1, 2, true, true);
    Linked(t);
    OnePackageLinks(OnePackage());
  }

  /** The deletion that breaks the links does occur: a package goes on listing a child that
      no longer exists. */
  lemma LinksExample(mayPurge: set<int>)
    ensures var t := OnePackage();
      var t' := Apply(t, CallDeleteClass(2, true, mayPurge));
      && LinkInv(t) && !LinkInv(t')
      && IsChild(t'.classes, 1, 2) && !IsParent(t'.classes, 1, 2) && 2 !in t'.classes
  {
    var t := OnePackage();
    OnePackageIs();
    DeleteClassIs(t, 2, true, mayPurge);
    DeleteClassShape(t, 2, mayPurge);
    var t' := DeleteClass(t, 2, mayPurge);
    assert t'.classes == map[1 := PackageRow([2])];
    assert IsChild(t'.classes, 1, 2) && !IsParent(t'.classes, 1, 2);
  }

  /** From t to t' no class that stays loses a meeting, and one it gains has an id that
      was never given out before. */
  ghost predicate MeetingsGrow(t: Tables, t': Tables) {
    forall c, m :: c in t.classes && c in t'.classes ==>
      && (Holds(t.classes[c], m) ==> Holds(t'.classes[c], m))
      && (Holds(t'.classes[c], m) && !Holds(t.classes[c], m) ==> m >= t.nextMeeting)
  }

  lemma GrowsIfSame(t: Tables, t': Tables)
    requires forall c :: c in t.classes && c in t'.classes ==>
      t'.classes[c].meetings == t.classes[c].meetings && t'.classes[c].deleted == t.classes[c].deleted
    ensures MeetingsGrow(t, t')
  {}

  lemma GrowsByOne(t: Tables, t': Tables, c: int, r: ClassRow)
    requires c in t.classes && t'.classes == t.classes[c := r]
    requires forall m :: Holds(r, m) <==> Holds(t.classes[c], m) || m == t.nextMeeting
    ensures MeetingsGrow(t, t')
  {}

  lemma MovesOne(t: Tables, t': Tables, c: int, r: ClassRow)
    requires c in t.classes && t'.classes == t.classes[c := r]
    requires forall m :: Holds(r, m) <==> Holds(t.classes[c], m)
    ensures MeetingsGrow(t, t')
  {}

  lemma NewMeetingGrows(t: Tables, c: int)
    requires Core(t) && c in t.classes
    ensures MeetingsGrow(t, AddMeeting(Fetched(t, c), c))
  {
    FetchedSame(t, c);
    var t' := AddMeeting(Fetched(t, c), c);
    assert forall m :: Holds(t'.classes[c], m) <==> Holds(t.classes[c], m) || m == t.nextMeeting;
    GrowsByOne(t, t', c, t'.classes[c]);
  }

  lemma DeletedMeetingStays(t: Tables, m: int, c: int)
    requires Core(t) && c in t.classes && m in t.classes[c].meetings
    ensures MeetingsGrow(t, DeleteMeeting(Fetched(t, c), m, c))
  {
    FetchedSame(t, c);
    var t' := DeleteMeeting(Fetched(t, c), m, c);
    assert forall k :: Holds(t'.classes[c], k) <==> Holds(t.classes[c], k);
    MovesOne(t, t', c, t'.classes[c]);
  }

  lemma AddSubClassGrows(t: Tables, f: Tables, c: int, s: int)
    requires f.classes == t.classes && c in f.classes && c in f.cache && s in f.classes && s in f.cache
    ensures MeetingsGrow(t, AddSubClass(f, c, s))
  {
    SubClassShape(f, AddSubClass(f, c, s), c, s, ListAdd(s, f.classes[c].children), ListAdd(c, f.classes[s].parent));
    GrowsIfSame(t, AddSubClass(f, c, s));
  }

  lemma DeleteSubClassGrows(t: Tables, f: Tables, c: int, s: int)
    requires f.classes == t.classes && c in f.classes && c in f.cache && s in f.classes && s in f.cache
    ensures MeetingsGrow(t, DeleteSubClass(f, c, s))
  {
    SubClassShape(f, DeleteSubClass(f, c, s), c, s, Without(f.classes[c].children, s), Without(f.classes[s].parent, c));
    GrowsIfSame(t, DeleteSubClass(f, c, s));
  }

  lemma MeetingsOnlyGrow(t: Tables, call: Call)
    requires Core(t)
    ensures MeetingsGrow(t, Apply(t, call))
  {
    if call.CallAddMeeting? || call.CallCopyMeetingTo? {
      NewMeetingCallGrows(t, call);
    } else if call.CallDeleteMeeting? {
      DeleteMeetingCallGrows(t, call);
    } else if call.CallAddSubClass? {
      AddSubClassCallGrows(t, call);
    } else if call.CallDeleteSubClass? {
      DeleteSubClassCallGrows(t, call);
    } else if call.CallAddClass? {
      AddClassGrows(t, call);
    } else if call.CallCloneClass? {
      CloneCallGrows(t, call);
    } else if call.CallDeleteClass? {
      DeleteClassGrows(t, call);
    } else if call.CallChangeUser? {
      ChangeUserGrows(t, call);
    } else if call.CallEndMeeting? || call.CallEndClass? {
      EndCallGrows(t, call);
    } else {
      RestGrows(t, call);
    }
  }

  lemma NewMeetingCallGrows(t: Tables, call: Call)
    requires Core(t) && (call.CallAddMeeting? || call.CallCopyMeetingTo?)
    ensures MeetingsGrow(t, Apply(t, call))
  {
    FetchedSame(t, call.c);
    GrowsIfSame(t, Fetched(t, call.c));
    if call.c in t.classes {
      NewMeetingGrows(t, call.c);
    }
  }

  lemma DeleteMeetingCallGrows(t: Tables, call: Call)
    requires Core(t) && call.CallDeleteMeeting?
    ensures MeetingsGrow(t, Apply(t, call))
  {
    FetchedSame(t, call.c);
    GrowsIfSame(t, Fetched(t, call.c));
    if call.c in t.classes && call.m in t.classes[call.c].meetings {
      DeletedMeetingStays(t, call.m, call.c);
    }
  }

  lemma AddSubClassCallGrows(t: Tables, call: Call)
    requires Core(t) && call.CallAddSubClass?
    ensures MeetingsGrow(t, Apply(t, call))
  {
    FetchedGrows(t, call.c, call.s);
    FetchedBoth(t, call.c, call.s);
    if call.c in t.classes {
      AddSubClassIs(t, call.c, call.s, call.allowed, call.allowedSub);
      if call.s in t.classes {
        AddSubClassGrows(t, Fetched(Fetched(t, call.c), call.s), call.c, call.s);
      }
    }
  }

  lemma DeleteSubClassCallGrows(t: Tables, call: Call)
    requires Core(t) && call.CallDeleteSubClass?
    ensures MeetingsGrow(t, Apply(t, call))
  {
    FetchedGrows(t, call.c, call.s);
    FetchedBoth(t, call.c, call.s);
    if call.c in t.classes {
      DeleteSubClassIs(t, call.c, call.s, call.allowed, call.allowedSub);
      if call.s in t.classes {
        DeleteSubClassGrows(t, Fetched(Fetched(t, call.c), call.s), call.c, call.s);
      }
    }
  }

  lemma FetchedGrows(t: Tables, c: int, s: int)
    ensures MeetingsGrow(t, Fetched(t, c)) && MeetingsGrow(t, Fetched(Fetched(t, c), s))
  {
    GrowsIfSame(t, Fetched(t, c));
    GrowsIfSame(t, Fetched(Fetched(t, c), s));
  }

  lemma DeleteClassGrows(t: Tables, call: Call)
    requires Core(t) && call.CallDeleteClass?
    ensures MeetingsGrow(t, Apply(t, call))
  {
    FetchedSame(t, call.c);
    if call.c in t.classes {
      DeleteClassShape(Fetched(t, call.c), call.c, call.mayPurge);
    }
    GrowsIfSame(t, Apply(t, call));
  }

  lemma ChangeUserGrows(t: Tables, call: Call)
    requires Core(t) && call.CallChangeUser?
    ensures MeetingsGrow(t, Apply(t, call))
  {
    FetchedSame(t, call.c);
    if call.c in t.classes {
      ChangeUserShape(Fetched(t, call.c), call.user, call.c, call.isTeacher, call.add);
    }
    GrowsIfSame(t, Apply(t, call));
  }

  lemma EndCallGrows(t: Tables, call: Call)
    requires Core(t) && (call.CallEndMeeting? || call.CallEndClass?)
    ensures MeetingsGrow(t, Apply(t, call))
  {
    FetchedSame(t, call.c);
    GrowsIfSame(t, Fetched(t, call.c));
    if call.c in t.classes {
      if call.CallEndMeeting? {
        EndMeetingGrows(t, Fetched(t, call.c), call.c, call.m, call.now);
      } else {
        EndClassGrows(t, Fetched(t, call.c), call.c, call.now);
      }
    }
  }

  lemma CloneCallGrows(t: Tables, call: Call)
    requires Core(t) && call.CallCloneClass?
    ensures MeetingsGrow(t, Apply(t, call))
  {
    FetchedSame(t, call.c);
    GrowsIfSame(t, Fetched(t, call.c));
    if call.c in t.classes {
      CloneGrows(t, Fetched(t, call.c), call.c, call.group, call.isPackage);
    }
  }

  lemma RestGrows(t: Tables, call: Call)
    requires Core(t)
    requires call.CallGetClass? || call.Evict? || call.EvictUser? || call.LoadUser?
    ensures MeetingsGrow(t, Apply(t, call))
  {
    assert Apply(t, call).classes == t.classes;
    GrowsIfSame(t, Apply(t, call));
  }

  lemma AddClassGrows(t: Tables, call: Call)
    requires Core(t) && call.CallAddClass?
    ensures MeetingsGrow(t, Apply(t, call))
  {
    GrowsIfSame(t, Apply(t, call));
  }

  lemma EndMeetingGrows(t: Tables, f: Tables, c: int, m: int, now: int)
    requires f.classes == t.classes && c in f.classes && c in f.cache
    ensures MeetingsGrow(t, EndMeeting(f, c, m, now))
  {
    GrowsIfSame(t, EndMeeting(f, c, m, now));
  }

  lemma EndClassGrows(t: Tables, f: Tables, c: int, now: int)
    requires f.classes == t.classes && c in f.classes && c in f.cache
    ensures MeetingsGrow(t, EndClass(f, c, now))
  {
    GrowsIfSame(t, EndClass(f, c, now));
  }

  lemma CloneGrows(t: Tables, f: Tables, c: int, group: int, isPackage: bool)
    requires IdInv(t) && f.classes == t.classes && f.nextClass == t.nextClass && c in f.cache
    ensures MeetingsGrow(t, CloneClass(f, c, group, isPackage))
  {
    var t' := CloneClass(f, c, group, isPackage);
    assert t'.classes == t.classes[t.nextClass := t'.classes[t.nextClass]];
    GrowsIfSame(t, t');
  }

  /** Reading a class with its cache entry lost gives what reading it from the cache gives. */
  lemma ReadingAgrees(calls: seq<Call>, c: int)
    requires AllTimely(calls)
    ensures var t := Run(calls);
      Found(t, c) == Found(Apply(t, Evict(c)), c) && Found(t, c) == Found(Fetched(t, c), c)
  {
    EveryRunKeepsCore(calls);
  }
}
