/** What every run of service calls keeps true of the class tables. */
module ClassInvariants {
  import opened StringLists
  import opened ClassTables
  import opened Texts

  // ------------------------------------------------------------- invariants

  /** A cached record is the stored one. */
  ghost predicate CacheInv(t: Tables) {
    && (forall c :: c in t.cache ==> c in t.classes && t.cache[c] == t.classes[c])
    && (forall u :: u in t.userCache ==> u in t.userClasses && t.userCache[u] == t.userClasses[u])
  }

  ghost predicate IdInv(t: Tables) {
    && t.nextClass > 0 && t.nextMeeting > 0
    && (forall c :: c in t.classes ==> c < t.nextClass)
    && (forall m :: m in t.meetings ==> m < t.nextMeeting)
    && (forall u, m :: (u, m) in t.progress ==> m < t.nextMeeting)
  }

  /** The lists of one class: no repeats, no meeting both current and deleted, and the
      counter counts the current meetings that have ended. */
  predicate RowInv(r: ClassRow, meetings: map<int, int>, nextMeeting: int) {
    && Distinct(r.teachers) && Distinct(r.students)
    && Distinct(r.meetings) && Distinct(r.deleted)
    && (forall m :: m in r.meetings ==> m !in r.deleted && m < nextMeeting)
    && (forall m :: m in r.deleted ==> m < nextMeeting)
    && r.finished == EndedCount(r.meetings, meetings)
  }

  function EndedCount(ml: seq<int>, meetings: map<int, int>): nat {
    if ml == [] then 0
    else EndedCount(ml[..|ml| - 1], meetings) + if Ended(meetings, ml[|ml| - 1]) then 1 else 0
  }

  predicate Holds(r: ClassRow, m: int) {
    m in r.meetings || m in r.deleted
  }

  ghost predicate MeetingsAgree(classes: map<int, ClassRow>, meetings: map<int, int>, nextMeeting: int) {
    && (forall c :: c in classes ==> RowInv(classes[c], meetings, nextMeeting))
    && (forall c, d, m :: c in classes && d in classes && c != d ==>
          !(Holds(classes[c], m) && Holds(classes[d], m)))
  }

  /** Every class's lists are in order, and no two classes hold the same meeting. */
  ghost predicate MeetingInv(t: Tables) {
    MeetingsAgree(t.classes, t.meetings, t.nextMeeting)
  }

  ghost predicate ProgressAgrees(classes: map<int, ClassRow>, progress: ProgressRows) {
    && (forall u, m :: (u, m) in progress ==> progress[(u, m)] == 1)
    && (forall c, u, m :: c in classes && u in classes[c].students && m in classes[c].meetings ==>
          (u, m) in progress)
  }

  /** No pair has two rows, and every current student has one for every current meeting. */
  ghost predicate ProgressInv(t: Tables) {
    ProgressAgrees(t.classes, t.progress)
  }

  predicate OnRoster(r: ClassRow, u: int) {
    u in r.teachers || u in r.students
  }

  predicate InUserList(lists: map<int, seq<int>>, u: int, c: int) {
    c in UserList(lists, u)
  }

  predicate InClass(classes: map<int, ClassRow>, u: int, c: int) {
    c in classes && OnRoster(classes[c], u)
  }

  predicate StrictlyAscending(l: seq<int>) {
    Ascending(l) && Distinct(l)
  }

  ghost predicate RostersAgree(classes: map<int, ClassRow>, lists: map<int, seq<int>>) {
    && (forall u, c :: InUserList(lists, u, c) <==> InClass(classes, u, c))
    && (forall u :: u in lists ==> StrictlyAscending(lists[u]))
  }

  /** A class is in a user's list iff the user is on one of its rosters; lists ascend strictly. */
  ghost predicate RosterInv(t: Tables) {
    RostersAgree(t.classes, t.userClasses)
  }

  predicate IsChild(classes: map<int, ClassRow>, c: int, s: int) {
    c in classes && s in classes[c].children
  }

  predicate IsParent(classes: map<int, ClassRow>, c: int, s: int) {
    s in classes && c in classes[s].parent
  }

  predicate IsTop(classes: map<int, ClassRow>, g: int, c: int) {
    c in classes && classes[c].group == g && classes[c].parent == []
  }

  /** Parent and child lists mirror each other; a group lists exactly its parentless classes. */
  ghost predicate LinkInv(t: Tables) {
    LinksAgree(t.classes, t.listing)
  }

  ghost predicate LinksAgree(classes: map<int, ClassRow>, listing: set<(int, int)>) {
    && (forall c :: c in classes ==> Distinct(classes[c].children) && Distinct(classes[c].parent))
    && (forall c :: c in classes && classes[c].children != [] ==> classes[c].isPackage)
    && (forall c, s :: IsChild(classes, c, s) <==> IsParent(classes, c, s))
    && (forall g, c :: (g, c) in listing <==> IsTop(classes, g, c))
  }

  // ---------------------------------------------------------------- fetching

  lemma FetchedKeeps(t: Tables, c: int)
    requires CacheInv(t)
    ensures CacheInv(Fetched(t, c)) && Fetched(t, c) == t.(cache := Fetched(t, c).cache)
    ensures c in t.classes ==> c in Fetched(t, c).cache && Found(t, c) == Some(t.classes[c])
  {}

  // ------------------------------------------------------------ list facts

  lemma ListAddFacts(n: int, l: seq<int>)
    requires Distinct(l)
    ensures Distinct(ListAdd(n, l)) && forall x :: x in ListAdd(n, l) <==> x in l || x == n
  {}

  lemma SortedAddFacts(n: int, l: seq<int>)
    requires Ascending(l) && Distinct(l)
    ensures forall x :: x in SortedAdd(n, l) <==> x in l || x == n
    ensures Ascending(SortedAdd(n, l)) && Distinct(SortedAdd(n, l))
  {
    SortedFacts(l);
    InsertKeepsOrder(n, Sorted(l));
    InsertKeepsNumbers(n, Sorted(l));
    var r := SortedAdd(n, l);
    if n !in l && l != [] {
      MultisetMembers(r, l, n);
      DistinctIsMultiset(l);
      MultisetIsDistinct(r);
    }
  }

  lemma MultisetMembers(r: seq<int>, l: seq<int>, n: int)
    requires multiset(r) == multiset(l) + multiset{n}
    ensures forall x :: x in r <==> x in l || x == n
  {
    forall x
      ensures x in r <==> x in l || x == n
    {
      assert x in r <==> x in multiset(r);
      assert x in l <==> x in multiset(l);
    }
  }

  lemma {:induction false} DistinctIsMultiset(l: seq<int>)
    requires Distinct(l)
    ensures forall x :: multiset(l)[x] <= 1
  {
    if l != [] {
      DistinctIsMultiset(l[1..]);
      assert l == [l[0]] + l[1..];
      assert l[0] !in l[1..];
      assert multiset(l) == multiset{l[0]} + multiset(l[1..]);
    }
  }

  lemma MultisetIsDistinct(r: seq<int>)
    requires forall x :: multiset(r)[x] <= 1
    ensures Distinct(r)
  {
    forall i, j | 0 <= i < j < |r|
      ensures r[i] != r[j]
    {
      assert r == r[..j] + r[j..];
      assert multiset(r) == multiset(r[..j]) + multiset(r[j..]);
      assert r[..j][i] == r[i] && r[j..][0] == r[j];
      assert r[i] in multiset(r[..j]) && r[j] in multiset(r[j..]);
      assert multiset(r)[r[i]] == multiset(r[..j])[r[i]] + multiset(r[j..])[r[i]];
    }
  }

  lemma AscendingWithout(l: seq<int>, n: int)
    requires Ascending(l) && Distinct(l)
    ensures Ascending(Without(l, n)) && Distinct(Without(l, n))
  {
    WithoutDistinct(l, n);
    WithoutAscends(l, n);
  }

  lemma {:induction false} WithoutAscends(l: seq<int>, n: int)
    requires Ascending(l)
    ensures Ascending(Without(l, n))
  {
    if l != [] {
      WithoutAscends(l[1..], n);
      var r := Without(l[1..], n);
      forall j | 0 <= j < |r|
        ensures l[0] <= r[j]
      {
        assert r[j] in l[1..];
      }
    }
  }

  // --------------------------------------------------------------- counting

  lemma {:induction false} CountUnchanged(ml: seq<int>, before: map<int, int>, after: map<int, int>)
    requires forall m :: m in ml ==> (Ended(before, m) <==> Ended(after, m))
    ensures EndedCount(ml, before) == EndedCount(ml, after)
  {
    if ml != [] {
      CountUnchanged(ml[..|ml| - 1], before, after);
    }
  }

  lemma CountSnoc(ml: seq<int>, m: int, meetings: map<int, int>)
    ensures EndedCount(ml + [m], meetings) == EndedCount(ml, meetings) + if Ended(meetings, m) then 1 else 0
  {
    assert (ml + [m])[..|ml|] == ml;
  }

  lemma {:induction false} CountWithout(ml: seq<int>, m: int, meetings: map<int, int>)
    requires Distinct(ml) && m in ml
    ensures EndedCount(Without(ml, m), meetings) == EndedCount(ml, meetings) - if Ended(meetings, m) then 1 else 0
  {
    var n := |ml| - 1;
    assert ml == ml[..n] + [ml[n]];
    WithoutSnoc(ml[..n], ml[n], m);
    if ml[n] == m {
      WithoutAbsent(ml[..n], m);
    } else {
      CountWithout(ml[..n], m, meetings);
      CountSnoc(Without(ml[..n], m), ml[n], meetings);
    }
  }

  lemma {:induction false} CountEnding(ml: seq<int>, m: int, meetings: map<int, int>, now: int)
    requires Distinct(ml) && m in ml && !Ended(meetings, m) && now > 0
    ensures EndedCount(ml, meetings[m := now]) == EndedCount(ml, meetings) + 1
  {
    var n := |ml| - 1;
    if ml[n] == m {
      CountUnchanged(ml[..n], meetings, meetings[m := now]);
    } else {
      CountEnding(ml[..n], m, meetings, now);
    }
  }

  // ------------------------------------------------------------------ AddClass

  lemma AddClassKeeps(t: Tables, group: int, isPackage: bool)
    requires IdInv(t)
    ensures var t' := AddClass(t, group, isPackage);
      && IdInv(t')
      && (CacheInv(t) ==> CacheInv(t'))
      && (MeetingInv(t) ==> MeetingInv(t'))
      && (ProgressInv(t) ==> ProgressInv(t'))
  {}

  lemma AddClassRosters(t: Tables, group: int, isPackage: bool)
    requires IdInv(t) && RosterInv(t)
    ensures RosterInv(AddClass(t, group, isPackage))
  {
    assert forall u, d :: InClass(AddClass(t, group, isPackage).classes, u, d) <==> InClass(t.classes, u, d);
  }

  lemma AddClassLinks(t: Tables, group: int, isPackage: bool)
    requires IdInv(t) && LinkInv(t)
    ensures LinkInv(AddClass(t, group, isPackage))
  {
    var t' := AddClass(t, group, isPackage);
    var id := t.nextClass;
    assert !IsTop(t.classes, group, id);
    forall c, s
      ensures IsChild(t'.classes, c, s) <==> IsChild(t.classes, c, s)
      ensures IsParent(t'.classes, c, s) <==> IsParent(t.classes, c, s)
    {}
  }

  // ------------------------------------------------------------------ frames

  predicate SameMeetings(r: ClassRow, q: ClassRow) {
    r.meetings == q.meetings && r.deleted == q.deleted && r.finished == q.finished
  }

  predicate SameRosters(r: ClassRow, q: ClassRow) {
    r.teachers == q.teachers && r.students == q.students
  }

  predicate SameLinks(r: ClassRow, q: ClassRow) {
    r.group == q.group && r.isPackage == q.isPackage && r.parent == q.parent && r.children == q.children
  }

  lemma MeetingFrame(t: Tables, t': Tables, c: int, r: ClassRow)
    requires MeetingInv(t) && c in t.classes && t'.classes == t.classes[c := r]
    requires t'.meetings == t.meetings && t'.nextMeeting == t.nextMeeting
    requires SameMeetings(t.classes[c], r) && Distinct(r.teachers) && Distinct(r.students)
    ensures MeetingInv(t')
  {
    assert RowInv(t.classes[c], t.meetings, t.nextMeeting);
    assert RowInv(r, t.meetings, t.nextMeeting);
    forall d, m
      ensures d in t.classes ==> (Holds(t'.classes[d], m) <==> Holds(t.classes[d], m))
    {}
  }

  /** A row may take meetings that are new, and meetings may be added. */
  lemma MeetingGrowth(t: Tables, t': Tables, c: int, r: ClassRow)
    requires MeetingInv(t) && t'.classes == t.classes[c := r]
    requires forall m :: m < t.nextMeeting ==> (Ended(t'.meetings, m) <==> Ended(t.meetings, m))
    requires t'.nextMeeting >= t.nextMeeting && RowInv(r, t'.meetings, t'.nextMeeting)
    requires forall m :: Holds(r, m) ==> m >= t.nextMeeting || (c in t.classes && Holds(t.classes[c], m))
    ensures MeetingInv(t')
  {
    forall d | d in t.classes && d != c
      ensures RowInv(t'.classes[d], t'.meetings, t'.nextMeeting)
      ensures forall m :: Holds(t'.classes[d], m) ==> m < t.nextMeeting
    {
      assert RowInv(t.classes[d], t.meetings, t.nextMeeting);
      CountUnchanged(t.classes[d].meetings, t.meetings, t'.meetings);
    }
  }

  lemma ProgressFrame(t: Tables, t': Tables, c: int, r: ClassRow)
    requires ProgressInv(t) && c in t.classes && t'.classes == t.classes[c := r] && t'.progress == t.progress
    requires r.students == t.classes[c].students && forall m :: m in r.meetings ==> m in t.classes[c].meetings
    ensures ProgressInv(t')
  {}

  lemma RosterFrame(t: Tables, t': Tables, c: int, r: ClassRow)
    requires RosterInv(t) && c in t.classes && t'.classes == t.classes[c := r] && t'.userClasses == t.userClasses
    requires SameRosters(t.classes[c], r)
    ensures RosterInv(t')
  {
    assert forall u, d :: InClass(t'.classes, u, d) <==> InClass(t.classes, u, d);
  }

  lemma LinkFrame(t: Tables, t': Tables, c: int, r: ClassRow)
    requires LinkInv(t) && c in t.classes && t'.classes == t.classes[c := r] && t'.listing == t.listing
    requires SameLinks(t.classes[c], r)
    ensures LinkInv(t')
  {
    assert forall d, s :: IsChild(t'.classes, d, s) <==> IsChild(t.classes, d, s);
    assert forall d, s :: IsParent(t'.classes, d, s) <==> IsParent(t.classes, d, s);
    assert forall g, d :: IsTop(t'.classes, g, d) <==> IsTop(t.classes, g, d);
  }

  // -------------------------------------------------------------- ChangeUser

  lemma ChangeUserShape(t: Tables, user: int, c: int, isTeacher: bool, add: bool)
    requires c in t.classes && c in t.cache
    ensures var t' := ChangeUser(t, user, c, isTeacher, add);
      var l := NewRoster(Roster(t.classes[c], isTeacher), user, add);
      var w := WriteUserList(t, user, c, add);
      && t'.classes == t.classes[c := WithRoster(t.classes[c], isTeacher, l)]
      && t'.meetings == t.meetings && t'.listing == t.listing
      && t'.nextClass == t.nextClass && t'.nextMeeting == t.nextMeeting
      && t'.userClasses == w.userClasses && t'.userCache == w.userCache
      && t'.cache == t.cache[c := WithRoster(t.cache[c], isTeacher, l)]
      && t'.progress == (if add && !isTeacher
                         then WithRows(t.progress, user, Missing(t, user, t.classes[c].meetings)) else t.progress)
  {
    var t1 := WriteUserList(WriteRoster(t, user, c, isTeacher, add), user, c, add);
    assert Missing(t1, user, t.classes[c].meetings) == Missing(t, user, t.classes[c].meetings);
  }

  lemma ChangeUserCache(t: Tables, user: int, c: int, isTeacher: bool, add: bool)
    requires CacheInv(t) && c in t.cache
    ensures c in t.classes
    ensures CacheInv(ChangeUser(t, user, c, isTeacher, add))
  {
    ChangeUserShape(t, user, c, isTeacher, add);
  }

  lemma WithRowsFacts(p: ProgressRows, user: int, ms: set<int>)
    requires forall m :: m in ms ==> (user, m) !in p
    ensures var r := WithRows(p, user, ms);
      && (forall u, m :: (u, m) in r <==> (u, m) in p || (u == user && m in ms))
      && (forall u, m :: (u, m) in r ==> r[(u, m)] == if (u, m) in p then p[(u, m)] else 1)
  {}

  lemma ChangeUserIds(t: Tables, user: int, c: int, isTeacher: bool, add: bool)
    requires IdInv(t) && MeetingInv(t) && c in t.classes && c in t.cache
    ensures IdInv(ChangeUser(t, user, c, isTeacher, add))
  {
    assert RowInv(t.classes[c], t.meetings, t.nextMeeting);
    ChangeUserShape(t, user, c, isTeacher, add);
    WithRowsFacts(t.progress, user, Missing(t, user, t.classes[c].meetings));
  }

  lemma ChangeUserMeetings(t: Tables, user: int, c: int, isTeacher: bool, add: bool)
    requires MeetingInv(t) && c in t.classes && c in t.cache
    ensures MeetingInv(ChangeUser(t, user, c, isTeacher, add))
  {
    var l := Roster(t.classes[c], isTeacher);
    assert RowInv(t.classes[c], t.meetings, t.nextMeeting);
    ListAddFacts(user, l);
    WithoutDistinct(l, user);
    ChangeUserShape(t, user, c, isTeacher, add);
    MeetingFrame(t, ChangeUser(t, user, c, isTeacher, add), c,
                 WithRoster(t.classes[c], isTeacher, NewRoster(l, user, add)));
  }

  lemma ChangeUserProgress(t: Tables, user: int, c: int, isTeacher: bool, add: bool)
    requires ProgressInv(t) && c in t.classes && c in t.cache
    ensures ProgressInv(ChangeUser(t, user, c, isTeacher, add))
  {
    var t' := ChangeUser(t, user, c, isTeacher, add);
    ChangeUserShape(t, user, c, isTeacher, add);
    WithRowsFacts(t.progress, user, Missing(t, user, t.classes[c].meetings));
    forall d, u, m | d in t'.classes && u in t'.classes[d].students && m in t'.classes[d].meetings
      ensures (u, m) in t'.progress
    {
      assert m in t.classes[d].meetings;
      if u in t.classes[d].students {
        assert (u, m) in t.progress;
      }
    }
  }

  lemma WriteUserListFacts(t: Tables, user: int, c: int, add: bool)
    requires user in t.userClasses ==> StrictlyAscending(t.userClasses[user])
    requires !add ==> user in t.userClasses
    ensures var l' := WriteUserList(t, user, c, add).userClasses;
      && (forall u, d :: InUserList(l', u, d) <==>
            if u == user && d == c then add else InUserList(t.userClasses, u, d))
      && (forall u :: u in l' && u != user ==> u in t.userClasses && l'[u] == t.userClasses[u])
      && (user in l' ==> StrictlyAscending(l'[user]))
  {
    var l := UserList(t.userClasses, user);
    SortedAddFacts(c, l);
    AscendingWithout(l, c);
  }

  /** Agreement after one pair was touched on both sides. */
  lemma AgreeAfter(classes: map<int, ClassRow>, classes': map<int, ClassRow>,
                   lists: map<int, seq<int>>, lists': map<int, seq<int>>,
                   user: int, c: int, listed: bool, rostered: bool)
    requires forall u, d :: InUserList(lists, u, d) <==> InClass(classes, u, d)
    requires forall u, d :: InUserList(lists', u, d) <==> if u == user && d == c then listed else InUserList(lists, u, d)
    requires forall u, d :: InClass(classes', u, d) <==> if u == user && d == c then rostered else InClass(classes, u, d)
    ensures (forall u, d :: InUserList(lists', u, d) <==> InClass(classes', u, d)) <==> listed == rostered
  {
    if listed != rostered {
      assert !(InUserList(lists', user, c) <==> InClass(classes', user, c));
    }
  }

  predicate OnBothRosters(r: ClassRow, u: int) {
    u in r.teachers && u in r.students
  }

  lemma WithRosterOnRoster(r: ClassRow, isTeacher: bool, user: int, add: bool, u: int)
    ensures OnRoster(WithRoster(r, isTeacher, NewRoster(Roster(r, isTeacher), user, add)), u)
       <==> if u == user then add || user in Roster(r, !isTeacher) else OnRoster(r, u)
  {}

  /** The rosters after a change: one pair may differ. */
  lemma ChangedRosters(t: Tables, user: int, c: int, isTeacher: bool, add: bool, u: int, d: int)
    requires c in t.classes && c in t.cache
    ensures InClass(ChangeUser(t, user, c, isTeacher, add).classes, u, d)
       <==> if u == user && d == c then add || user in Roster(t.classes[c], !isTeacher) else InClass(t.classes, u, d)
  {
    ChangeUserShape(t, user, c, isTeacher, add);
    WithRosterOnRoster(t.classes[c], isTeacher, user, add, u);
  }

  /** The user lists after a change: the same pair, and the order stays. */
  lemma ChangedLists(t: Tables, user: int, c: int, isTeacher: bool, add: bool)
    requires RosterInv(t) && c in t.classes && c in t.cache
    requires add != (user in Roster(t.classes[c], isTeacher))
    ensures var l' := ChangeUser(t, user, c, isTeacher, add).userClasses;
      && (forall u, d :: InUserList(l', u, d) <==> if u == user && d == c then add else InUserList(t.userClasses, u, d))
      && (forall u :: u in l' ==> StrictlyAscending(l'[u]))
  {
    ChangeUserShape(t, user, c, isTeacher, add);
    if !add {
      assert InClass(t.classes, user, c);
      assert InUserList(t.userClasses, user, c);
    }
    WriteUserListFacts(t, user, c, add);
  }

  /** A removal breaks the lists exactly when the user stays on the other roster. */
  lemma ChangeUserRosters(t: Tables, user: int, c: int, isTeacher: bool, add: bool)
    requires RosterInv(t) && c in t.classes && c in t.cache
    requires add != (user in Roster(t.classes[c], isTeacher))
    ensures RosterInv(ChangeUser(t, user, c, isTeacher, add)) <==> add || !OnBothRosters(t.classes[c], user)
  {
    var t' := ChangeUser(t, user, c, isTeacher, add);
    var rostered := add || user in Roster(t.classes[c], !isTeacher);
    ChangedLists(t, user, c, isTeacher, add);
    forall u, d
      ensures InClass(t'.classes, u, d) <==> if u == user && d == c then rostered else InClass(t.classes, u, d)
    {
      ChangedRosters(t, user, c, isTeacher, add, u, d);
    }
    AgreeAfter(t.classes, t'.classes, t.userClasses, t'.userClasses, user, c, add, rostered);
  }

  lemma ChangeUserLinks(t: Tables, user: int, c: int, isTeacher: bool, add: bool)
    requires LinkInv(t) && c in t.classes && c in t.cache
    ensures LinkInv(ChangeUser(t, user, c, isTeacher, add))
  {
    ChangeUserShape(t, user, c, isTeacher, add);
    LinkFrame(t, ChangeUser(t, user, c, isTeacher, add), c,
              WithRoster(t.classes[c], isTeacher, NewRoster(Roster(t.classes[c], isTeacher), user, add)));
  }

  // ---------------------------------------------------------------- EndClass

  lemma EndClassKeeps(t: Tables, c: int, now: int)
    requires CacheInv(t) && IdInv(t) && c in t.cache
    ensures c in t.classes
    ensures CacheInv(EndClass(t, c, now)) && IdInv(EndClass(t, c, now))
  {}

  lemma EndClassRest(t: Tables, c: int, now: int)
    requires c in t.classes && c in t.cache
    ensures MeetingInv(t) ==> MeetingInv(EndClass(t, c, now))
    ensures ProgressInv(t) ==> ProgressInv(EndClass(t, c, now))
    ensures RosterInv(t) ==> RosterInv(EndClass(t, c, now))
    ensures LinkInv(t) ==> LinkInv(EndClass(t, c, now))
  {
    var t' := EndClass(t, c, now);
    var r := t'.classes[c];
    if MeetingInv(t) {
      assert RowInv(t.classes[c], t.meetings, t.nextMeeting);
      MeetingFrame(t, t', c, r);
    }
    if ProgressInv(t) { ProgressFrame(t, t', c, r); }
    if RosterInv(t) { RosterFrame(t, t', c, r); }
    if LinkInv(t) { LinkFrame(t, t', c, r); }
  }

  // -------------------------------------------------------------- AddMeeting

  lemma {:induction false} InsertRowsFacts(p: ProgressRows, users: seq<int>, m: int)
    requires Distinct(users) && forall u :: (u, m) !in p
    ensures var r := InsertRows(p, users, m);
      && (forall u, k :: (u, k) in r <==> (u, k) in p || (k == m && u in users))
      && (forall u, k :: (u, k) in r ==> r[(u, k)] == if (u, k) in p then p[(u, k)] else 1)
  {
    if users != [] {
      var n := |users| - 1;
      InsertRowsFacts(p, users[..n], m);
      assert users == users[..n] + [users[n]];
      assert users[n] !in users[..n];
    }
  }

  lemma AddMeetingKeeps(t: Tables, c: int)
    requires CacheInv(t) && IdInv(t) && MeetingInv(t) && c in t.cache
    ensures c in t.classes
    ensures CacheInv(AddMeeting(t, c)) && IdInv(AddMeeting(t, c))
    ensures AddMeeting(t, c).classes[c].meetings == t.classes[c].meetings + [t.nextMeeting]
  {
    assert RowInv(t.classes[c], t.meetings, t.nextMeeting);
    InsertRowsFacts(t.progress, t.classes[c].students, t.nextMeeting);
  }

  lemma AddMeetingMeetings(t: Tables, c: int)
    requires CacheInv(t) && IdInv(t) && MeetingInv(t) && c in t.cache && c in t.classes
    ensures MeetingInv(AddMeeting(t, c))
  {
    var t' := AddMeeting(t, c);
    var m := t.nextMeeting;
    var r := t.classes[c];
    assert RowInv(r, t.meetings, t.nextMeeting);
    CountUnchanged(r.meetings, t.meetings, t'.meetings);
    CountSnoc(r.meetings, m, t'.meetings);
    MeetingGrowth(t, t', c, r.(meetings := r.meetings + [m]));
  }

  lemma AddMeetingProgress(t: Tables, c: int)
    requires CacheInv(t) && IdInv(t) && MeetingInv(t) && ProgressInv(t) && c in t.cache && c in t.classes
    ensures ProgressInv(AddMeeting(t, c))
  {
    var t' := AddMeeting(t, c);
    assert RowInv(t.classes[c], t.meetings, t.nextMeeting);
    InsertRowsFacts(t.progress, t.classes[c].students, t.nextMeeting);
    forall d, u, m | d in t'.classes && u in t'.classes[d].students && m in t'.classes[d].meetings
      ensures (u, m) in t'.progress
    {
      assert u in t.classes[d].students;
      if m in t.classes[d].meetings {
        assert (u, m) in t.progress;
      }
    }
  }

  lemma AddMeetingRest(t: Tables, c: int)
    requires c in t.classes && c in t.cache
    ensures RosterInv(t) ==> RosterInv(AddMeeting(t, c))
    ensures LinkInv(t) ==> LinkInv(AddMeeting(t, c))
  {
    var t' := AddMeeting(t, c);
    if RosterInv(t) { RosterFrame(t, t', c, t'.classes[c]); }
    if LinkInv(t) { LinkFrame(t, t', c, t'.classes[c]); }
  }

  // -------------------------------------------------------------- EndMeeting

  lemma EndMeetingKeeps(t: Tables, c: int, m: int, now: int)
    requires CacheInv(t) && IdInv(t) && c in t.cache && m in t.meetings
    ensures c in t.classes
    ensures CacheInv(EndMeeting(t, c, m, now)) && IdInv(EndMeeting(t, c, m, now))
  {}

  lemma EndMeetingMeetings(t: Tables, c: int, m: int, now: int)
    requires MeetingInv(t) && c in t.cache && c in t.classes
    requires m in t.classes[c].meetings && !Ended(t.meetings, m) && now > 0
    ensures MeetingInv(EndMeeting(t, c, m, now))
  {
    var t' := EndMeeting(t, c, m, now);
    forall d | d in t.classes
      ensures RowInv(t'.classes[d], t'.meetings, t'.nextMeeting)
    {
      var r := t.classes[d];
      assert RowInv(r, t.meetings, t.nextMeeting);
      if d == c {
        CountEnding(r.meetings, m, t.meetings, now);
      } else {
        assert Holds(t.classes[c], m);
        assert !Holds(r, m);
        CountUnchanged(r.meetings, t.meetings, t'.meetings);
      }
    }
    forall d, k
      ensures d in t.classes ==> (Holds(t'.classes[d], k) <==> Holds(t.classes[d], k))
    {}
  }

  lemma EndMeetingRest(t: Tables, c: int, m: int, now: int)
    requires c in t.classes && c in t.cache
    ensures ProgressInv(t) ==> ProgressInv(EndMeeting(t, c, m, now))
    ensures RosterInv(t) ==> RosterInv(EndMeeting(t, c, m, now))
    ensures LinkInv(t) ==> LinkInv(EndMeeting(t, c, m, now))
  {
    var t' := EndMeeting(t, c, m, now);
    if ProgressInv(t) { ProgressFrame(t, t', c, t'.classes[c]); }
    if RosterInv(t) { RosterFrame(t, t', c, t'.classes[c]); }
    if LinkInv(t) { LinkFrame(t, t', c, t'.classes[c]); }
  }

  // ------------------------------------------------------------ DeleteMeeting

  /** The stored counter is positive when an ended meeting goes, so the clamp on the
      cached one is never taken. */
  lemma ClampNeverTaken(t: Tables, m: int, c: int)
    requires CacheInv(t) && MeetingInv(t) && c in t.cache && m in t.cache[c].meetings && Ended(t.meetings, m)
    ensures t.cache[c].finished - 1 >= 0
    ensures DeleteMeeting(t, m, c).cache[c].finished == t.cache[c].finished - 1
  {
    assert RowInv(t.classes[c], t.meetings, t.nextMeeting);
    CountWithout(t.classes[c].meetings, m, t.meetings);
  }

  lemma DeleteMeetingKeeps(t: Tables, m: int, c: int)
    requires CacheInv(t) && IdInv(t) && MeetingInv(t) && c in t.cache && m in t.cache[c].meetings
    ensures c in t.classes
    ensures CacheInv(DeleteMeeting(t, m, c)) && IdInv(DeleteMeeting(t, m, c))
  {
    if Ended(t.meetings, m) {
      ClampNeverTaken(t, m, c);
    }
  }

  lemma DeleteMeetingMeetings(t: Tables, m: int, c: int)
    requires MeetingInv(t) && c in t.cache && c in t.classes && m in t.classes[c].meetings
    ensures MeetingInv(DeleteMeeting(t, m, c))
  {
    var t' := DeleteMeeting(t, m, c);
    var r := t.classes[c];
    assert RowInv(r, t.meetings, t.nextMeeting);
    WithoutDistinct(r.meetings, m);
    ListAddFacts(m, r.deleted);
    CountWithout(r.meetings, m, t.meetings);
    assert RowInv(t'.classes[c], t'.meetings, t'.nextMeeting);
    forall d, k
      ensures d in t.classes ==> (Holds(t'.classes[d], k) <==> Holds(t.classes[d], k))
    {}
  }

  lemma DeleteMeetingRest(t: Tables, m: int, c: int)
    requires c in t.classes && c in t.cache
    ensures ProgressInv(t) ==> ProgressInv(DeleteMeeting(t, m, c))
    ensures RosterInv(t) ==> RosterInv(DeleteMeeting(t, m, c))
    ensures LinkInv(t) ==> LinkInv(DeleteMeeting(t, m, c))
  {
    var t' := DeleteMeeting(t, m, c);
    if ProgressInv(t) { ProgressFrame(t, t', c, t'.classes[c]); }
    if RosterInv(t) { RosterFrame(t, t', c, t'.classes[c]); }
    if LinkInv(t) { LinkFrame(t, t', c, t'.classes[c]); }
  }

  // -------------------------------------------------------------- CloneClass

  lemma {:induction false} NoneEnded(ml: seq<int>, meetings: map<int, int>)
    requires forall m :: m in ml ==> !Ended(meetings, m)
    ensures EndedCount(ml, meetings) == 0
  {
    if ml != [] {
      NoneEnded(ml[..|ml| - 1], meetings);
    }
  }

  lemma CloneClassKeeps(t: Tables, c: int, group: int, isPackage: bool)
    requires CacheInv(t) && IdInv(t) && c in t.cache
    ensures CacheInv(CloneClass(t, c, group, isPackage)) && IdInv(CloneClass(t, c, group, isPackage))
    ensures ProgressInv(t) ==> ProgressInv(CloneClass(t, c, group, isPackage))
  {}

  lemma CloneClassShape(t: Tables, c: int, group: int, isPackage: bool)
    requires c in t.cache
    ensures var ids := Ids(t.nextMeeting, |t.cache[c].meetings|);
      var t' := CloneClass(t, c, group, isPackage);
      && t'.classes == t.classes[t.nextClass := ClassRow(group, isPackage, [], [], ids, [], 0, 0, [], [])]
      && t'.meetings == t.meetings + (map m | m in ids :: 0) && t'.nextMeeting == t.nextMeeting + |ids|
  {}

  lemma CloneClassMeetings(t: Tables, c: int, group: int, isPackage: bool)
    requires MeetingInv(t) && IdInv(t) && c in t.cache
    ensures MeetingInv(CloneClass(t, c, group, isPackage))
  {
    var t' := CloneClass(t, c, group, isPackage);
    var r := t'.classes[t.nextClass];
    CloneClassShape(t, c, group, isPackage);
    NoneEnded(r.meetings, t'.meetings);
    MeetingGrowth(t, t', t.nextClass, r);
  }

  lemma CloneClassRest(t: Tables, c: int, group: int, isPackage: bool)
    requires IdInv(t) && c in t.cache
    ensures RosterInv(t) ==> RosterInv(CloneClass(t, c, group, isPackage))
    ensures LinkInv(t) ==> LinkInv(CloneClass(t, c, group, isPackage))
  {
    var t1 := CloneMeetings(AddClass(t, group, isPackage), |t.cache[c].meetings|);
    var t' := CloneClass(t, c, group, isPackage);
    if RosterInv(t) {
      AddClassRosters(t, group, isPackage);
      RosterFrame(t1, t', t.nextClass, t'.classes[t.nextClass]);
    }
    if LinkInv(t) {
      AddClassLinks(t, group, isPackage);
      LinkFrame(t1, t', t.nextClass, t'.classes[t.nextClass]);
    }
  }

  // ------------------------------------------------------------- DeleteClass

  lemma DeleteClassShape(t: Tables, c: int, mayPurge: set<int>)
    requires c in t.cache
    ensures var t' := DeleteClass(t, c, mayPurge);
      var r := t.cache[c];
      var users := Members(r.students) + Members(r.teachers);
      && t'.classes == t.classes - {c} && t'.cache == t.cache - {c}
      && t'.listing == t.listing - {(r.group, c)}
      && t'.userClasses == Dropped(t.userClasses, users, c)
      && t'.userCache == DropFromLists(t, users, c).userCache
      && t'.meetings == t.meetings - Members(r.deleted) * mayPurge
      && (forall u, m :: (u, m) in t'.progress <==>
            (u, m) in t.progress && !(m in mayPurge && m in r.deleted && m in t.meetings))
      && (forall u, m :: (u, m) in t'.progress ==> t'.progress[(u, m)] == t.progress[(u, m)])
      && t'.nextClass == t.nextClass && t'.nextMeeting == t.nextMeeting
  {}

  lemma DropFromListsCache(t: Tables, users: set<int>, c: int)
    requires CacheInv(t)
    ensures CacheInv(DropFromLists(t, users, c))
  {
    var t' := DropFromLists(t, users, c);
    forall u | u in t'.userCache
      ensures u in t'.userClasses && t'.userCache[u] == t'.userClasses[u]
    {
      if u !in Affected(t.userClasses, users, c) {
        assert u in t.userCache;
        if u in users {
          WithoutAbsent(t.userClasses[u], c);
        }
      }
    }
  }

  lemma DeleteClassKeeps(t: Tables, c: int, mayPurge: set<int>)
    requires CacheInv(t) && IdInv(t) && c in t.cache
    ensures CacheInv(DeleteClass(t, c, mayPurge)) && IdInv(DeleteClass(t, c, mayPurge))
  {
    DeleteClassShape(t, c, mayPurge);
    DropFromListsCache(t, Members(t.cache[c].students) + Members(t.cache[c].teachers), c);
  }

  lemma DeleteClassMeetings(t: Tables, c: int, mayPurge: set<int>)
    requires CacheInv(t) && MeetingInv(t) && c in t.cache
    ensures MeetingInv(DeleteClass(t, c, mayPurge))
  {
    var t' := DeleteClass(t, c, mayPurge);
    DeleteClassShape(t, c, mayPurge);
    forall d | d in t'.classes
      ensures RowInv(t'.classes[d], t'.meetings, t'.nextMeeting)
    {
      assert RowInv(t.classes[d], t.meetings, t.nextMeeting);
      forall m | m in t.classes[d].meetings
        ensures Ended(t'.meetings, m) <==> Ended(t.meetings, m)
      {
        assert Holds(t.classes[d], m);
        assert !Holds(t.classes[c], m);
      }
      CountUnchanged(t.classes[d].meetings, t.meetings, t'.meetings);
    }
  }

  lemma DeleteClassProgress(t: Tables, c: int, mayPurge: set<int>)
    requires CacheInv(t) && MeetingInv(t) && ProgressInv(t) && c in t.cache
    ensures ProgressInv(DeleteClass(t, c, mayPurge))
  {
    var t' := DeleteClass(t, c, mayPurge);
    DeleteClassShape(t, c, mayPurge);
    forall d, u, m | d in t'.classes && u in t'.classes[d].students && m in t'.classes[d].meetings
      ensures (u, m) in t'.progress
    {
      assert d in t.classes && d != c && (u, m) in t.progress;
      assert Holds(t.classes[d], m);
      assert !Holds(t.classes[c], m);
    }
  }

  lemma DeleteClassRosters(t: Tables, c: int, mayPurge: set<int>)
    requires CacheInv(t) && RosterInv(t) && c in t.cache
    ensures RosterInv(DeleteClass(t, c, mayPurge))
  {
    var t' := DeleteClass(t, c, mayPurge);
    DeleteClassShape(t, c, mayPurge);
    var r := t.classes[c];
    var users := Members(r.students) + Members(r.teachers);
    forall u, d
      ensures InUserList(t'.userClasses, u, d) <==> InClass(t'.classes, u, d)
    {
      assert InUserList(t.userClasses, u, d) <==> InClass(t.classes, u, d);
      assert u in users <==> OnRoster(r, u);
    }
    forall u | u in t'.userClasses
      ensures StrictlyAscending(t'.userClasses[u])
    {
      assert StrictlyAscending(t.userClasses[u]);
      AscendingWithout(t.userClasses[u], c);
    }
  }

  /** Deleting an empty class keeps the links iff it is no package's child. */
  lemma DeleteClassLinks(t: Tables, c: int, mayPurge: set<int>)
    requires CacheInv(t) && LinkInv(t) && c in t.cache && t.classes[c].children == []
    ensures LinkInv(DeleteClass(t, c, mayPurge)) <==> t.classes[c].parent == []
  {
    var t' := DeleteClass(t, c, mayPurge);
    DeleteClassShape(t, c, mayPurge);
    forall d, s
      ensures IsChild(t'.classes, d, s) <==> IsChild(t.classes, d, s)
      ensures IsParent(t'.classes, d, s) <==> IsParent(t.classes, d, s) && s != c
    {
      assert IsChild(t.classes, c, s) <==> IsParent(t.classes, c, s);
    }
    if t.classes[c].parent == [] {
      forall d
        ensures !IsParent(t.classes, d, c)
      {}
    } else {
      var d := t.classes[c].parent[0];
      assert IsParent(t.classes, d, c);
      assert IsChild(t'.classes, d, c) && !IsParent(t'.classes, d, c);
    }
    forall g, d
      ensures IsTop(t'.classes, g, d) <==> IsTop(t.classes, g, d) && d != c
    {}
  }

  // -------------------------------------------------------------- sub-classes

  /** The shared shape of the two link operations. */
  lemma SubClassShape(t: Tables, t': Tables, c: int, s: int, cl: seq<int>, pl: seq<int>)
    requires c in t.classes && s in t.classes
    requires var k := t.classes[c := t.classes[c].(children := cl)];
      t'.classes == k[s := k[s].(parent := pl)]
    ensures t'.classes.Keys == t.classes.Keys
    ensures forall d :: d in t.classes ==>
      SameMeetings(t.classes[d], t'.classes[d]) && SameRosters(t.classes[d], t'.classes[d])
      && t'.classes[d].group == t.classes[d].group && t'.classes[d].isPackage == t.classes[d].isPackage
      && t'.classes[d].children == (if d == c then cl else t.classes[d].children)
      && t'.classes[d].parent == (if d == s then pl else t.classes[d].parent)
  {}

  lemma SubClassFrame(t: Tables, t': Tables)
    requires t'.classes.Keys == t.classes.Keys && t'.meetings == t.meetings && t'.progress == t.progress
    requires t'.userClasses == t.userClasses && t'.nextMeeting == t.nextMeeting && t'.nextClass == t.nextClass
    requires forall d :: d in t.classes ==>
      SameMeetings(t.classes[d], t'.classes[d]) && SameRosters(t.classes[d], t'.classes[d])
    ensures IdInv(t) ==> IdInv(t')
    ensures MeetingInv(t) ==> MeetingInv(t')
    ensures ProgressInv(t) ==> ProgressInv(t')
    ensures RosterInv(t) ==> RosterInv(t')
  {
    if MeetingInv(t) {
      forall d | d in t.classes
        ensures RowInv(t'.classes[d], t'.meetings, t'.nextMeeting)
      {
        assert RowInv(t.classes[d], t.meetings, t.nextMeeting);
      }
      forall d, m
        ensures d in t.classes ==> (Holds(t'.classes[d], m) <==> Holds(t.classes[d], m))
      {}
    }
    assert forall u, d :: InClass(t'.classes, u, d) <==> InClass(t.classes, u, d);
  }

  lemma AddSubClassKeeps(t: Tables, c: int, s: int)
    requires CacheInv(t) && c in t.cache && s in t.cache
    ensures c in t.classes && s in t.classes
    ensures CacheInv(AddSubClass(t, c, s))
    ensures IdInv(t) ==> IdInv(AddSubClass(t, c, s))
    ensures MeetingInv(t) ==> MeetingInv(AddSubClass(t, c, s))
    ensures ProgressInv(t) ==> ProgressInv(AddSubClass(t, c, s))
    ensures RosterInv(t) ==> RosterInv(AddSubClass(t, c, s))
  {
    var t' := AddSubClass(t, c, s);
    SubClassShape(t, t', c, s, ListAdd(s, t.classes[c].children), ListAdd(c, t.classes[s].parent));
    SubClassFrame(t, t');
  }

  lemma AddSubClassLinks(t: Tables, c: int, s: int)
    requires CacheInv(t) && LinkInv(t) && c in t.cache && s in t.cache && c in t.classes && s in t.classes
    requires t.classes[c].isPackage
    ensures LinkInv(AddSubClass(t, c, s))
  {
    var t' := AddSubClass(t, c, s);
    var cl, pl := ListAdd(s, t.classes[c].children), ListAdd(c, t.classes[s].parent);
    SubClassShape(t, t', c, s, cl, pl);
    ListAddFacts(s, t.classes[c].children);
    ListAddFacts(c, t.classes[s].parent);
    forall d, x
      ensures IsChild(t'.classes, d, x) <==> IsChild(t.classes, d, x) || (d == c && x == s)
      ensures IsParent(t'.classes, d, x) <==> IsParent(t.classes, d, x) || (d == c && x == s)
    {}
    assert c in pl;
    forall g, x
      ensures IsTop(t'.classes, g, x) <==> IsTop(t.classes, g, x) && x != s
    {}
  }

  lemma DeleteSubClassKeeps(t: Tables, c: int, s: int)
    requires CacheInv(t) && c in t.cache && s in t.cache
    ensures c in t.classes && s in t.classes
    ensures CacheInv(DeleteSubClass(t, c, s))
    ensures IdInv(t) ==> IdInv(DeleteSubClass(t, c, s))
    ensures MeetingInv(t) ==> MeetingInv(DeleteSubClass(t, c, s))
    ensures ProgressInv(t) ==> ProgressInv(DeleteSubClass(t, c, s))
    ensures RosterInv(t) ==> RosterInv(DeleteSubClass(t, c, s))
  {
    var t' := DeleteSubClass(t, c, s);
    SubClassShape(t, t', c, s, Without(t.classes[c].children, s), Without(t.classes[s].parent, c));
    SubClassFrame(t, t');
  }

  lemma DeleteSubClassLinks(t: Tables, c: int, s: int)
    requires CacheInv(t) && LinkInv(t) && c in t.cache && s in t.cache && c in t.classes && s in t.classes
    requires s in t.classes[c].children
    ensures LinkInv(DeleteSubClass(t, c, s))
  {
    var t' := DeleteSubClass(t, c, s);
    var cl, pl := Without(t.classes[c].children, s), Without(t.classes[s].parent, c);
    SubClassShape(t, t', c, s, cl, pl);
    WithoutDistinct(t.classes[c].children, s);
    WithoutDistinct(t.classes[s].parent, c);
    forall d, x
      ensures IsChild(t'.classes, d, x) <==> IsChild(t.classes, d, x) && !(d == c && x == s)
      ensures IsParent(t'.classes, d, x) <==> IsParent(t.classes, d, x) && !(d == c && x == s)
    {}
    assert IsChild(t.classes, c, s);
    assert IsParent(t.classes, c, s);
    forall g, x
      ensures IsTop(t'.classes, g, x) <==>
        IsTop(t.classes, g, x) || (x == s && pl == [] && g == t.classes[s].group)
    {}
  }
}
