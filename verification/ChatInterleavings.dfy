/** Logins taken apart: what becomes of a reply when the parts of other logins and other
    users' messages come between a login's registration and its reply. */
module ChatInterleavings {
  import opened ChatProtocol

  function Register(s: Server, c: ConnId, user: UserId): Server {
    s.(online := s.online[user := c])
  }

  function Notify(s: Server, user: UserId): Server {
    s.(channels := Sent(s, s.online.Keys - {user}, NotifyUserStatus(user, USER_ONLINE)))
  }

  function Reply(s: Server, c: ConnId, m: Message): Server {
    if c in s.channels then s.(channels := Write(s.channels, c, m)) else s
  }

  lemma LoginIsItsParts(s: Server, c: ConnId, user: UserId, listing: seq<UserId>)
    requires c in s.channels
    ensures Login(s, c, user, Accepted, listing) == Reply(Notify(Register(s, c, user), user), c, LoginRes(200, listing))
  {}

  /** One part of a login, or one message posted to all. */
  datatype Part =
    | RegisterPart(c: ConnId, user: UserId)
    | NotifyPart(user: UserId)
    | ReplyPart(c: ConnId, code: int, listing: seq<UserId>)
    | PostPart(sender: UserId, content: string)

  function Do(s: Server, p: Part): Server {
    match p
    case RegisterPart(c, user) => Register(s, c, user)
    case NotifyPart(user) => Notify(s, user)
    case ReplyPart(c, code, listing) => Reply(s, c, LoginRes(code, listing))
    case PostPart(sender, content) => GroupMes(s, Sms(sender, content))
  }

  function DoAll(s: Server, parts: seq<Part>): Server
    decreases |parts|
  {
    if parts == [] then s else DoAll(Do(s, parts[0]), parts[1..])
  }

  /** A connection has one handler, so while it is busy with a login no other part of a
      login is done on this connection. */
  predicate Elsewhere(parts: seq<Part>, c: ConnId) {
    forall i :: 0 <= i < |parts| && (parts[i].RegisterPart? || parts[i].ReplyPart?) ==> parts[i].c != c
  }

  ghost predicate NobodyOn(online: map<UserId, ConnId>, c: ConnId) {
    forall id :: id in online ==> online[id] != c
  }

  // ------------------------------------------------------- what the channel gets

  /** What this user is sent by one part. */
  function HeardOf(p: Part, user: UserId): seq<Message> {
    match p
    case NotifyPart(other) => if other == user then [] else [NotifyUserStatus(other, USER_ONLINE)]
    case PostPart(sender, content) => if sender == user then [] else [Sms(sender, content)]
    case _ => []
  }

  /** What goes to the connection the user has now: all of it up to the user's next
      registration, which takes another connection. */
  function Heard(parts: seq<Part>, user: UserId): seq<Message> {
    if parts == [] || IsMove(parts[0], user) then []
    else HeardOf(parts[0], user) + Heard(parts[1..], user)
  }

  predicate IsMove(p: Part, user: UserId) {
    p.RegisterPart? && p.user == user
  }

  lemma NothingSent(s: Server, ids: set<UserId>, m: Message, c: ConnId)
    requires c in s.channels && NobodyOn(s.online, c)
    ensures Sent(s, ids, m)[c] == s.channels[c]
  {
    var here := OnConn(s.online, ids, c);
    assert forall id: UserId :: id !in here;
    assert here == {};
    assert Repeat(m, 0) == [];
  }

  lemma NobodyHears(s: Server, c: ConnId, p: Part)
    requires c in s.channels && NobodyOn(s.online, c) && Elsewhere([p], c)
    ensures var t := Do(s, p); c in t.channels && NobodyOn(t.online, c) && t.channels[c] == s.channels[c]
  {
    assert [p][0] == p;
    match p
    case NotifyPart(other) => NothingSent(s, s.online.Keys - {other}, NotifyUserStatus(other, USER_ONLINE), c);
    case PostPart(sender, content) => NothingSent(s, s.online.Keys - {sender}, Sms(sender, content), c);
    case _ =>
  }

  lemma {:induction false} AbandonedStaysQuiet(s: Server, c: ConnId, parts: seq<Part>)
    requires c in s.channels && NobodyOn(s.online, c) && Elsewhere(parts, c)
    ensures var t := DoAll(s, parts); c in t.channels && t.channels[c] == s.channels[c]
    decreases |parts|
  {
    if parts != [] {
      assert [parts[0]][0] == parts[0];
      NobodyHears(s, c, parts[0]);
      AbandonedStaysQuiet(Do(s, parts[0]), c, parts[1..]);
    }
  }

  ghost predicate Holds(s: Server, c: ConnId, user: UserId) {
    c in s.channels && user in s.online && s.online[user] == c && OneUser(s.online, c, user)
  }

  lemma HolderHears(s: Server, c: ConnId, user: UserId, p: Part)
    requires Holds(s, c, user) && Elsewhere([p], c) && !IsMove(p, user)
    ensures var t := Do(s, p); Holds(t, c, user) && t.channels[c] == s.channels[c] + HeardOf(p, user)
  {
    assert [p][0] == p;
    match p
    case NotifyPart(other) =>
      SentTo(s, s.online.Keys - {other}, NotifyUserStatus(other, USER_ONLINE), c, user);
    case PostPart(sender, content) =>
      SentTo(s, s.online.Keys - {sender}, Sms(sender, content), c, user);
    case _ =>
  }

  /** Whatever is done elsewhere, the channel gets exactly what its user is sent while the
      connection is the user's. */
  lemma {:induction false} ChannelAfter(s: Server, c: ConnId, user: UserId, parts: seq<Part>)
    requires Holds(s, c, user) && Elsewhere(parts, c)
    ensures var t := DoAll(s, parts); c in t.channels && t.channels[c] == s.channels[c] + Heard(parts, user)
    decreases |parts|
  {
    if parts != [] {
      var p, t := parts[0], Do(s, parts[0]);
      assert [p][0] == p;
      if IsMove(p, user) {
        AbandonedStaysQuiet(t, c, parts[1..]);
      } else {
        HolderHears(s, c, user, p);
        ChannelAfter(t, c, user, parts[1..]);
        assert s.channels[c] + HeardOf(p, user) + Heard(parts[1..], user)
            == s.channels[c] + (HeardOf(p, user) + Heard(parts[1..], user));
      }
    }
  }

  // --------------------------------------------------------- when it goes right

  /** An announcement of another user, or another user's message. */
  predicate Disturbs(p: Part, user: UserId) {
    (p.NotifyPart? && p.user != user) || (p.PostPart? && p.sender != user)
  }

  predicate MovedBefore(parts: seq<Part>, i: nat, user: UserId)
    requires i <= |parts|
  {
    exists j :: 0 <= j < i && IsMove(parts[j], user)
  }

  /** Nothing disturbs while the connection is the user's. */
  predicate Undisturbed(parts: seq<Part>, user: UserId) {
    forall i :: 0 <= i < |parts| && Disturbs(parts[i], user) ==> MovedBefore(parts, i, user)
  }

  lemma UndisturbedCons(parts: seq<Part>, user: UserId)
    requires parts != []
    ensures Undisturbed(parts, user)
       <==> IsMove(parts[0], user) || (!Disturbs(parts[0], user) && Undisturbed(parts[1..], user))
  {
    var p, rest := parts[0], parts[1..];
    assert forall i :: 0 <= i < |rest| ==> rest[i] == parts[i + 1];
    if IsMove(p, user) {
      forall i | 0 <= i < |parts| && Disturbs(parts[i], user)
        ensures MovedBefore(parts, i, user)
      {
        assert i > 0;
      }
    } else {
      forall i | 0 <= i < |rest|
        ensures MovedBefore(parts, i + 1, user) <==> MovedBefore(rest, i, user)
      {
        if MovedBefore(parts, i + 1, user) {
          var j :| 0 <= j < i + 1 && IsMove(parts[j], user);
          assert IsMove(rest[j - 1], user);
        }
        if MovedBefore(rest, i, user) {
          var j :| 0 <= j < i && IsMove(rest[j], user);
          assert IsMove(parts[j + 1], user);
        }
      }
      assert !MovedBefore(parts, 0, user);
      if Undisturbed(parts, user) {
        forall i | 0 <= i < |rest| && Disturbs(rest[i], user)
          ensures MovedBefore(rest, i, user)
        {
          assert Disturbs(parts[i + 1], user);
        }
      }
    }
  }

  lemma {:induction false} NothingHeard(parts: seq<Part>, user: UserId)
    ensures Heard(parts, user) == [] <==> Undisturbed(parts, user)
    ensures forall i :: 0 <= i < |Heard(parts, user)| ==> !Heard(parts, user)[i].LoginRes?
  {
    if parts != [] {
      UndisturbedCons(parts, user);
      NothingHeard(parts[1..], user);
    }
  }

  /** A login whose registration and reply have anything at all between them, its own
      announcement included: the reply opens the connection, and the client enters the
      chat, iff nothing disturbs while the connection is the user's. */
  lemma ReplyIsFirst(s: Server, c: ConnId, user: UserId, parts: seq<Part>, listing: seq<UserId>)
    requires c in s.channels && s.channels[c] == [] && NobodyOn(s.online, c) && Elsewhere(parts, c)
    ensures var t := Reply(DoAll(Register(s, c, user), parts), c, LoginRes(200, listing));
      && c in t.channels && t.channels[c] == Heard(parts, user) + [LoginRes(200, listing)]
      && (t.channels[c][0] == LoginRes(200, listing) <==> Undisturbed(parts, user))
      && (Receive(Client(user, Waiting, map[]), t.channels[c][0]).phase == Chatting <==> Undisturbed(parts, user))
  {
    ChannelAfter(Register(s, c, user), c, user, parts);
    assert [] + Heard(parts, user) == Heard(parts, user);
    NothingHeard(parts, user);
  }

  /** The start this asks for is that of every login of every run: a connection that waits
      for its login has an empty channel and nobody online on it. */
  lemma WaitingConnectionsAreFresh(events: seq<Event>, c: ConnId)
    ensures var s := Run(events);
      c in s.waiting ==>
        c in s.server.channels && s.server.channels[c] == [] && NobodyOn(s.server.online, c)
  {
    EveryRun(events);
  }

  /** Two logins on two fresh connections: b's announcement after a's registration and before
      a's reply refuses a's client; b's registration alone does it no harm. */
  lemma InterleavedLoginsRefuseAClient(a: UserId, b: UserId, listing: seq<UserId>)
    requires a != b
    ensures var s := Register(Server(map[], map[0 := [], 1 := []]), 0, a);
      var bad := Reply(DoAll(s, [RegisterPart(1, b), NotifyPart(b), NotifyPart(a)]), 0, LoginRes(200, listing));
      var good := Reply(DoAll(s, [RegisterPart(1, b), NotifyPart(a)]), 0, LoginRes(200, listing));
      && 0 in bad.channels && 0 in good.channels
      && bad.channels[0] == [NotifyUserStatus(b, USER_ONLINE), LoginRes(200, listing)]
      && Receive(Client(a, Waiting, map[]), bad.channels[0][0]).phase != Chatting
      && good.channels[0] == [LoginRes(200, listing)]
  {
    var s0 := Server(map[], map[0 := [], 1 := []]);
    var p, q := [RegisterPart(1, b), NotifyPart(b), NotifyPart(a)], [RegisterPart(1, b), NotifyPart(a)];
    ReplyIsFirst(s0, 0, a, p, listing);
    ReplyIsFirst(s0, 0, a, q, listing);
    assert p[1..] == [NotifyPart(b), NotifyPart(a)] && p[1..][1..] == [NotifyPart(a)] && p[1..][1..][1..] == [];
    assert q[1..] == [NotifyPart(a)] && q[1..][1..] == [];
    assert Heard(p[1..][1..], a) == [];
    assert Heard(p[1..], a) == [NotifyUserStatus(b, USER_ONLINE)];
    assert Heard(q[1..], a) == [];
  }

  // ------------------------------------------------------- what a list then lacks

  /** The user takes no other connection. */
  predicate Stays(parts: seq<Part>, user: UserId) {
    forall i :: 0 <= i < |parts| ==> !IsMove(parts[i], user)
  }

  function Registered(parts: seq<Part>): set<UserId> {
    if parts == [] then {}
    else if parts[0].RegisterPart? then {parts[0].user} + Registered(parts[1..])
    else Registered(parts[1..])
  }

  function Notified(parts: seq<Part>): set<UserId> {
    if parts == [] then {}
    else if parts[0].NotifyPart? then {parts[0].user} + Notified(parts[1..])
    else Notified(parts[1..])
  }

  lemma {:induction false} OnlineAfter(s: Server, parts: seq<Part>)
    ensures DoAll(s, parts).online.Keys == s.online.Keys + Registered(parts)
    decreases |parts|
  {
    if parts != [] {
      OnlineAfter(Do(s, parts[0]), parts[1..]);
    }
  }

  lemma {:induction false} HeardAnnounces(parts: seq<Part>, user: UserId)
    requires Stays(parts, user)
    ensures Announced(Heard(parts, user)) == Notified(parts) - {user} && NoReply(Heard(parts, user))
  {
    if parts != [] {
      HeardAnnounces(parts[1..], user);
      AnnouncedAppend(HeardOf(parts[0], user), Heard(parts[1..], user));
      assert Announced(HeardOf(parts[0], user))
          == if parts[0].NotifyPart? && parts[0].user != user then {parts[0].user} else {};
    }
  }

  lemma {:induction false} HolderStays(s: Server, c: ConnId, user: UserId, parts: seq<Part>)
    requires Holds(s, c, user) && Elsewhere(parts, c) && Stays(parts, user)
    ensures Holds(DoAll(s, parts), c, user)
    decreases |parts|
  {
    if parts != [] {
      assert [parts[0]][0] == parts[0];
      HolderHears(s, c, user, parts[0]);
      HolderStays(Do(s, parts[0]), c, user, parts[1..]);
    }
  }

  lemma ViewAfterReply(user: UserId, listing: seq<UserId>, ids: set<UserId>, q: seq<Message>)
    requires IsListing(listing, ids)
    ensures View(Client(user, Waiting, map[]), [LoginRes(200, listing)] + q) == ids - {user} + Announced(q)
  {
    var listed := set id | id in listing;
    assert listed == ids by {
      assert forall id: UserId :: id in listed <==> id in ids;
    }
    assert ([LoginRes(200, listing)] + q)[1..] == q;
  }

  lemma {:induction false} DoAllConcat(s: Server, a: seq<Part>, b: seq<Part>)
    ensures DoAll(s, a + b) == DoAll(DoAll(s, a), b)
    decreases |a|
  {
    if a == [] {
      assert a + b == b;
    } else {
      assert (a + b)[1..] == a[1..] + b;
      DoAllConcat(Do(s, a[0]), a[1..], b);
    }
  }

  /** While a login goes right nobody else is announced. */
  lemma NobodyAnnouncedMeanwhile(parts: seq<Part>, user: UserId)
    requires Stays(parts, user) && Undisturbed(parts, user)
    ensures Notified(parts) <= {user}
  {
    NothingHeard(parts, user);
    HeardAnnounces(parts, user);
  }

  lemma {:induction false} SetsOfConcat(a: seq<Part>, b: seq<Part>)
    ensures Registered(a + b) == Registered(a) + Registered(b) && Notified(a + b) == Notified(a) + Notified(b)
  {
    if a == [] {
      assert a + b == b;
    } else {
      assert (a + b)[1..] == a[1..] + b;
      SetsOfConcat(a[1..], b);
    }
  }

  lemma MissingSince(s0: Server, parts: seq<Part>, meantime: seq<Part>, s1: Server, later: seq<Part>, user: UserId)
    requires Stays(parts + meantime, user) && Undisturbed(parts + meantime, user)
    requires s1.online == DoAll(s0, meantime).online
    ensures DoAll(s1, later).online.Keys - {user} - (s0.online.Keys - {user} + (Notified(later) - {user}))
         == Registered(meantime + later) - s0.online.Keys - Notified(meantime + later) - {user}
  {
    OnlineAfter(s0, meantime);
    OnlineAfter(s1, later);
    NobodyAnnouncedMeanwhile(parts + meantime, user);
    SetsOfConcat(parts, meantime);
    SetsOfConcat(meantime, later);
  }

  /** The handler of a login takes down the online users after its own announcement and writes
      its reply later: the parts before and after the listing are apart. If the login goes
      right then, whatever comes after its reply while the user keeps the connection, the
      user's client knows, or will know from its channel, all online users but itself, except
      exactly those who registered after the listing and are not announced yet; and it knows
      nobody else but who was announced. */
  lemma ListLacksOnlyUnannounced(s: Server, c: ConnId, user: UserId, parts: seq<Part>, listing: seq<UserId>,
                                 meantime: seq<Part>, later: seq<Part>)
    requires c in s.channels && s.channels[c] == [] && NobodyOn(s.online, c)
    requires Elsewhere(parts + meantime, c) && Stays(parts + meantime, user) && Undisturbed(parts + meantime, user)
    requires Elsewhere(later, c) && Stays(later, user)
    requires IsListing(listing, DoAll(Register(s, c, user), parts).online.Keys)
    ensures var atListing := DoAll(Register(s, c, user), parts);
      var t := DoAll(Reply(DoAll(atListing, meantime), c, LoginRes(200, listing)), later);
      && c in t.channels
      && var known := View(Client(user, Waiting, map[]), t.channels[c]);
      && known == atListing.online.Keys - {user} + (Notified(later) - {user})
      && t.online.Keys - {user} - known
         == Registered(meantime + later) - atListing.online.Keys - Notified(meantime + later) - {user}
  {
    var s0 := DoAll(Register(s, c, user), parts);
    var all := parts + meantime;
    DoAllConcat(Register(s, c, user), parts, meantime);
    var s1 := Reply(DoAll(s0, meantime), c, LoginRes(200, listing));
    ReplyIsFirst(s, c, user, all, listing);
    NothingHeard(all, user);
    HolderStays(Register(s, c, user), c, user, all);
    assert [] + [LoginRes(200, listing)] == [LoginRes(200, listing)];
    assert s1.channels[c] == [LoginRes(200, listing)];
    ChannelAfter(s1, c, user, later);
    HeardAnnounces(later, user);
    ViewAfterReply(user, listing, s0.online.Keys, Heard(later, user));
    assert DoAll(s1, later).online.Keys - {user} - (s0.online.Keys - {user} + (Notified(later) - {user}))
        == Registered(meantime + later) - s0.online.Keys - Notified(meantime + later) - {user} by {
      MissingSince(s0, parts, meantime, s1, later, user);
    }
  }
}
