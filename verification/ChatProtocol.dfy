/** The chatroom's presence protocol: server, one first-in first-out channel per
    connection, and clients, as transitions on values. */
module ChatProtocol {

  type UserId = int
  type ConnId = nat

  const USER_ONLINE: int := 0

  datatype Message =
    | LoginRes(code: int, usersId: seq<UserId>)
    | NotifyUserStatus(userId: UserId, status: int)
    | Sms(sender: UserId, content: string)

  /** What the user store says about a login. */
  datatype Verdict = Accepted | NotExists | WrongPassword | InternalError

  function Code(v: Verdict): int {
    match v
    case Accepted => 200
    case NotExists => 500
    case WrongPassword => 403
    case InternalError => 505
  }

  datatype Server = Server(online: map<UserId, ConnId>, channels: map<ConnId, seq<Message>>)

  function Repeat(m: Message, n: nat): (r: seq<Message>)
    ensures |r| == n && forall i :: 0 <= i < n ==> r[i] == m
  {
    seq(n, _ => m)
  }

  /** The users among ids whose connection is c. */
  function OnConn(online: map<UserId, ConnId>, ids: set<UserId>, c: ConnId): set<UserId> {
    set id | id in ids && id in online && online[id] == c
  }

  /** One copy of a message to every listed user. */
  function Sent(s: Server, ids: set<UserId>, m: Message): map<ConnId, seq<Message>> {
    map c | c in s.channels :: s.channels[c] + Repeat(m, |OnConn(s.online, ids, c)|)
  }

  function Write(ch: map<ConnId, seq<Message>>, c: ConnId, m: Message): map<ConnId, seq<Message>>
    requires c in ch
  {
    ch[c := ch[c] + [m]]
  }

  /** A login, with the listing of the online users that its reply carries. */
  function Login(s: Server, c: ConnId, user: UserId, v: Verdict, listing: seq<UserId>): Server
    requires c in s.channels
  {
    if v.Accepted? then
      var s1 := s.(online := s.online[user := c]);
      var notified := Sent(s1, s1.online.Keys - {user}, NotifyUserStatus(user, USER_ONLINE));
      s1.(channels := Write(notified, c, LoginRes(200, listing)))
    else
      s.(channels := Write(s.channels, c, LoginRes(Code(v), [])))
  }

  function GroupMes(s: Server, m: Message): Server
    requires m.Sms?
  {
    s.(channels := Sent(s, s.online.Keys - {m.sender}, m))
  }

  /** The online users in some order, each once. */
  ghost predicate IsListing(listing: seq<UserId>, ids: set<UserId>) {
    && (forall id :: id in listing <==> id in ids)
    && (forall i, j :: 0 <= i < j < |listing| ==> listing[i] != listing[j])
  }

  // --------------------------------------------------------------- clients

  datatype Phase = Waiting | Chatting | Refused

  /** A client and its own list of the others' status. */
  datatype Client = Client(userId: UserId, phase: Phase, onlineUsers: map<UserId, int>)

  function InitialList(listing: seq<UserId>, self: UserId): (m: map<UserId, int>)
    ensures m.Keys == (set id | id in listing) - {self}
    ensures forall id :: id in m ==> m[id] == USER_ONLINE
  {
    map id | id in listing && id != self :: USER_ONLINE
  }

  function Receive(k: Client, m: Message): Client {
    match k.phase
    case Waiting =>
      if m.LoginRes? && m.code == 200
      then Client(k.userId, Chatting, InitialList(m.usersId, k.userId))
      else k.(phase := Refused)
    case Chatting =>
      if m.NotifyUserStatus? then k.(onlineUsers := k.onlineUsers[m.userId := m.status]) else k
    case Refused => k
  }

  // ---------------------------------------------------------------- system

  /** waiting: the connections whose login request the server has not handled. */
  datatype System = System(server: Server, clients: map<ConnId, Client>, waiting: set<ConnId>)

  datatype Event =
    | Dial(c: ConnId, user: UserId)
    | Handle(c: ConnId, verdict: Verdict, listing: seq<UserId>)
    | Take(c: ConnId)
    | Post(m: Message)

  const INITIAL: System := System(Server(map[], map[]), map[], {})

  ghost predicate Enabled(s: System, e: Event) {
    match e
    case Dial(c, _) => c !in s.clients && c !in s.server.channels
    case Handle(c, v, listing) =>
      && c in s.waiting && c in s.clients && c in s.server.channels
      && IsListing(listing, s.server.online.Keys + {s.clients[c].userId})
    case Take(c) =>
      c in s.clients && c in s.server.channels && s.clients[c].phase != Refused && s.server.channels[c] != []
    case Post(m) => m.Sms?
  }

  ghost function Apply(s: System, e: Event): System
    requires Enabled(s, e)
  {
    match e
    case Dial(c, user) =>
      System(s.server.(channels := s.server.channels[c := []]),
             s.clients[c := Client(user, Waiting, map[])], s.waiting + {c})
    case Handle(c, v, listing) =>
      s.(server := Login(s.server, c, s.clients[c].userId, v, listing), waiting := s.waiting - {c})
    case Take(c) =>
      var q := s.server.channels[c];
      s.(server := s.server.(channels := s.server.channels[c := q[1..]]),
         clients := s.clients[c := Receive(s.clients[c], q[0])])
    case Post(m) => s.(server := GroupMes(s.server, m))
  }

  /** The state after a run; an event that is not enabled does not happen. */
  ghost function Run(events: seq<Event>): System {
    if events == [] then INITIAL
    else
      var n := |events| - 1;
      var s := Run(events[..n]);
      if Enabled(s, events[n]) then Apply(s, events[n]) else s
  }

  // ------------------------------------------------------------- invariant

  /** The users announced in a run of messages. */
  function Announced(q: seq<Message>): set<UserId> {
    set m | m in q && m.NotifyUserStatus? :: m.userId
  }

  predicate NoReply(q: seq<Message>) {
    forall i :: 0 <= i < |q| ==> !q[i].LoginRes?
  }

  /** Everybody the client knows or will know once its channel is empty. */
  function View(k: Client, q: seq<Message>): set<UserId> {
    match k.phase
    case Waiting =>
      if q != [] && q[0].LoginRes? && q[0].code == 200
      then (set id | id in q[0].usersId) - {k.userId} + Announced(q[1..])
      else {}
    case Chatting => k.onlineUsers.Keys + Announced(q)
    case Refused => {}
  }

  /** The login reply, and nothing else, opens a connection. */
  predicate ReplyFirst(k: Client, q: seq<Message>, pending: bool) {
    match k.phase
    case Waiting => if pending then q == [] else q != [] && q[0].LoginRes? && NoReply(q[1..])
    case Chatting => !pending && NoReply(q)
    case Refused => !pending
  }

  predicate Accepting(k: Client, q: seq<Message>) {
    k.phase == Chatting || (k.phase == Waiting && q != [] && q[0].LoginRes? && q[0].code == 200)
  }

  ghost predicate Connected(s: System) {
    && s.clients.Keys == s.server.channels.Keys
    && s.waiting <= s.clients.Keys
    && forall id :: id in s.server.online ==>
         var c := s.server.online[id];
         c in s.clients && s.clients[c].userId == id && Accepting(s.clients[c], s.server.channels[c])
  }

  ghost predicate Ordered(s: System)
    requires Connected(s)
  {
    forall c :: c in s.clients ==> ReplyFirst(s.clients[c], s.server.channels[c], c in s.waiting)
  }

  /** No client, on a current or an abandoned connection, ever counts itself or a user
      that is not online. */
  ghost predicate Sound(s: System)
    requires Connected(s)
  {
    forall c :: c in s.clients ==>
      View(s.clients[c], s.server.channels[c]) <= s.server.online.Keys - {s.clients[c].userId}
  }

  /** On a user's current connection nobody is missing. */
  ghost predicate Complete(s: System)
    requires Connected(s)
  {
    forall id :: id in s.server.online ==>
      var c := s.server.online[id];
      View(s.clients[c], s.server.channels[c]) == s.server.online.Keys - {id}
  }

  ghost predicate Inv(s: System) {
    Connected(s) && Ordered(s) && Sound(s) && Complete(s)
  }

  // ----------------------------------------------------------- preservation

  lemma AnnouncedAppend(q: seq<Message>, r: seq<Message>)
    ensures Announced(q + r) == Announced(q) + Announced(r)
  {}

  lemma ViewAppend(k: Client, q: seq<Message>, r: seq<Message>)
    requires Accepting(k, q)
    ensures View(k, q + r) == View(k, q) + Announced(r) && Accepting(k, q + r)
  {
    AnnouncedAppend(q, r);
    if k.phase == Waiting {
      assert (q + r)[1..] == q[1..] + r;
      AnnouncedAppend(q[1..], r);
    }
  }

  lemma ReplyFirstAppend(k: Client, q: seq<Message>, r: seq<Message>)
    requires ReplyFirst(k, q, false) && NoReply(r)
    ensures ReplyFirst(k, q + r, false)
  {
    if k.phase == Waiting {
      assert (q + r)[1..] == q[1..] + r;
    }
  }

  /** A connection serves one user, so a message to all reaches each connection at most once. */
  ghost predicate OneUser(online: map<UserId, ConnId>, c: ConnId, user: UserId) {
    forall id :: id in online && online[id] == c ==> id == user
  }

  lemma SentTo(s: Server, ids: set<UserId>, m: Message, c: ConnId, user: UserId)
    requires OneUser(s.online, c, user) && ids <= s.online.Keys && c in s.channels
    ensures Sent(s, ids, m)[c]
         == if user in ids && s.online[user] == c then s.channels[c] + [m] else s.channels[c]
  {
    assert forall id :: id in OnConn(s.online, ids, c) ==> id == user;
    if user in ids && s.online[user] == c {
      assert OnConn(s.online, ids, c) == {user};
      assert Repeat(m, 1) == [m];
    } else {
      assert OnConn(s.online, ids, c) == {};
      assert Repeat(m, 0) == [];
    }
  }

  lemma DialKeeps(s: System, c: ConnId, user: UserId)
    requires Inv(s) && Enabled(s, Dial(c, user))
    ensures Inv(Apply(s, Dial(c, user)))
  {}

  lemma RefusedKeeps(s: System, c: ConnId, v: Verdict, listing: seq<UserId>)
    requires Inv(s) && Enabled(s, Handle(c, v, listing)) && !v.Accepted?
    ensures Inv(Apply(s, Handle(c, v, listing)))
  {
    var m := LoginRes(Code(v), []);
    assert s.server.channels[c] == [] && [] + [m] == [m];
    assert NoReply([m][1..]);
    var t := Apply(s, Handle(c, v, listing));
    assert t.server.channels[c] == [m];
    assert forall id :: id in s.server.online ==> s.server.online[id] != c;
  }

  lemma PostKeeps(s: System, m: Message)
    requires Inv(s) && m.Sms?
    ensures Inv(Apply(s, Post(m)))
  {
    var t := Apply(s, Post(m));
    var ids := s.server.online.Keys - {m.sender};
    forall c | c in s.clients
      ensures var k := s.clients[c];
        var q := t.server.channels[c];
        && (Accepting(k, s.server.channels[c]) ==> Accepting(k, q))
        && View(k, q) == View(k, s.server.channels[c])
        && ReplyFirst(k, q, c in s.waiting)
    {
      SentTo(s.server, ids, m, c, s.clients[c].userId);
      Uninformative(s, m, c);
    }
  }

  /** A text message tells a client nothing about who is online. */
  lemma Uninformative(s: System, m: Message, c: ConnId)
    requires Inv(s) && m.Sms? && c in s.clients
    ensures var id := s.clients[c].userId;
      id in s.server.online && s.server.online[id] == c ==>
        var q := s.server.channels[c];
        && View(s.clients[c], q + [m]) == View(s.clients[c], q)
        && Accepting(s.clients[c], q + [m])
        && ReplyFirst(s.clients[c], q + [m], c in s.waiting)
  {
    var id := s.clients[c].userId;
    if id in s.server.online && s.server.online[id] == c {
      ViewAppend(s.clients[c], s.server.channels[c], [m]);
      assert Announced([m]) == {};
      ReplyFirstAppend(s.clients[c], s.server.channels[c], [m]);
    }
  }

  /** From s to t user came online: a connection that is another user's current one got to
      know it, every other one is as it was. */
  ghost predicate Told(s: System, t: System, user: UserId, o: ConnId)
    requires o in s.clients && o in s.server.channels && o in t.server.channels
  {
    var k, q, q' := s.clients[o], s.server.channels[o], t.server.channels[o];
    && ReplyFirst(k, q', o in s.waiting)
    && (if k.userId != user && k.userId in s.server.online && s.server.online[k.userId] == o
        then Accepting(k, q') && View(k, q') == View(k, q) + {user}
        else q' == q)
  }

  /** An announcement to a user's current connection. */
  lemma AnnouncementTells(s: System, o: ConnId, user: UserId)
    requires Inv(s) && o in s.clients
    requires s.clients[o].userId in s.server.online && s.server.online[s.clients[o].userId] == o
    ensures var k, q' := s.clients[o], s.server.channels[o] + [NotifyUserStatus(user, USER_ONLINE)];
      ReplyFirst(k, q', o in s.waiting) && Accepting(k, q') && View(k, q') == View(k, s.server.channels[o]) + {user}
  {
    var m := NotifyUserStatus(user, USER_ONLINE);
    ViewAppend(s.clients[o], s.server.channels[o], [m]);
    assert Announced([m]) == {user};
    ReplyFirstAppend(s.clients[o], s.server.channels[o], [m]);
  }

  /** What an accepted login of user on c does to another connection. */
  lemma AcceptedOnOther(s: System, c: ConnId, listing: seq<UserId>, o: ConnId)
    requires Inv(s) && Enabled(s, Handle(c, Accepted, listing)) && o in s.clients && o != c
    ensures Told(s, Apply(s, Handle(c, Accepted, listing)), s.clients[c].userId, o)
  {
    var user, k := s.clients[c].userId, s.clients[o];
    var s1 := s.server.(online := s.server.online[user := c]);
    SentTo(s1, s1.online.Keys - {user}, NotifyUserStatus(user, USER_ONLINE), o, k.userId);
    if k.userId != user && k.userId in s.server.online && s.server.online[k.userId] == o {
      AnnouncementTells(s, o, user);
    }
  }

  lemma AcceptedOnOwn(s: System, c: ConnId, listing: seq<UserId>)
    requires Inv(s) && Enabled(s, Handle(c, Accepted, listing))
    ensures Apply(s, Handle(c, Accepted, listing)).server.channels[c] == [LoginRes(200, listing)]
  {
    var user := s.clients[c].userId;
    var s1 := s.server.(online := s.server.online[user := c]);
    assert s.server.channels[c] == [];
    SentTo(s1, s1.online.Keys - {user}, NotifyUserStatus(user, USER_ONLINE), c, user);
    assert [] + [LoginRes(200, listing)] == [LoginRes(200, listing)];
  }

  lemma ViewOfReply(k: Client, listing: seq<UserId>, ids: set<UserId>)
    requires k.phase == Waiting && IsListing(listing, ids)
    ensures var q := [LoginRes(200, listing)];
      View(k, q) == ids - {k.userId} && Accepting(k, q) && ReplyFirst(k, q, false)
  {
    var listed := set id | id in listing;
    assert forall id :: id in listed ==> id in ids;
    assert forall id :: id in ids ==> id in listing && id in listed;
    assert [LoginRes(200, listing)][1..] == [];
  }

  /** What an accepted login of user on c has done to all connections. */
  ghost predicate LoggedIn(s: System, t: System, c: ConnId, user: UserId) {
    && Connected(s) && c in s.clients && s.clients[c].userId == user
    && t.clients == s.clients && t.waiting == s.waiting - {c}
    && t.server.online == s.server.online[user := c] && t.server.channels.Keys == s.server.channels.Keys
    && (forall o :: o in s.clients && o != c ==> Told(s, t, user, o))
    && var k, q := s.clients[c], t.server.channels[c];
       View(k, q) == t.server.online.Keys - {user} && Accepting(k, q) && ReplyFirst(k, q, false)
  }

  lemma LoggedInConnected(s: System, t: System, c: ConnId, user: UserId)
    requires LoggedIn(s, t, c, user)
    ensures Connected(t)
  {
    forall id | id in t.server.online
      ensures var o := t.server.online[id];
        o in t.clients && t.clients[o].userId == id && Accepting(t.clients[o], t.server.channels[o])
    {
      if id != user {
        assert Told(s, t, user, s.server.online[id]);
      }
    }
  }

  lemma LoggedInOrdered(s: System, t: System, c: ConnId, user: UserId)
    requires LoggedIn(s, t, c, user) && Connected(t)
    ensures Ordered(t)
  {
    forall o | o in t.clients
      ensures ReplyFirst(t.clients[o], t.server.channels[o], o in t.waiting)
    {
      if o != c {
        assert Told(s, t, user, o);
      }
    }
  }

  lemma LoggedInSound(s: System, t: System, c: ConnId, user: UserId)
    requires LoggedIn(s, t, c, user) && Sound(s) && Connected(t)
    ensures Sound(t)
  {
    assert t.server.online.Keys == s.server.online.Keys + {user};
    forall o | o in t.clients
      ensures View(t.clients[o], t.server.channels[o]) <= t.server.online.Keys - {t.clients[o].userId}
    {
      if o != c {
        assert Told(s, t, user, o);
      }
    }
  }

  lemma LoggedInComplete(s: System, t: System, c: ConnId, user: UserId)
    requires LoggedIn(s, t, c, user) && Complete(s) && Connected(t)
    ensures Complete(t)
  {
    assert t.server.online.Keys == s.server.online.Keys + {user};
    forall id | id in t.server.online
      ensures var o := t.server.online[id]; View(t.clients[o], t.server.channels[o]) == t.server.online.Keys - {id}
    {
      if id != user {
        assert Told(s, t, user, s.server.online[id]);
      }
    }
  }

  lemma AcceptedKeeps(s: System, c: ConnId, listing: seq<UserId>)
    requires Inv(s) && Enabled(s, Handle(c, Accepted, listing))
    ensures Inv(Apply(s, Handle(c, Accepted, listing)))
  {
    var t, user := Apply(s, Handle(c, Accepted, listing)), s.clients[c].userId;
    AcceptedOnOwn(s, c, listing);
    assert t.server.online.Keys == s.server.online.Keys + {user};
    ViewOfReply(s.clients[c], listing, t.server.online.Keys);
    forall o | o in s.clients && o != c
      ensures Told(s, t, user, o)
    {
      AcceptedOnOther(s, c, listing, o);
    }
    assert LoggedIn(s, t, c, user);
    LoggedInConnected(s, t, c, user);
    LoggedInOrdered(s, t, c, user);
    LoggedInSound(s, t, c, user);
    LoggedInComplete(s, t, c, user);
  }

  /** Taking the first message off a channel moves it from the channel to the client's list. */
  lemma TakeKeepsView(k: Client, q: seq<Message>)
    requires ReplyFirst(k, q, false) && q != []
    ensures var k' := Receive(k, q[0]);
      && View(k', q[1..]) == View(k, q) && ReplyFirst(k', q[1..], false)
      && (Accepting(k, q) ==> Accepting(k', q[1..]))
  {
    assert q == [q[0]] + q[1..];
    AnnouncedAppend([q[0]], q[1..]);
    assert Announced([q[0]]) == if q[0].NotifyUserStatus? then {q[0].userId} else {};
  }

  lemma TakeKeeps(s: System, c: ConnId)
    requires Inv(s) && Enabled(s, Take(c))
    ensures Inv(Apply(s, Take(c)))
  {
    TakeKeepsView(s.clients[c], s.server.channels[c]);
  }

  /** Presence agreement in every reachable state. */
  lemma {:induction false} EveryRun(events: seq<Event>)
    ensures Inv(Run(events))
  {
    if events != [] {
      var n := |events| - 1;
      EveryRun(events[..n]);
      var s, e := Run(events[..n]), events[n];
      if Enabled(s, e) {
        match e
        case Dial(c, user) => DialKeeps(s, c, user);
        case Handle(c, v, listing) =>
          if v.Accepted? { AcceptedKeeps(s, c, listing); } else { RefusedKeeps(s, c, v, listing); }
        case Take(c) => TakeKeeps(s, c);
        case Post(m) => PostKeeps(s, m);
      }
    }
  }

  /** Once a user's channel is empty, its client lists exactly the other online users. */
  lemma QuietListIsExact(events: seq<Event>, id: UserId)
    ensures var s := Run(events);
      id in s.server.online ==>
        var c := s.server.online[id];
        c in s.clients && c in s.server.channels
        && (s.server.channels[c] == [] ==>
              s.clients[c].phase == Chatting && s.clients[c].onlineUsers.Keys == s.server.online.Keys - {id})
  {
    EveryRun(events);
  }

  /** The first message a client takes is the reply to its login; a later one never is. */
  lemma ReplyOpensTheConnection(events: seq<Event>, c: ConnId)
    ensures var s := Run(events);
      Enabled(s, Take(c)) ==> (s.server.channels[c][0].LoginRes? <==> s.clients[c].phase == Waiting)
  {
    EveryRun(events);
  }
}
