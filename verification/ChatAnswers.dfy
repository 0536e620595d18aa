/** What each step of the chatroom does, in the program's own numbers: who gets which message,
    what a client makes of it, and what a login's verdict comes to over whole runs. */
module ChatAnswers {
  import opened ChatProtocol

  /** A refused login leaves its reply on its own connection and does nothing else. */
  lemma RefusedLogin(s: Server, c: ConnId, user: UserId, listing: seq<UserId>)
    requires c in s.channels
    ensures Login(s, c, user, NotExists, listing)
         == Server(s.online, s.channels[c := s.channels[c] + [LoginRes(500, [])]])
    ensures Login(s, c, user, WrongPassword, listing)
         == Server(s.online, s.channels[c := s.channels[c] + [LoginRes(403, [])]])
    ensures Login(s, c, user, InternalError, listing)
         == Server(s.online, s.channels[c := s.channels[c] + [LoginRes(505, [])]])
  {}

  /** Whether somebody in ids is online on this connection. */
  predicate Reaches(online: map<UserId, ConnId>, ids: set<UserId>, c: ConnId) {
    exists id :: id in ids && id in online && online[id] == c
  }

  /** A message to all: one copy where one of them is online, nothing elsewhere. */
  predicate Delivered(s: Server, t: Server, ids: set<UserId>, m: Message, but: set<ConnId>) {
    t.channels.Keys == s.channels.Keys
    && forall c :: c in s.channels && c !in but ==>
         t.channels[c] == s.channels[c] + if Reaches(s.online, ids, c) then [m] else []
  }

  lemma SentIsDelivered(s: System, online: map<UserId, ConnId>, ids: set<UserId>, m: Message, c: ConnId)
    requires Connected(s) && ids <= online.Keys && c in s.clients
    requires forall id :: id in online && online[id] == c ==> id == s.clients[c].userId
    ensures Sent(Server(online, s.server.channels), ids, m)[c]
         == s.server.channels[c] + if Reaches(online, ids, c) then [m] else []
  {
    var user := s.clients[c].userId;
    SentTo(Server(online, s.server.channels), ids, m, c, user);
    if Reaches(online, ids, c) {
      var id :| id in ids && id in online && online[id] == c;
      assert id == user;
    } else {
      assert !(user in ids && online[user] == c);
      assert s.server.channels[c] + [] == s.server.channels[c];
    }
  }

  /** In every reachable state: a message posted to all is appended once on the connection of
      every online user but its sender, and nowhere else; nothing else changes. */
  lemma PostStep(events: seq<Event>, sender: UserId, content: string)
    ensures var s := Run(events);
      var t := Apply(s, Post(Sms(sender, content)));
      && t.clients == s.clients && t.waiting == s.waiting && t.server.online == s.server.online
      && Delivered(s.server, t.server, s.server.online.Keys - {sender}, Sms(sender, content), {})
  {
    EveryRun(events);
    var s := Run(events);
    forall c | c in s.server.channels
      ensures Apply(s, Post(Sms(sender, content))).server.channels[c]
           == s.server.channels[c]
              + if Reaches(s.server.online, s.server.online.Keys - {sender}, c) then [Sms(sender, content)] else []
    {
      SentIsDelivered(s, s.server.online, s.server.online.Keys - {sender}, Sms(sender, content), c);
    }
  }

  /** In every reachable state: an accepted login puts the user online on its connection,
      announces it once, with status 0, on the connection of every other online user, and
      leaves a reply 200 with the list on its own; nothing else changes. */
  lemma AcceptedStep(events: seq<Event>, c: ConnId, listing: seq<UserId>)
    ensures var s := Run(events);
      Enabled(s, Handle(c, Accepted, listing)) ==>
        var user := s.clients[c].userId;
        var t := Apply(s, Handle(c, Accepted, listing));
        && t.clients == s.clients && t.waiting == s.waiting - {c}
        && t.server.online == s.server.online[user := c]
        && t.server.channels[c] == [LoginRes(200, listing)]
        && Delivered(Server(t.server.online, s.server.channels), t.server, t.server.online.Keys - {user},
                     NotifyUserStatus(user, 0), {c})
  {
    EveryRun(events);
    var s := Run(events);
    if Enabled(s, Handle(c, Accepted, listing)) {
      var user := s.clients[c].userId;
      var online := s.server.online[user := c];
      AcceptedOnOwn(s, c, listing);
      forall o | o in s.server.channels && o != c
        ensures Apply(s, Handle(c, Accepted, listing)).server.channels[o]
             == s.server.channels[o]
                + if Reaches(online, online.Keys - {user}, o) then [NotifyUserStatus(user, 0)] else []
      {
        SentIsDelivered(s, online, online.Keys - {user}, NotifyUserStatus(user, USER_ONLINE), o);
      }
    }
  }

  /** A new connection: an empty channel, and a client that waits and knows nobody. */
  lemma DialStep(s: System, c: ConnId, user: UserId)
    requires Enabled(s, Dial(c, user))
    ensures var t := Apply(s, Dial(c, user));
      && t.server.online == s.server.online && t.server.channels == s.server.channels[c := []]
      && t.clients == s.clients[c := Client(user, Waiting, map[])] && t.waiting == s.waiting + {c}
  {}

  /** What a client makes of a message. */
  lemma ReceivedBy(k: Client, m: Message)
    ensures k.phase == Waiting && m.LoginRes? && m.code == 200 ==>
      && Receive(k, m).phase == Chatting && Receive(k, m).userId == k.userId
      && Receive(k, m).onlineUsers.Keys == (set id | id in m.usersId) - {k.userId}
      && forall id :: id in Receive(k, m).onlineUsers ==> Receive(k, m).onlineUsers[id] == 0
    ensures k.phase == Waiting && !(m.LoginRes? && m.code == 200) ==>
      Receive(k, m) == Client(k.userId, Refused, k.onlineUsers)
    ensures k.phase == Chatting && m.NotifyUserStatus? ==>
      Receive(k, m) == Client(k.userId, Chatting, k.onlineUsers[m.userId := m.status])
    ensures k.phase == Chatting && !m.NotifyUserStatus? ==> Receive(k, m) == k
    ensures k.phase == Refused ==> Receive(k, m) == k
  {}

  /** A client takes the first message of its channel; nobody else notices. */
  lemma TakeStep(events: seq<Event>, c: ConnId)
    ensures var s := Run(events);
      Enabled(s, Take(c)) ==>
        var t := Apply(s, Take(c));
        && s.server.channels[c] == [s.server.channels[c][0]] + t.server.channels[c]
        && t.clients == s.clients[c := Receive(s.clients[c], s.server.channels[c][0])]
        && t.server.online == s.server.online && t.waiting == s.waiting
        && t.server.channels.Keys == s.server.channels.Keys
        && forall o :: o in s.server.channels && o != c ==> t.server.channels[o] == s.server.channels[o]
  {}

  // ------------------------------------------------------ verdicts over whole runs

  /** What the user store said about the login on this connection, if it was handled. */
  ghost function VerdictOf(events: seq<Event>, c: ConnId): Ruling {
    if events == [] then NotYet
    else
      var n := |events| - 1;
      if events[n].Handle? && events[n].c == c && Enabled(Run(events[..n]), events[n]) then Said(events[n].verdict)
      else VerdictOf(events[..n], c)
  }

  datatype Ruling = NotYet | Said(verdict: Verdict)

  predicate Judged(v: Ruling, k: Client, q: seq<Message>, pending: bool) {
    match v
    case NotYet => pending && k.phase == Waiting
    case Said(Accepted) =>
      && !pending
      && (k.phase == Chatting || (k.phase == Waiting && q != [] && q[0].LoginRes? && q[0].code == 200))
    case Said(w) =>
      && !pending && k.phase != Chatting
      && (k.phase == Waiting ==>
            q != [] && q[0] == LoginRes(if w.NotExists? then 500 else if w.WrongPassword? then 403 else 505, []))
  }

  ghost predicate AllJudged(events: seq<Event>) {
    var s := Run(events);
    && s.clients.Keys == s.server.channels.Keys
    && forall c :: if c in s.clients
                   then Judged(VerdictOf(events, c), s.clients[c], s.server.channels[c], c in s.waiting)
                   else VerdictOf(events, c) == NotYet
  }

  lemma JudgedGrows(v: Ruling, k: Client, q: seq<Message>, r: seq<Message>, pending: bool)
    requires Judged(v, k, q, pending)
    ensures Judged(v, k, q + r, pending)
  {}

  /** The channels after a message to all are the channels before it, grown. */
  lemma SentGrows(s: Server, ids: set<UserId>, m: Message, c: ConnId)
    requires c in s.channels
    ensures Sent(s, ids, m)[c] == s.channels[c] + Repeat(m, |OnConn(s.online, ids, c)|)
  {}

  lemma HandledIsJudged(s: System, d: ConnId, v: Verdict, listing: seq<UserId>, c: ConnId, was: Ruling)
    requires Inv(s) && Enabled(s, Handle(d, v, listing)) && c in s.clients
    requires Judged(was, s.clients[c], s.server.channels[c], c in s.waiting)
    ensures var t := Apply(s, Handle(d, v, listing));
      Judged(if c == d then Said(v) else was, t.clients[c], t.server.channels[c], c in t.waiting)
  {
    var user := s.clients[d].userId;
    if v.Accepted? {
      if c == d {
        AcceptedOnOwn(s, d, listing);
      } else {
        var s1 := s.server.(online := s.server.online[user := d]);
        var ids, m := s1.online.Keys - {user}, NotifyUserStatus(user, USER_ONLINE);
        SentGrows(s1, ids, m, c);
        JudgedGrows(was, s.clients[c], s.server.channels[c], Repeat(m, |OnConn(s1.online, ids, c)|), c in s.waiting);
      }
    } else {
      RefusedLogin(s.server, d, user, listing);
    }
  }

  lemma PostIsJudged(s: System, m: Message, c: ConnId, was: Ruling)
    requires s.clients.Keys == s.server.channels.Keys && m.Sms? && c in s.clients
    requires Judged(was, s.clients[c], s.server.channels[c], c in s.waiting)
    ensures var t := Apply(s, Post(m)); Judged(was, t.clients[c], t.server.channels[c], c in t.waiting)
  {
    var ids := s.server.online.Keys - {m.sender};
    SentGrows(s.server, ids, m, c);
    JudgedGrows(was, s.clients[c], s.server.channels[c], Repeat(m, |OnConn(s.server.online, ids, c)|), c in s.waiting);
  }

  lemma TakenIsJudged(s: System, d: ConnId, c: ConnId, was: Ruling)
    requires Inv(s) && Enabled(s, Take(d)) && c in s.clients
    requires Judged(was, s.clients[c], s.server.channels[c], c in s.waiting)
    ensures var t := Apply(s, Take(d)); Judged(was, t.clients[c], t.server.channels[c], c in t.waiting)
  {
    ReceivedBy(s.clients[d], s.server.channels[d][0]);
  }

  lemma StepIsJudged(s: System, e: Event, c: ConnId, was: Ruling)
    requires Inv(s) && Enabled(s, e)
    requires if c in s.clients then Judged(was, s.clients[c], s.server.channels[c], c in s.waiting) else was == NotYet
    ensures var t := Apply(s, e);
      var now := if e.Handle? && e.c == c then Said(e.verdict) else was;
      && t.clients.Keys == t.server.channels.Keys
      && if c in t.clients then Judged(now, t.clients[c], t.server.channels[c], c in t.waiting) else now == NotYet
  {
    match e
    case Dial(_, _) =>
    case Handle(d, v, listing) =>
      if c in s.clients { HandledIsJudged(s, d, v, listing, c, was); }
    case Take(d) =>
      if c in s.clients { TakenIsJudged(s, d, c, was); }
    case Post(m) =>
      if c in s.clients { PostIsJudged(s, m, c, was); }
  }

  lemma {:induction false} EveryRunIsJudged(events: seq<Event>)
    ensures AllJudged(events)
  {
    EveryRun(events);
    if events != [] {
      var n := |events| - 1;
      EveryRunIsJudged(events[..n]);
      EveryRun(events[..n]);
      var s, e := Run(events[..n]), events[n];
      if Enabled(s, e) {
        forall c
          ensures var t := Run(events);
            if c in t.clients
            then Judged(VerdictOf(events, c), t.clients[c], t.server.channels[c], c in t.waiting)
            else VerdictOf(events, c) == NotYet
        {
          StepIsJudged(s, e, c, VerdictOf(events[..n], c));
        }
      } else {
        assert forall c :: VerdictOf(events, c) == VerdictOf(events[..n], c);
      }
    }
  }

  /** A client chats only if its login was accepted, and is refused only if it was not. Until
      its login is handled it waits; once an unfavourable verdict was given the reply it then
      finds is 500, 403 or 505, and taking it refuses the client. */
  lemma VerdictDecides(events: seq<Event>, c: ConnId)
    ensures var s := Run(events);
      var v := VerdictOf(events, c);
      c in s.clients ==>
        && (s.clients[c].phase == Chatting ==> v == Said(Accepted))
        && (s.clients[c].phase == Refused ==> v.Said? && v != Said(Accepted))
        && (v == NotYet <==> c in s.waiting)
        && (v.Said? && v.verdict != Accepted && s.clients[c].phase == Waiting ==>
              && Enabled(s, Take(c))
              && (v.verdict == NotExists ==> s.server.channels[c][0] == LoginRes(500, []))
              && (v.verdict == WrongPassword ==> s.server.channels[c][0] == LoginRes(403, []))
              && (v.verdict == InternalError ==> s.server.channels[c][0] == LoginRes(505, []))
              && Apply(s, Take(c)).clients[c].phase == Refused)
        && (v == Said(Accepted) && s.clients[c].phase == Waiting ==>
              Enabled(s, Take(c)) && Apply(s, Take(c)).clients[c].phase == Chatting)
  {
    EveryRunIsJudged(events);
    EveryRun(events);
  }
}
