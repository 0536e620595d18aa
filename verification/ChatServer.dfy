/** The chatroom's server and client objects, as they run. */
module ChatServer {
  import opened ChatProtocol
  import Sets

  class UserMgr {
    var onlineUsers: map<UserId, ConnId>
    var channels: map<ConnId, seq<Message>>

    ghost function State(): Server
      reads this
    {
      Server(onlineUsers, channels)
    }

    /** Every online user's connection exists. */
    ghost predicate Valid()
      reads this
    {
      forall id :: id in onlineUsers ==> onlineUsers[id] in channels
    }

    constructor ()
      ensures Valid() && State() == INITIAL.server
    {
      onlineUsers := map[];
      channels := map[];
    }

    method AddOnlineUser(user: UserId, c: ConnId)
      modifies `onlineUsers
      ensures onlineUsers == old(onlineUsers)[user := c]
    {
      onlineUsers := onlineUsers[user := c];
    }

    method WritePkg(c: ConnId, m: Message)
      requires c in channels
      modifies `channels
      ensures channels == Write(old(channels), c, m)
    {
      channels := channels[c := channels[c] + [m]];
    }

    /** Sends m to every online user but one, in whatever order the map yields them. */
    method SendToOthers(user: UserId, m: Message)
      requires Valid()
      modifies `channels
      ensures channels == Sent(old(State()), onlineUsers.Keys - {user}, m)
    {
      ghost var s := State();
      SentToNobody(s, m);
      var todo := onlineUsers.Keys;
      ghost var done: set<UserId> := {};
      while todo != {}
        invariant todo <= onlineUsers.Keys
        invariant forall id :: id in done <==> id in onlineUsers && id !in todo && id != user
        invariant channels == Sent(s, done, m)
        decreases todo
      {
        Sets.SomeMember(todo);
        var id :| id in todo;
        todo := todo - {id};
        if id != user {
          SentOneMore(s, done, id, m);
          WritePkg(onlineUsers[id], m);
          done := done + {id};
        }
      }
      Sets.SameMembers(done, onlineUsers.Keys - {user});
    }

    method NotifyOthersOnlineUser(user: UserId)
      requires Valid()
      modifies `channels
      ensures channels == Sent(old(State()), onlineUsers.Keys - {user}, NotifyUserStatus(user, USER_ONLINE))
    {
      SendToOthers(user, NotifyUserStatus(user, USER_ONLINE));
    }

    method ListOnlineUsers() returns (listing: seq<UserId>)
      ensures IsListing(listing, onlineUsers.Keys)
    {
      var todo := onlineUsers.Keys;
      listing := [];
      while todo != {}
        invariant todo <= onlineUsers.Keys
        invariant IsListing(listing, onlineUsers.Keys - todo)
        decreases todo
      {
        Sets.SomeMember(todo);
        var id :| id in todo;
        todo := todo - {id};
        listing := listing + [id];
      }
    }

    /** Adds the user, tells the others, then replies with the list of online users. */
    method ServerProcessLogin(c: ConnId, user: UserId, v: Verdict) returns (listing: seq<UserId>)
      requires Valid() && c in channels
      modifies this
      ensures Valid()
      ensures v.Accepted? ==> IsListing(listing, old(onlineUsers.Keys) + {user})
      ensures State() == Login(old(State()), c, user, v, listing)
    {
      listing := [];
      if v.Accepted? {
        AddOnlineUser(user, c);
        NotifyOthersOnlineUser(user);
        listing := ListOnlineUsers();
        WritePkg(c, LoginRes(200, listing));
      } else {
        WritePkg(c, LoginRes(Code(v), []));
      }
    }

    method SendGroupMes(m: Message)
      requires Valid() && m.Sms?
      modifies `channels
      ensures Valid() && State() == GroupMes(old(State()), m)
    {
      SendToOthers(m.sender, m);
    }
  }

  lemma SentToNobody(s: Server, m: Message)
    ensures Sent(s, {}, m) == s.channels
  {
    forall c | c in s.channels
      ensures Sent(s, {}, m)[c] == s.channels[c]
    {
      assert OnConn(s.online, {}, c) == {};
    }
  }

  /** One more receiver is one more copy on that receiver's channel. */
  lemma SentOneMore(s: Server, ids: set<UserId>, id: UserId, m: Message)
    requires id in s.online && id !in ids && s.online[id] in s.channels
    ensures Sent(s, ids + {id}, m) == Write(Sent(s, ids, m), s.online[id], m)
  {
    forall c | c in s.channels
      ensures Sent(s, ids + {id}, m)[c] == Write(Sent(s, ids, m), s.online[id], m)[c]
    {
      var before := OnConn(s.online, ids, c);
      if s.online[id] == c {
        assert OnConn(s.online, ids + {id}, c) == before + {id};
        assert Repeat(m, |before| + 1) == Repeat(m, |before|) + [m];
      } else {
        assert OnConn(s.online, ids + {id}, c) == before;
      }
    }
  }

  class ChatClient {
    const userId: UserId
    var phase: Phase
    var onlineUsers: map<UserId, int>

    ghost function State(): Client
      reads this
    {
      Client(userId, phase, onlineUsers)
    }

    constructor (userId: UserId)
      ensures State() == Client(userId, Waiting, map[])
    {
      this.userId := userId;
      phase := Waiting;
      onlineUsers := map[];
    }

    method UpdateUserStatus(user: UserId, status: int)
      modifies `onlineUsers
      ensures onlineUsers == old(onlineUsers)[user := status]
    {
      onlineUsers := onlineUsers[user := status];
    }

    /** Fills the list from the login reply, leaving the user itself out. */
    method Login(code: int, usersId: seq<UserId>)
      requires phase == Waiting && onlineUsers == map[]
      modifies this
      ensures State() == Receive(old(State()), LoginRes(code, usersId))
    {
      if code == 200 {
        for i := 0 to |usersId|
          invariant phase == Waiting
          invariant onlineUsers == InitialList(usersId[..i], userId)
        {
          assert usersId[..i + 1] == usersId[..i] + [usersId[i]];
          if usersId[i] != userId {
            onlineUsers := onlineUsers[usersId[i] := USER_ONLINE];
          }
        }
        assert usersId[..|usersId|] == usersId;
        phase := Chatting;
      } else {
        phase := Refused;
      }
    }

    /** One turn of the receive loop. */
    method ServerProcessMes(m: Message)
      requires phase == Chatting
      modifies `onlineUsers
      ensures State() == Receive(old(State()), m)
    {
      match m
      case NotifyUserStatus(user, status) => UpdateUserStatus(user, status);
      case Sms(_, _) =>
      case LoginRes(_, _) =>
    }
  }
}
