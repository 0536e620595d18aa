/** Class invitations: colon-joined records in two Redis hashes, one by token and one by teacher. */
module Invitations {
  import opened Texts
  import opened UrlEscape

  datatype Info = Info(updateTime: int, endTime: int, duration: int, teacher: int, channel: string,
                       updater: int, updateIP: string, expiredTime: int)

  datatype Answer = Granted(info: Info) | NoRecord | InvalidKey | BadNumber | OutOfTime

  function TokenText(time: int, endTime: int, duration: int, channel: Bytes, user: int, ip: Bytes): string {
    Itoa(time) + ":" + Itoa(endTime) + ":" + Itoa(duration) + ":" + Escape(channel) + ":" + Itoa(user) + ":" + Escape(ip)
  }

  function TeacherText(time: int, endTime: int, duration: int, user: int, ip: Bytes): string {
    Itoa(time) + ":" + Itoa(endTime) + ":" + Itoa(duration) + ":" + Itoa(user) + ":" + Escape(ip)
  }

  /** The record in a stored text, as the reader checks it field by field. */
  function Parse(s: string, teacher: int, endTime: int, now: int): Answer {
    var a := Split(s, ':');
    if |a| < 5 then InvalidKey
    else if Atoi(a[0]).None? || Atoi(a[1]).None? then BadNumber
    else if endTime != Atoi(a[1]).value then InvalidKey
    else if Atoi(a[2]).None? then BadNumber
    else if teacher == 0 && |a| < 6 then InvalidKey
    else
      var updater := if teacher == 0 then Atoi(a[4]) else Atoi(a[3]);
      if updater.None? then BadNumber
      else if now >= endTime then OutOfTime
      else
        var duration := Atoi(a[2]).value;
        Granted(Info(Atoi(a[0]).value, endTime, duration, teacher, if teacher == 0 then a[3] else "",
                     updater.value, if teacher == 0 then a[5] else a[4],
                     if duration == 0 then endTime else now + duration))
  }

  lemma FiveJoined(f: seq<string>)
    requires |f| >= 5
    ensures Join(f[..5], ":") == f[0] + ":" + f[1] + ":" + f[2] + ":" + f[3] + ":" + f[4]
  {
    assert f[..1] == [f[0]];
    JoinNext(f, 1, ":");
    JoinNext(f, 2, ":");
    JoinNext(f, 3, ":");
    JoinNext(f, 4, ":");
  }

  lemma SplitToken(time: int, endTime: int, duration: int, channel: Bytes, user: int, ip: Bytes)
    ensures Split(TokenText(time, endTime, duration, channel, user, ip), ':')
         == [Itoa(time), Itoa(endTime), Itoa(duration), Escape(channel), Itoa(user), Escape(ip)]
  {
    var f := [Itoa(time), Itoa(endTime), Itoa(duration), Escape(channel), Itoa(user), Escape(ip)];
    FiveJoined(f);
    JoinNext(f, 5, ":");
    assert f[..6] == f;
    EscapeHasNoSeparators(channel);
    EscapeHasNoSeparators(ip);
    ItoaFree(time, ':');
    ItoaFree(endTime, ':');
    ItoaFree(duration, ':');
    ItoaFree(user, ':');
    SplitJoin(f, ':');
  }

  lemma SplitTeacher(time: int, endTime: int, duration: int, user: int, ip: Bytes)
    ensures Split(TeacherText(time, endTime, duration, user, ip), ':')
         == [Itoa(time), Itoa(endTime), Itoa(duration), Itoa(user), Escape(ip)]
  {
    var f := [Itoa(time), Itoa(endTime), Itoa(duration), Itoa(user), Escape(ip)];
    FiveJoined(f);
    assert f[..5] == f;
    EscapeHasNoSeparators(ip);
    ItoaFree(time, ':');
    ItoaFree(endTime, ':');
    ItoaFree(duration, ':');
    ItoaFree(user, ':');
    SplitJoin(f, ':');
  }

  lemma TokenFields(s: string, a: seq<string>, time: int, endTime: int, duration: int, user: int, now: int)
    requires Split(s, ':') == a && |a| == 6
    requires Atoi(a[0]) == Some(time) && Atoi(a[1]) == Some(endTime) && Atoi(a[2]) == Some(duration) && Atoi(a[4]) == Some(user)
    ensures Parse(s, 0, endTime, now)
         == if now >= endTime then OutOfTime
            else Granted(Info(time, endTime, duration, 0, a[3], user, a[5], if duration == 0 then endTime else now + duration))
  {}

  lemma TeacherFields(s: string, a: seq<string>, teacher: int, time: int, endTime: int, duration: int, user: int, now: int)
    requires Split(s, ':') == a && |a| == 5 && teacher != 0
    requires Atoi(a[0]) == Some(time) && Atoi(a[1]) == Some(endTime) && Atoi(a[2]) == Some(duration) && Atoi(a[3]) == Some(user)
    ensures Parse(s, teacher, endTime, now)
         == if now >= endTime then OutOfTime
            else Granted(Info(time, endTime, duration, teacher, "", user, a[4], if duration == 0 then endTime else now + duration))
  {}

  lemma FourNumbers(time: int, endTime: int, duration: int, user: int)
    ensures Atoi(Itoa(time)) == Some(time) && Atoi(Itoa(endTime)) == Some(endTime)
    ensures Atoi(Itoa(duration)) == Some(duration) && Atoi(Itoa(user)) == Some(user)
  {
    AtoiItoa(time);
    AtoiItoa(endTime);
    AtoiItoa(duration);
    AtoiItoa(user);
  }

  lemma TokenParses(time: int, endTime: int, duration: int, channel: Bytes, user: int, ip: Bytes, now: int)
    ensures Parse(TokenText(time, endTime, duration, channel, user, ip), 0, endTime, now)
         == if now >= endTime then OutOfTime
            else Granted(Info(time, endTime, duration, 0, Escape(channel), user, Escape(ip),
                              if duration == 0 then endTime else now + duration))
  {
    var a := [Itoa(time), Itoa(endTime), Itoa(duration), Escape(channel), Itoa(user), Escape(ip)];
    SplitToken(time, endTime, duration, channel, user, ip);
    FourNumbers(time, endTime, duration, user);
    TokenFields(TokenText(time, endTime, duration, channel, user, ip), a, time, endTime, duration, user, now);
  }

  /** A generated token is read back field for field; its texts unescape to the trimmed originals. */
  lemma TokenRoundTrip(time: int, endTime: int, duration: int, channel: Bytes, user: int, ip: Bytes, now: int)
    requires now < endTime
    ensures var a := Parse(TokenText(time, endTime, duration, channel, user, ip), 0, endTime, now);
      && a == Granted(Info(time, endTime, duration, 0, Escape(channel), user, Escape(ip),
                           if duration == 0 then endTime else now + duration))
      && Unescape(a.info.channel) == TrimSpace(channel) && Unescape(a.info.updateIP) == TrimSpace(ip)
  {
    TokenParses(time, endTime, duration, channel, user, ip, now);
    UnescapeEscape(channel);
    UnescapeEscape(ip);
  }

  lemma TeacherRoundTrip(time: int, endTime: int, duration: int, teacher: int, user: int, ip: Bytes, now: int)
    requires now < endTime && teacher != 0
    ensures var a := Parse(TeacherText(time, endTime, duration, user, ip), teacher, endTime, now);
      && a == Granted(Info(time, endTime, duration, teacher, "", user, Escape(ip),
                           if duration == 0 then endTime else now + duration))
      && Unescape(a.info.updateIP) == TrimSpace(ip)
  {
    var a := [Itoa(time), Itoa(endTime), Itoa(duration), Itoa(user), Escape(ip)];
    SplitTeacher(time, endTime, duration, user, ip);
    FourNumbers(time, endTime, duration, user);
    TeacherFields(TeacherText(time, endTime, duration, user, ip), a, teacher, time, endTime, duration, user, now);
    UnescapeEscape(ip);
  }

  /** The two hashes of one class. */
  datatype Stored = Stored(tokens: map<string, string>, channels: map<string, string>)

  function Lookup(s: Stored, teacher: int, token: string): Option<string> {
    if teacher > 0 then
      if Itoa(teacher) in s.channels then Some(s.channels[Itoa(teacher)]) else None
    else
      if token in s.tokens then Some(s.tokens[token]) else None
  }

  /** The removals go to the hash the record was not read from when it has expired. */
  function Use(s: Stored, teacher: int, token: string, endTime: int, now: int): (Stored, Answer) {
    match Lookup(s, teacher, token)
    case None => (s, NoRecord)
    case Some(text) =>
      var a := Parse(text, teacher, endTime, now);
      if a.OutOfTime? then
        (if teacher == 0 then s.(channels := s.channels - {Itoa(teacher)}) else s.(tokens := s.tokens - {token}), a)
      else if a.Granted? && teacher == 0 then (s.(tokens := s.tokens - {token}), a)
      else (s, a)
  }

  /** A token grants once: whoever comes later finds no record. */
  lemma TokenGrantsOnce(s: Stored, token: string, endTime: int, now: int, later: int)
    ensures var (s1, a) := Use(s, 0, token, endTime, now);
      a.Granted? ==> Use(s1, 0, token, endTime, later) == (s1, NoRecord)
  {}

  /** What becomes of a record read after its end: it stays where it was read, unless the
      teacher id is negative, which its caller (gdun/server/elementary/user.go:314-317) never passes on.
      For a token or a teacher only an entry of the other hash can go. */
  lemma ExpiredRecordStays(s: Stored, teacher: int, token: string, endTime: int, now: int)
    ensures var (s1, a) := Use(s, teacher, token, endTime, now);
      a.OutOfTime? ==>
        && (Lookup(s1, teacher, token) == Lookup(s, teacher, token) <==> teacher >= 0)
        && (Lookup(s1, teacher, token).None? <==> teacher < 0)
        && (if teacher == 0 then s1.tokens == s.tokens else s1.channels == s.channels)
  {}

  /** Any token that was issued, read once its time is over: it is refused, and found and
      refused again whenever it is read later. */
  lemma ExpiredTokenIsFoundAgain(time: int, endTime: int, duration: int, channel: Bytes, user: int, ip: Bytes,
                                 token: string, now: int, later: int)
    requires endTime <= now <= later
    ensures var text := TokenText(time, endTime, duration, channel, user, ip);
      var (s1, a) := Use(Stored(map[token := text], map[]), 0, token, endTime, now);
      a == OutOfTime && Lookup(s1, 0, token) == Some(text) && Use(s1, 0, token, endTime, later).1 == OutOfTime
  {
    TokenParses(time, endTime, duration, channel, user, ip, now);
    TokenParses(time, endTime, duration, channel, user, ip, later);
  }

  // ----------------------------------------------------- refusals, and what stays

  /** A record is refused by its first fault: too few pieces, a time that is no number, the
      wrong end, a duration that is no number, a piece too few for a token, an updater that is
      no number, and at last the end itself. */
  lemma FirstFault(s: string, teacher: int, endTime: int, now: int)
    ensures var a, r := Split(s, ':'), Parse(s, teacher, endTime, now);
      && (|a| < 5 ==> r == InvalidKey)
      && (|a| >= 5 && (Atoi(a[0]).None? || Atoi(a[1]).None?) ==> r == BadNumber)
      && (|a| >= 5 && Atoi(a[0]).Some? && Atoi(a[1]).Some? && Atoi(a[1]).value != endTime ==> r == InvalidKey)
    ensures var a, r := Split(s, ':'), Parse(s, teacher, endTime, now);
      |a| >= 5 && Atoi(a[0]).Some? && Atoi(a[1]) == Some(endTime) ==>
        && (Atoi(a[2]).None? ==> r == BadNumber)
        && (Atoi(a[2]).Some? && teacher == 0 && |a| == 5 ==> r == InvalidKey)
        && (Atoi(a[2]).Some? && !(teacher == 0 && |a| == 5) ==>
              && (Atoi(if teacher == 0 then a[4] else a[3]).None? ==> r == BadNumber)
              && (Atoi(if teacher == 0 then a[4] else a[3]).Some? ==>
                    && (r == OutOfTime <==> now >= endTime)
                    && (r.Granted? <==> now < endTime)))
  {}

  /** An issued token is granted before its end, out of time from then on, and no key for any
      other end. */
  lemma IssuedToken(time: int, endTime: int, duration: int, channel: Bytes, user: int, ip: Bytes, asked: int, now: int)
    ensures var r := Parse(TokenText(time, endTime, duration, channel, user, ip), 0, asked, now);
      && (asked != endTime ==> r == InvalidKey)
      && (asked == endTime ==> (now >= endTime <==> r == OutOfTime) && (now < endTime <==> r.Granted?))
  {
    SplitToken(time, endTime, duration, channel, user, ip);
    FourNumbers(time, endTime, duration, user);
    FirstFault(TokenText(time, endTime, duration, channel, user, ip), 0, asked, now);
  }

  /** The answer is that of the record found: a teacher's by the id, else the token's. A token
      that is granted goes, and all else stays, a teacher's record that is granted among it;
      what goes at the end is in the other hash. */
  lemma UseCall(s: Stored, teacher: int, token: string, endTime: int, now: int)
    ensures var found := if teacher > 0 then Itoa(teacher) in s.channels else token in s.tokens;
      var (t, r) := Use(s, teacher, token, endTime, now);
      if !found then t == s && r == NoRecord
      else
        && r == Parse(if teacher > 0 then s.channels[Itoa(teacher)] else s.tokens[token], teacher, endTime, now)
        && (r.Granted? && teacher == 0 ==> t == Stored(s.tokens - {token}, s.channels))
        && (r.Granted? && teacher != 0 ==> t == s)
        && (r == OutOfTime && teacher == 0 ==> t == Stored(s.tokens, s.channels - {"0"}))
        && (r == OutOfTime && teacher != 0 ==> t == Stored(s.tokens - {token}, s.channels))
        && (!r.Granted? && r != OutOfTime ==> t == s)
  {
    assert Itoa(0) == "0";
  }

  function WithAll(tokens: map<string, string>, ids: seq<string>, value: string): map<string, string> {
    tokens + map id | id in ids :: value
  }

  /** Every new token has the record; the others keep theirs. */
  lemma IssuedToAll(tokens: map<string, string>, ids: seq<string>, value: string)
    ensures var t := WithAll(tokens, ids, value);
      && (forall id :: id in t <==> id in tokens || id in ids)
      && (forall id :: id in t ==> t[id] == if id in ids then value else tokens[id])
  {}

  lemma WithOneMore(tokens: map<string, string>, ids: seq<string>, id: string, value: string)
    ensures WithAll(tokens, ids + [id], value) == WithAll(tokens, ids, value)[id := value]
  {}

  class InvitationCache {
    var tokens: map<string, string>
    var channels: map<string, string>

    ghost function State(): Stored
      reads this
    {
      Stored(tokens, channels)
    }

    constructor ()
      ensures State() == Stored(map[], map[])
    {
      tokens, channels := map[], map[];
    }

    /** ids: the identifiers drawn for the tokens. */
    method GenerateInvitationToken(time: int, endTime: int, duration: int, teacher: int, channel: Bytes,
                                   ids: seq<string>, user: int, ip: Bytes)
      modifies this
      ensures State() == (if teacher == 0
                          then old(State()).(tokens := WithAll(old(tokens), ids, TokenText(time, endTime, duration, channel, user, ip)))
                          else old(State()).(channels := old(channels)[Itoa(teacher) := TeacherText(time, endTime, duration, user, ip)]))
    {
      if teacher == 0 {
        IssueTokens(ids, TokenText(time, endTime, duration, channel, user, ip));
      } else {
        channels := channels[Itoa(teacher) := TeacherText(time, endTime, duration, user, ip)];
      }
    }

    method IssueTokens(ids: seq<string>, value: string)
      modifies `tokens
      ensures tokens == WithAll(old(tokens), ids, value)
    {
      for i := 0 to |ids|
        invariant tokens == WithAll(old(tokens), ids[..i], value)
      {
        assert ids[..i + 1] == ids[..i] + [ids[i]];
        WithOneMore(old(tokens), ids[..i], ids[i], value);
        tokens := tokens[ids[i] := value];
      }
      assert ids[..|ids|] == ids;
    }

    method GetClassInvitationInfo(teacher: int, token: string, endTime: int, now: int) returns (a: Answer)
      modifies this
      ensures (State(), a) == Use(old(State()), teacher, token, endTime, now)
    {
      var s := "";
      if teacher > 0 {
        if Itoa(teacher) !in channels {
          return NoRecord;
        }
        s := channels[Itoa(teacher)];
      } else {
        if token !in tokens {
          return NoRecord;
        }
        s := tokens[token];
      }
      a := Parse(s, teacher, endTime, now);
      if a.OutOfTime? {
        if teacher == 0 {
          channels := channels - {Itoa(teacher)};
        } else {
          tokens := tokens - {token};
        }
        return;
      }
      if a.Granted? && teacher == 0 {
        tokens := tokens - {token};
      }
    }
  }
}
