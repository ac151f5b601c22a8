/** What the channel manager keeps true, and what its operations promise
    about one another. */
module ChannelProperties {
  import opened Wrappers
  import opened Values
  import opened PacketDefine
  import opened ChannelManager

  // ---------------------------------------------------------------------
  // The invariant
  // ---------------------------------------------------------------------

  /** Message ids rise strictly from oldest to newest. */
  predicate Increasing(xs: seq<MessageInfo>) {
    forall i, j | 0 <= i < j < |xs| :: xs[i].id < xs[j].id
  }

  /** Every id is one the counter has handed out. */
  predicate IdsUpTo(xs: seq<MessageInfo>, n: int) {
    forall i | 0 <= i < |xs| :: 0 < xs[i].id <= n
  }

  /** What every reachable state satisfies while the counter has not wrapped:
      - a pointer is never negative;
      - a nonzero pointer names an existing channel that holds the connection;
      - channels 1..999 exist;
      - a log belongs to an existing channel, its ids rise, and none is above
        the counter. */
  predicate Valid(s: Chat) {
    && s.lastId >= 0
    && (forall c | c in s.pointers :: s.pointers[c] >= 0)
    && (forall c | c in s.pointers && s.pointers[c] != 0 ::
          s.pointers[c] in s.channels && c in s.channels[s.pointers[c]])
    && (forall ch | 1 <= ch <= PoolSize :: ch in s.channels)
    && (forall ch | ch in s.logs ::
          ch in s.channels && Increasing(s.logs[ch]) && IdsUpTo(s.logs[ch], s.lastId))
  }

  lemma InitValid()
    ensures Valid(Init())
  {
  }

  lemma AddConnectionValid(s: Chat, c: ConnectionId)
    requires Valid(s)
    ensures Valid(AddConnection(s, c))
  {
  }

  lemma RemoveConnectionValid(s: Chat, c: ConnectionId)
    requires Valid(s)
    ensures Valid(RemoveConnection(s, c))
  {
    var r := RemoveConnection(s, c);
    forall d | d in r.pointers && r.pointers[d] != 0
      ensures r.pointers[d] in r.channels && d in r.channels[r.pointers[d]]
    {
      assert r.pointers[d] == s.pointers[d];
    }
  }

  lemma LeaveChannelValid(s: Chat, c: ConnectionId, ch: int)
    requires Valid(s)
    ensures Valid(LeaveChannel(s, c, ch).0)
  {
    var r := LeaveChannel(s, c, ch).0;
    if r != s {
      forall d | d in r.pointers && r.pointers[d] != 0
        ensures r.pointers[d] in r.channels && d in r.channels[r.pointers[d]]
      {
        assert d != c;
        assert r.pointers[d] == s.pointers[d];
      }
    }
  }

  /** Creating a channel, or adding a member to one, keeps the invariant. */
  lemma ValidAddMember(s: Chat, ch: int, c: ConnectionId, members: set<ConnectionId>)
    requires Valid(s)
    requires ch in s.channels ==> s.channels[ch] <= members
    ensures Valid(s.(channels := s.channels[ch := members]))
  {
  }

  /** Pointing a connection at a channel that lists it keeps the invariant. */
  lemma ValidPoint(s: Chat, ch: int, c: ConnectionId)
    requires Valid(s) && ch >= 0 && c in s.pointers
    requires ch in s.channels && c in s.channels[ch]
    ensures Valid(s.(pointers := s.pointers[c := ch]))
  {
  }

  /** The state after `JoinChannel`'s leave step. */
  lemma JoinLeaveStep(s: Chat, c: ConnectionId)
    requires Valid(s)
    ensures var leave := if c in s.pointers then s.pointers[c] else 0;
            var s1 := if leave != 0 then LeaveChannel(s, c, leave).0 else s;
            Valid(s1) && s1.pointers.Keys == s.pointers.Keys && (c in s1.pointers ==> s1.pointers[c] == 0)
  {
    var leave := if c in s.pointers then s.pointers[c] else 0;
    if leave != 0 {
      LeaveChannelValid(s, c, leave);
    }
  }

  lemma JoinChannelValid(s: Chat, ch: Int32, c: ConnectionId, max: int)
    requires Valid(s)
    ensures Valid(JoinChannel(s, ch, c, max).0)
  {
    if ch >= 0 && !(c in s.pointers && s.pointers[c] == ch) {
      var leave := if c in s.pointers then s.pointers[c] else 0;
      JoinLeaveStep(s, c);
      EnterValid(if leave != 0 then LeaveChannel(s, c, leave).0 else s, ch, c, max);
    }
  }

  lemma EnterValid(s: Chat, ch: int, c: ConnectionId, max: int)
    requires Valid(s) && ch >= 0
    ensures Valid(Enter(s, ch, c, max).0)
  {
    var members := Members(s, ch);
    ValidAddMember(s, ch, c, members);
    var s2 := s.(channels := s.channels[ch := members]);
    if !(|members| >= max || c in members) {
      ValidAddMember(s2, ch, c, members + {c});
      var s3 := s2.(channels := s2.channels[ch := members + {c}]);
      if c in s3.pointers {
        ValidPoint(s3, ch, c);
      }
    }
  }

  lemma RegisterNicknameValid(s: Chat, uid: Int64, nick: Str)
    requires Valid(s)
    ensures Valid(RegisterNickname(s, uid, nick))
  {
  }

  /** Appending a newer id keeps a log rising. */
  lemma AppendRising(log: seq<MessageInfo>, info: MessageInfo, n: int)
    requires Increasing(log) && IdsUpTo(log, n) && n >= 0 && info.id == n + 1
    ensures Increasing(log + [info]) && IdsUpTo(log + [info], n + 1)
  {
    var q := log + [info];
    assert forall i | 0 <= i < |log| :: q[i] == log[i];
  }

  /** A suffix of a rising log is rising. */
  lemma SuffixRising(q: seq<MessageInfo>, k: nat, n: int)
    requires Increasing(q) && IdsUpTo(q, n) && k <= |q|
    ensures Increasing(q[k..]) && IdsUpTo(q[k..], n)
  {
    var r := q[k..];
    assert forall i | 0 <= i < |r| :: r[i] == q[k + i];
  }

  /** Appending a newer id to a rising log, then evicting, keeps it rising. */
  lemma AppendIncreasing(log: seq<MessageInfo>, info: MessageInfo, n: int)
    requires Increasing(log) && IdsUpTo(log, n) && n >= 0 && info.id == n + 1
    ensures Increasing(DropOldest(log + [info])) && IdsUpTo(DropOldest(log + [info]), n + 1)
  {
    var q := log + [info];
    AppendRising(log, info, n);
    var r := DropOldest(q);
    SuffixRising(q, |q| - |r|, n + 1);
  }

  /** Raising the counter, and putting a conforming log on an existing
      channel, keep the invariant. */
  lemma ValidNewLog(s: Chat, ch: int, log: Log, n: Int32)
    requires Valid(s) && n >= s.lastId && ch in s.channels
    requires Increasing(log) && IdsUpTo(log, n)
    ensures Valid(s.(lastId := n, logs := s.logs[ch := log]))
  {
    var r := s.(lastId := n, logs := s.logs[ch := log]);
    forall d | d in r.logs
      ensures d in r.channels && Increasing(r.logs[d]) && IdsUpTo(r.logs[d], n)
    {
      if d != ch {
        assert IdsUpTo(s.logs[d], s.lastId);
      }
    }
  }

  lemma ValidBump(s: Chat, n: Int32)
    requires Valid(s) && n >= s.lastId
    ensures Valid(s.(lastId := n))
  {
    var r := s.(lastId := n);
    forall d | d in r.logs
      ensures IdsUpTo(r.logs[d], n)
    {
      assert IdsUpTo(s.logs[d], s.lastId);
    }
  }

  /** The state `AddMessage` leaves: the counter advanced and, when posted,
      the channel's log extended and trimmed. */
  lemma AddMessageState(s: Chat, c: ConnectionId, uid: Int64, msg: Str)
    ensures var r := AddMessage(s, c, uid, msg);
            r.1.None? ==> r.0 == s.(lastId := NextId(s.lastId))
    ensures var r := AddMessage(s, c, uid, msg);
            r.1.Some? ==> r.0 == s.(lastId := NextId(s.lastId),
                                    logs := s.logs[s.pointers[c] := DropOldest(LogOf(s, s.pointers[c]) + [r.1.value.info])])
  {
  }

  /** `AddMessage` keeps the invariant as long as the counter does not wrap. */
  lemma AddMessageValid(s: Chat, c: ConnectionId, uid: Int64, msg: Str)
    requires Valid(s) && s.lastId < Int32Max
    ensures Valid(AddMessage(s, c, uid, msg).0)
  {
    AddMessageState(s, c, uid, msg);
    if AddMessage(s, c, uid, msg).1.Some? {
      PostedValid(s, c, uid, msg);
    } else {
      ValidBump(s, s.lastId + 1);
    }
  }

  lemma PostedValid(s: Chat, c: ConnectionId, uid: Int64, msg: Str)
    requires Valid(s) && s.lastId < Int32Max
    requires AddMessage(s, c, uid, msg).1.Some?
    ensures Valid(AddMessage(s, c, uid, msg).0)
  {
    AddMessageState(s, c, uid, msg);
    PostingValid(s, s.pointers[c], AddMessage(s, c, uid, msg).1.value.info);
  }

  /** Appending the next id to an existing channel's log keeps the
      invariant. */
  lemma PostingValid(s: Chat, ch: int, info: MessageInfo)
    requires Valid(s) && s.lastId < Int32Max && ch in s.channels && info.id == s.lastId + 1
    ensures Valid(s.(lastId := s.lastId + 1, logs := s.logs[ch := DropOldest(LogOf(s, ch) + [info])]))
  {
    var log := DropOldest(LogOf(s, ch) + [info]);
    LogOfRising(s, ch);
    NewLogRising(LogOf(s, ch), info, s.lastId);
    ValidNewLog(s, ch, log, s.lastId + 1);
  }

  lemma LogOfRising(s: Chat, ch: int)
    requires Valid(s)
    ensures Increasing(LogOf(s, ch)) && IdsUpTo(LogOf(s, ch), s.lastId)
  {
  }

  lemma NewLogRising(log: Log, info: MessageInfo, n: Int32)
    requires Increasing(log) && IdsUpTo(log, n) && 0 <= n < Int32Max && info.id == n + 1
    ensures Increasing(DropOldest(log + [info])) && IdsUpTo(DropOldest(log + [info]), n + 1)
  {
    AppendIncreasing(log, info, n);
  }

  // ---------------------------------------------------------------------
  // Connections
  // ---------------------------------------------------------------------

  /** Registering a fresh connection and removing it again restores the
      state, provided channel 0 does not list it. */
  lemma RemoveUndoesAdd(s: Chat, c: ConnectionId)
    requires c !in s.pointers
    requires 0 in s.channels ==> c !in s.channels[0]
    ensures RemoveConnection(AddConnection(s, c), c) == s
  {
    var r := RemoveConnection(AddConnection(s, c), c);
    assert r.pointers == s.pointers;
    if 0 in s.channels {
      assert s.channels[0] - {c} == s.channels[0];
    }
    assert r.channels == s.channels;
  }

  /** A connection that is listed in channel 0 while pointing at 0 is not
      taken out of channel 0 when it joins another channel: it ends up in
      both. Being in at most one channel is not an invariant. */
  lemma JoinFromZeroKeepsZero(s: Chat, ch: Int32, c: ConnectionId, max: int)
    requires c in s.pointers && s.pointers[c] == 0
    requires 0 in s.channels && c in s.channels[0]
    requires ch > 0 && JoinChannel(s, ch, c, max).1
    ensures var r := JoinChannel(s, ch, c, max).0;
            c in r.channels[0] && c in r.channels[ch] && r.pointers[c] == ch
  {
  }

  /** A connection at channel 0 joining an empty or new channel `ch`. */
  lemma JoinFresh(s: Chat, ch: Int32, c: ConnectionId, max: int)
    requires c in s.pointers && s.pointers[c] == 0 && ch > 0 && max > 0
    requires ch in s.channels ==> s.channels[ch] == {}
    ensures JoinChannel(s, ch, c, max)
            == (s.(pointers := s.pointers[c := ch], channels := s.channels[ch := {c}]), true)
  {
    var members := Members(s, ch);
    assert members == {};
    assert members + {c} == {c};
    assert s.channels[ch := members][ch := members + {c}] == s.channels[ch := {c}];
  }

  /** Channel 0 can come to list a connection that points at 0: a connection
      in channel `a` that joins channel 0 leaves `a`, is added to a new
      channel 0 and points at 0. */
  lemma JoinZeroListsConnection(s: Chat, c: ConnectionId, a: int, max: int)
    requires c in s.pointers && s.pointers[c] == a && a > 0 && a in s.channels
    requires 0 !in s.channels && max > 0
    ensures JoinChannel(s, 0, c, max)
            == (s.(pointers := s.pointers[c := 0],
                   channels := s.channels[a := s.channels[a] - {c}][0 := {c}]), true)
  {
    var s1 := LeaveChannel(s, c, a).0;
    assert s1 == s.(pointers := s.pointers[c := 0], channels := s.channels[a := s.channels[a] - {c}]);
    var e: set<ConnectionId> := {};
    assert e + {c} == {c};
    assert s1.channels[0 := e][0 := e + {c}] == s1.channels[0 := {c}];
    assert s1.pointers[c := 0] == s1.pointers;
    var r := JoinChannel(s, 0, c, max);
    assert r.1;
    assert r.0 == s1.(channels := s1.channels[0 := {c}]);
  }

  /** The sequence connect, join 5, join 0, join 7 from the initial state
      leaves the connection in two channels at once. */
  lemma TwoChannels(c: ConnectionId)
    ensures var s1 := AddConnection(Init(), c);
            var s2 := JoinChannel(s1, 5, c, DefaultCapacity).0;
            var s3 := JoinChannel(s2, 0, c, DefaultCapacity).0;
            var s4 := JoinChannel(s3, 7, c, DefaultCapacity).0;
            && 0 in s4.channels && c in s4.channels[0]
            && 7 in s4.channels && c in s4.channels[7]
  {
    var s1 := AddConnection(Init(), c);
    JoinFresh(s1, 5, c, DefaultCapacity);
    var s2 := s1.(pointers := s1.pointers[c := 5], channels := s1.channels[5 := {c}]);
    assert 0 !in s2.channels && s2.channels[7] == {};
    ZeroThenOther(s2, c, 5, 7, DefaultCapacity);
  }

  /** From a channel `a`, joining channel 0 (while it does not exist) and
      then an empty channel `b` leaves the connection listed in both 0 and
      `b`. */
  lemma ZeroThenOther(s: Chat, c: ConnectionId, a: int, b: Int32, max: int)
    requires c in s.pointers && s.pointers[c] == a && a > 0 && a in s.channels
    requires 0 !in s.channels && max > 0
    requires b > 0 && b != a && (b in s.channels ==> s.channels[b] == {})
    ensures var s3 := JoinChannel(JoinChannel(s, 0, c, max).0, b, c, max).0;
            && 0 in s3.channels && c in s3.channels[0]
            && b in s3.channels && c in s3.channels[b]
  {
    JoinZeroListsConnection(s, c, a, max);
    var s2 := s.(pointers := s.pointers[c := 0],
                 channels := s.channels[a := s.channels[a] - {c}][0 := {c}]);
    JoinFresh(s2, b, c, max);
  }

  // ---------------------------------------------------------------------
  // Joining and leaving
  // ---------------------------------------------------------------------

  /** Away from its early exits, a join succeeds exactly when the target
      channel is below `max` members and does not already list `c`. */
  lemma JoinSucceedsIff(s: Chat, ch: Int32, c: ConnectionId, max: int)
    requires ch >= 0 && !(c in s.pointers && s.pointers[c] == ch)
    ensures JoinChannel(s, ch, c, max).1 <==> |Members(s, ch)| < max && c !in Members(s, ch)
  {
  }

  /** A refused join leaves the target's member set as it was, but the
      connection has already left the channel it was in. */
  lemma JoinFullLeavesOld(s: Chat, ch: Int32, c: ConnectionId, max: int)
    requires ch >= 0 && c in s.pointers && s.pointers[c] != ch && s.pointers[c] != 0
    requires |Members(s, ch)| >= max
    ensures var r := JoinChannel(s, ch, c, max);
            && !r.1
            && r.0.channels[ch] == Members(s, ch)
            && r.0.pointers[c] == 0
            && (s.pointers[c] in s.channels ==> c !in r.0.channels[s.pointers[c]])
  {
  }

  /** A join that adds the connection never takes the channel above `max`. */
  lemma JoinWithinCapacity(s: Chat, ch: Int32, c: ConnectionId, max: int)
    requires !(c in s.pointers && s.pointers[c] == ch)
    requires JoinChannel(s, ch, c, max).1
    ensures |JoinChannel(s, ch, c, max).0.channels[ch]| == |Members(s, ch)| + 1 <= max
  {
  }

  /** Leaving the channel just joined from channel 0 restores the state. */
  lemma LeaveUndoesJoin(s: Chat, ch: Int32, c: ConnectionId, max: int)
    requires c in s.pointers && s.pointers[c] == 0
    requires ch > 0 && ch in s.channels
    requires JoinChannel(s, ch, c, max).1
    ensures LeaveChannel(JoinChannel(s, ch, c, max).0, c, ch) == (s, true)
  {
    var r := JoinChannel(s, ch, c, max).0;
    var l := LeaveChannel(r, c, ch).0;
    assert l.pointers == s.pointers;
    assert r.channels[ch] - {c} == s.channels[ch];
    assert l.channels == s.channels;
  }

  /** After a successful join the connection's channel lists it. */
  lemma JoinThenMembers(s: Chat, ch: Int32, c: ConnectionId, max: int)
    requires Valid(s) && c in s.pointers && JoinChannel(s, ch, c, max).1
    requires ch != 0
    ensures var r := JoinChannel(s, ch, c, max).0;
            GetChannelOf(r, c).Some? && c in GetChannelOf(r, c).value
  {
  }

  // ---------------------------------------------------------------------
  // Nicknames
  // ---------------------------------------------------------------------

  /** The last registration wins, and other accounts are not affected. */
  lemma NicknameLastWins(s: Chat, uid: Int64, other: Int64, a: Str, b: Str)
    requires other != uid
    ensures GetNickname(RegisterNickname(RegisterNickname(s, uid, a), uid, b), uid) == b
    ensures GetNickname(RegisterNickname(s, uid, a), other) == GetNickname(s, other)
  {
  }

  // ---------------------------------------------------------------------
  // Logs
  // ---------------------------------------------------------------------

  /** Appending to a log with room keeps everything; appending to a full log
      evicts exactly the oldest entry. */
  lemma AppendEvicts(log: Log, x: MessageInfo)
    ensures |log| < LogCapacity ==> DropOldest(log + [x]) == log + [x]
    ensures |log| == LogCapacity ==> DropOldest(log + [x]) == log[1..] + [x]
  {
    if |log| == LogCapacity {
      AppendAtCapacity(log, x);
    }
  }

  lemma AppendAtCapacity(log: Log, x: MessageInfo)
    requires |log| == LogCapacity
    ensures DropOldest(log + [x]) == log[1..] + [x]
  {
    var q := log + [x];
    var r := DropOldest(q);
    assert |r| == LogCapacity;
    assert r == q[1..];
    assert q[1..] == log[1..] + [x];
  }

  /** In a rising log, the entries after `k` are a suffix of the log, and the
      entries before it are those at or below `k`. */
  lemma {:induction false} AfterIsSuffix(xs: seq<MessageInfo>, k: int) returns (i: nat)
    requires Increasing(xs)
    ensures i <= |xs| && After(xs, k) == xs[i..]
    ensures forall j | 0 <= j < i :: xs[j].id <= k
    ensures forall j | i <= j < |xs| :: xs[j].id > k
    decreases |xs|
  {
    if |xs| == 0 {
      i := 0;
    } else if xs[0].id > k {
      AllAbove(xs, k);
      i := 0;
    } else {
      assert Increasing(xs[1..]);
      var t := AfterIsSuffix(xs[1..], k);
      i := t + 1;
      assert xs[1..][t..] == xs[i..];
    }
  }

  /** In a valid state, the messages a channel returns after a positive id
      are a suffix of its log, in log order, and the entries left out are
      exactly those at or below that id. */
  lemma RecentIsSuffix(s: Chat, ch: int, k: Int32) returns (i: nat)
    requires Valid(s) && ch in s.logs && k > 0
    ensures i <= |s.logs[ch]| && GetLastMessages(s, ch, k) == Some(s.logs[ch][i..])
    ensures forall j | 0 <= j < i :: s.logs[ch][j].id <= k
  {
    i := AfterIsSuffix(s.logs[ch], k);
  }

  /** When every id is above `k`, `After` keeps the whole log. */
  lemma {:induction false} AllAbove(xs: seq<MessageInfo>, k: int)
    requires forall j | 0 <= j < |xs| :: xs[j].id > k
    ensures After(xs, k) == xs
    decreases |xs|
  {
    if |xs| > 0 {
      AllAbove(xs[1..], k);
      assert [xs[0]] + xs[1..] == xs;
    }
  }

  /** A message's id is above every id already logged, as long as the counter
      does not wrap. */
  lemma PostedIsNewest(s: Chat, c: ConnectionId, uid: Int64, msg: Str)
    requires Valid(s) && s.lastId < Int32Max
    requires AddMessage(s, c, uid, msg).1.Some?
    ensures var id := AddMessage(s, c, uid, msg).1.value.info.id;
            id == s.lastId + 1
            && forall ch, x | ch in s.logs && x in s.logs[ch] :: x.id < id
  {
    LogsUpToCounter(s);
  }

  /** Every logged id is at most the counter. */
  lemma LogsUpToCounter(s: Chat)
    requires Valid(s)
    ensures forall ch, x | ch in s.logs && x in s.logs[ch] :: x.id <= s.lastId
  {
    forall ch, x | ch in s.logs && x in s.logs[ch]
      ensures x.id <= s.lastId
    {
      var log := s.logs[ch];
      assert IdsUpTo(log, s.lastId);
      var j :| 0 <= j < |log| && log[j] == x;
    }
  }

  /** `After` of a log whose last entry alone is above `k`. */
  lemma {:induction false} AfterOnlyLast(q: seq<MessageInfo>, k: int)
    requires |q| > 0 && q[|q| - 1].id > k
    requires forall j | 0 <= j < |q| - 1 :: q[j].id <= k
    ensures After(q, k) == [q[|q| - 1]]
    decreases |q|
  {
    if |q| > 1 {
      AfterOnlyLast(q[1..], k);
    }
  }

  /** After appending a record above `k` to a log at or below `k`, and
      evicting, the entries after `k` are that record alone. */
  lemma AfterAppended(log: seq<MessageInfo>, info: MessageInfo, k: int)
    requires IdsUpTo(log, k) && info.id > k
    ensures After(DropOldest(log + [info]), k) == [info]
  {
    var r := DropOldest(log + [info]);
    EvictedKeepsLast(log, info, k);
    AfterOnlyLast(r, k);
  }

  /** After appending and evicting, the new record is last and every entry
      before it is an old one. */
  lemma EvictedKeepsLast(log: seq<MessageInfo>, info: MessageInfo, k: int)
    requires IdsUpTo(log, k)
    ensures var r := DropOldest(log + [info]);
            |r| > 0 && r[|r| - 1] == info && forall j | 0 <= j < |r| - 1 :: r[j].id <= k
  {
    var q := log + [info];
    var r := DropOldest(q);
    var d := |q| - |r|;
    assert r == q[d..];
    forall j | 0 <= j < |r| - 1
      ensures r[j].id <= k
    {
      assert d + j < |log|;
      assert r[j] == log[d + j];
    }
  }

  /** Right after a message is posted, asking its channel for what follows
      the previous counter value gives exactly that message. */
  lemma PostedThenRecent(s: Chat, c: ConnectionId, uid: Int64, msg: Str)
    requires Valid(s) && 0 < s.lastId < Int32Max
    requires AddMessage(s, c, uid, msg).1.Some?
    ensures var r := AddMessage(s, c, uid, msg);
            GetLastMessages(r.0, s.pointers[c], s.lastId) == Some([r.1.value.info])
  {
    LogOfRising(s, s.pointers[c]);
    PostedAfterCounter(s, c, uid, msg);
  }

  /** `PostedThenRecent` needs only that the channel's log stays at or below
      the counter. */
  lemma PostedAfterCounter(s: Chat, c: ConnectionId, uid: Int64, msg: Str)
    requires 0 < s.lastId < Int32Max
    requires AddMessage(s, c, uid, msg).1.Some?
    requires IdsUpTo(LogOf(s, s.pointers[c]), s.lastId)
    ensures var r := AddMessage(s, c, uid, msg);
            GetLastMessages(r.0, s.pointers[c], s.lastId) == Some([r.1.value.info])
  {
    var r := AddMessage(s, c, uid, msg);
    AppendedThenRecent(LogOf(s, s.pointers[c]), r.1.value.info, s.lastId, r.0.logs, s.pointers[c]);
  }

  /** Once `info` is appended to a channel's log, it is the only entry
      above the old counter. */
  lemma AppendedThenRecent(log: Log, info: MessageInfo, k: Int32, logs: map<int, Log>, ch: int)
    requires IdsUpTo(log, k) && info.id > k
    requires ch in logs && logs[ch] == DropOldest(log + [info])
    ensures forall t: Chat | t.logs == logs :: GetLastMessages(t, ch, k) == Some([info])
  {
    AfterAppended(log, info, k);
  }
}
