/** `RTChatChannelManager`: the chat server's registry of connections,
    channels, nicknames and per-channel message logs, held as one value with
    a transition function per public method. Each method is one atomic step. */
module ChannelManager {
  import opened Wrappers
  import opened LittleEndian
  import opened Values
  import opened PacketDefine

  type ConnectionId = string

  /** Channels 1..999 exist from the start. */
  const PoolSize: int := 999

  /** A log keeps the newest 100 messages. */
  const LogCapacity: int := 100

  /** `JoinChannel`'s default `channel_count_max`. */
  const DefaultCapacity: int := 30

  /** `"GUEST"` in UTF-8. */
  const Guest: seq<Byte> := [71, 85, 69, 83, 84]

  type Log = xs: seq<MessageInfo> | |xs| <= 100

  // ---------------------------------------------------------------------
  // C# `int` arithmetic
  // ---------------------------------------------------------------------

  /** The `int` that `x` becomes under unchecked two's-complement arithmetic. */
  function Wrap32(x: int): (r: Int32)
    ensures IsInt32(x) ==> r == x
    ensures (x - r) % 0x1_0000_0000 == 0
  {
    (x + 0x8000_0000) % 0x1_0000_0000 - 0x8000_0000
  }

  /** `Interlocked.Increment` on an `int`: `int.MaxValue` steps to `int.MinValue`. */
  function NextId(n: Int32): (r: Int32)
    ensures n < Int32Max ==> r == n + 1
  {
    if n == Int32Max then Int32Min else n + 1
  }

  /** `NextId` is addition of 1 in two's complement. */
  lemma NextIdWraps(n: Int32)
    ensures NextId(n) == Wrap32(n + 1)
    ensures n == Int32Max ==> NextId(n) == Int32Min
  {
  }

  /** `n * -1` on an `int`: `int.MinValue` is its own negation. */
  function Neg32(n: Int32): (r: Int32)
    ensures n != Int32Min ==> r == -n
  {
    if n == Int32Min then n else -n
  }

  /** `Neg32` is negation in two's complement; it is negative exactly for
      positive arguments and for `int.MinValue`. */
  lemma Neg32Wraps(n: Int32)
    ensures Neg32(n) == Wrap32(-(n as int))
    ensures Neg32(n) < 0 <==> n > 0 || n == Int32Min
  {
  }

  // ---------------------------------------------------------------------
  // State
  // ---------------------------------------------------------------------

  /** `pointers` is each registered connection's current channel (0 when
      none); `channels` each channel's member set; `logs` the channels'
      message logs, oldest first; `lastId` the last message id handed out. */
  datatype Chat = Chat(
    pointers: map<ConnectionId, int>,
    channels: map<int, set<ConnectionId>>,
    nicknames: map<Int64, Str>,
    logs: map<int, Log>,
    lastId: Int32)

  /** The constructor: channels 1..999 with no members, no connections, no
      nicknames, no logs, counter 0. */
  function Init(): (s: Chat)
    ensures forall ch :: ch in s.channels <==> 1 <= ch <= PoolSize
    ensures forall ch | ch in s.channels :: s.channels[ch] == {}
    ensures s.pointers == map[] && s.nicknames == map[] && s.logs == map[] && s.lastId == 0
  {
    Chat(map[], Pool(PoolSize), map[], map[], 0)
  }

  /** The constructor's loop: channels 1..n, each with no members. */
  function Pool(n: nat): (m: map<int, set<ConnectionId>>)
    ensures forall ch :: ch in m <==> 1 <= ch <= n
    ensures forall ch | ch in m :: m[ch] == {}
  {
    if n == 0 then map[] else Pool(n - 1)[n := {}]
  }

  // ---------------------------------------------------------------------
  // Connections
  // ---------------------------------------------------------------------

  /** `AddConnection`: registers `c` at channel 0; an existing entry is kept. */
  function AddConnection(s: Chat, c: ConnectionId): (r: Chat)
    ensures r.pointers.Keys == s.pointers.Keys + {c}
    ensures c !in s.pointers ==> r.pointers[c] == 0
    ensures forall d | d in s.pointers :: r.pointers[d] == s.pointers[d]
    ensures r.(pointers := s.pointers) == s
  {
    if c in s.pointers then s else s.(pointers := s.pointers[c := 0])
  }

  /** `RemoveConnection`: drops `c`'s entry and takes `c` out of the member
      set of the channel it points at (channel 0 included). */
  function RemoveConnection(s: Chat, c: ConnectionId): (r: Chat)
    ensures c !in r.pointers && r.pointers.Keys == s.pointers.Keys - {c}
    ensures forall d | d in r.pointers :: r.pointers[d] == s.pointers[d]
    ensures r.channels.Keys == s.channels.Keys
    ensures c in s.pointers && s.pointers[c] in s.channels ==> c !in r.channels[s.pointers[c]]
    ensures forall ch | ch in s.channels :: r.channels[ch] == s.channels[ch]
              || (c in s.pointers && ch == s.pointers[c] && r.channels[ch] == s.channels[ch] - {c})
    ensures c !in s.pointers ==> r == s
    ensures r.(pointers := s.pointers, channels := s.channels) == s
  {
    if c !in s.pointers then s
    else
      var ch := s.pointers[c];
      var s1 := s.(pointers := s.pointers - {c});
      if ch in s1.channels then s1.(channels := s1.channels[ch := s1.channels[ch] - {c}])
      else s1
  }

  /** `LeaveChannel(c, ch)`. A registered `c` must point at `ch`, or nothing
      happens; its pointer then becomes 0. Then, unless `ch` is 0, `c` is taken
      out of `ch`'s member set, and the answer is whether it was there. An
      unregistered `c` skips the pointer check. */
  function LeaveChannel(s: Chat, c: ConnectionId, ch: int): (r: (Chat, bool))
    ensures c in s.pointers && s.pointers[c] != ch ==> r == (s, false)
    ensures r.1 <==> (c !in s.pointers || s.pointers[c] == ch) && ch != 0
                     && ch in s.channels && c in s.channels[ch]
    ensures c in s.pointers && s.pointers[c] == ch ==> r.0.pointers == s.pointers[c := 0]
    ensures c !in s.pointers ==> r.0.pointers == s.pointers
    ensures r.0.channels.Keys == s.channels.Keys
    ensures forall d | d in r.0.channels :: r.0.channels[d] == s.channels[d]
              || (d == ch && d != 0 && r.0.channels[d] == s.channels[d] - {c})
    ensures r.0.(pointers := s.pointers, channels := s.channels) == s
  {
    if c in s.pointers && s.pointers[c] != ch then (s, false)
    else
      var s1 := if c in s.pointers then s.(pointers := s.pointers[c := 0]) else s;
      if ch != 0 && ch in s1.channels then
        (s1.(channels := s1.channels[ch := s1.channels[ch] - {c}]), c in s1.channels[ch])
      else (s1, false)
  }

  /** `JoinChannel(ch, c, max)`, in the source's order of steps:
      - a negative `ch` is refused;
      - joining the channel `c` already points at succeeds at once;
      - otherwise `c` first leaves the channel it points at, unless that
        is channel 0;
      - an unknown `ch` is created empty;
      - a channel with `max` or more members refuses `c`;
      - `c` is added to the member set (refused if already there), and a
        registered `c` now points at `ch`. */
  function JoinChannel(s: Chat, ch: Int32, c: ConnectionId, max: int): (r: (Chat, bool))
    ensures ch < 0 ==> r == (s, false)
    ensures ch >= 0 && c in s.pointers && s.pointers[c] == ch ==> r == (s, true)
    ensures s.channels.Keys <= r.0.channels.Keys <= s.channels.Keys + {ch}
    ensures r.1 && !(c in s.pointers && s.pointers[c] == ch) ==> ch in r.0.channels && c in r.0.channels[ch]
    ensures r.1 && c in s.pointers ==> c in r.0.pointers && r.0.pointers[c] == ch
    ensures r.0.pointers.Keys == s.pointers.Keys
    ensures r.0.(pointers := s.pointers, channels := s.channels) == s
  {
    if ch < 0 then (s, false)
    else if c in s.pointers && s.pointers[c] == ch then (s, true)
    else
      var leave := if c in s.pointers then s.pointers[c] else 0;
      var s1 := if leave != 0 then LeaveChannel(s, c, leave).0 else s;
      Enter(s1, ch, c, max)
  }

  /** The second half of `JoinChannel`, after the leave step: create `ch`
      if unknown, refuse a full channel or a repeated member, otherwise add
      `c` and point a registered `c` at `ch`. */
  function Enter(s: Chat, ch: int, c: ConnectionId, max: int): (r: (Chat, bool))
    ensures s.channels.Keys <= r.0.channels.Keys == s.channels.Keys + {ch}
    ensures r.1 <==> |Members(s, ch)| < max && c !in Members(s, ch)
    ensures r.0.channels[ch] == if r.1 then Members(s, ch) + {c} else Members(s, ch)
    ensures forall d | d in s.channels && d != ch :: r.0.channels[d] == s.channels[d]
    ensures r.0.pointers == if r.1 && c in s.pointers then s.pointers[c := ch] else s.pointers
    ensures r.0.(pointers := s.pointers, channels := s.channels) == s
  {
    var members := Members(s, ch);
    var s2 := s.(channels := s.channels[ch := members]);
    if |members| >= max || c in members then (s2, false)
    else
      var s3 := s2.(channels := s2.channels[ch := members + {c}]);
      if c in s3.pointers then (s3.(pointers := s3.pointers[c := ch]), true)
      else (s3, true)
  }

  /** The members of `ch`, none for an unknown channel. */
  function Members(s: Chat, ch: int): set<ConnectionId> {
    if ch in s.channels then s.channels[ch] else {}
  }

  // ---------------------------------------------------------------------
  // Queries and nicknames
  // ---------------------------------------------------------------------

  /** `GetChannel(int)`: the member set, or null for an unknown channel. */
  function GetChannel(s: Chat, ch: int): (r: Option<set<ConnectionId>>)
    ensures r.Some? <==> ch in s.channels
    ensures r.Some? ==> r.value == s.channels[ch]
  {
    if ch in s.channels then Some(s.channels[ch]) else None
  }

  /** `GetChannel(string)`: the members of the channel `c` points at, or null
      for an unregistered connection. */
  function GetChannelOf(s: Chat, c: ConnectionId): (r: Option<set<ConnectionId>>)
    ensures c !in s.pointers ==> r.None?
    ensures c in s.pointers ==> r == GetChannel(s, s.pointers[c])
  {
    if c in s.pointers then GetChannel(s, s.pointers[c]) else None
  }

  /** `RegisterNickname`: last write wins; null is a value like any other. */
  function RegisterNickname(s: Chat, uid: Int64, nick: Str): (r: Chat)
    ensures uid in r.nicknames && r.nicknames[uid] == nick
    ensures forall u | u != uid :: (u in r.nicknames <==> u in s.nicknames)
    ensures forall u | u != uid && u in s.nicknames :: r.nicknames[u] == s.nicknames[u]
    ensures r.(nicknames := s.nicknames) == s
  {
    s.(nicknames := s.nicknames[uid := nick])
  }

  /** `GetNickname`: the registered nickname, `"GUEST"` when there is none. */
  function GetNickname(s: Chat, uid: Int64): (r: Str)
    ensures uid !in s.nicknames ==> r == Some(Guest)
    ensures uid in s.nicknames ==> r == s.nicknames[uid]
  {
    if uid in s.nicknames then s.nicknames[uid] else Some(Guest)
  }

  /** `string.IsNullOrEmpty`. */
  predicate NullOrEmpty(s: Str) {
    s.None? || s.value == []
  }

  // ---------------------------------------------------------------------
  // Message logs
  // ---------------------------------------------------------------------

  /** The dequeue loop after an enqueue: drops the oldest entries until at
      most 100 are left. */
  function DropOldest(q: seq<MessageInfo>): (r: Log)
    ensures |r| == if |q| <= LogCapacity then |q| else LogCapacity
    ensures r == q[|q| - |r|..]
  {
    if |q| <= LogCapacity then q else DropOldest(q[1..])
  }

  /** The entries of `xs` whose id is above `k`, in log order (the LINQ
      `Where(w => w.ID > message_id)`). */
  function After(xs: seq<MessageInfo>, k: int): (r: seq<MessageInfo>)
    ensures |r| <= |xs|
    ensures forall x :: x in r <==> x in xs && x.id > k
  {
    if |xs| == 0 then []
    else if xs[0].id > k then [xs[0]] + After(xs[1..], k)
    else After(xs[1..], k)
  }

  /** A channel's log, empty when it has none yet. */
  function LogOf(s: Chat, ch: int): Log {
    if ch in s.logs then s.logs[ch] else []
  }

  /** What `AddMessage` hands back on success: the member snapshot and the
      new record. */
  datatype Posted = Posted(members: set<ConnectionId>, info: MessageInfo)

  /** `AddMessage(c, uid, message)`. The counter always advances, whether or
      not the message is posted. The message is posted when `c` is
      registered, the channel it points at exists and the sender's nickname
      is neither null nor empty. Posting appends the record to that
      channel's log, creating the log if needed, keeps the newest 100, and
      returns the channel's member set. */
  function AddMessage(s: Chat, c: ConnectionId, uid: Int64, msg: Str): (r: (Chat, Option<Posted>))
    ensures r.0.lastId == NextId(s.lastId)
    ensures r.1.Some? <==> (c in s.pointers && s.pointers[c] in s.channels
                           && !NullOrEmpty(GetNickname(s, uid)))
    ensures r.1.Some? ==> r.1.value.members == s.channels[s.pointers[c]]
    ensures r.1.Some? ==> r.1.value.info == MessageInfo(NextId(s.lastId), uid, GetNickname(s, uid), msg)
    ensures r.1.Some? ==>
              r.0.logs == s.logs[s.pointers[c] := DropOldest(LogOf(s, s.pointers[c]) + [r.1.value.info])]
    ensures r.1.None? ==> r.0.logs == s.logs
    ensures r.0.(lastId := s.lastId, logs := s.logs) == s
  {
    var id := NextId(s.lastId);
    var s1 := s.(lastId := id);
    if c in s.pointers && s.pointers[c] in s.channels && !NullOrEmpty(GetNickname(s, uid)) then
      var ch := s.pointers[c];
      var info := MessageInfo(id, uid, GetNickname(s, uid), msg);
      var log := if ch in s.logs then s.logs[ch] else [];
      (s1.(logs := s1.logs[ch := DropOldest(log + [info])]), Some(Posted(s.channels[ch], info)))
    else (s1, None)
  }

  /** `GetLastMessages(ch, k)`: null when the channel has no log; for a
      positive `k`, the entries after id `k`; otherwise the whole log. */
  function GetLastMessages(s: Chat, ch: int, k: Int32): (r: Option<Log>)
    ensures r.None? <==> ch !in s.logs
    ensures r.Some? && k <= 0 ==> r.value == s.logs[ch]
    ensures r.Some? && k > 0 ==> forall x :: x in r.value <==> x in s.logs[ch] && x.id > k
  {
    if ch !in s.logs then None
    else if k > 0 then Some(After(s.logs[ch], k))
    else Some(s.logs[ch])
  }
}
