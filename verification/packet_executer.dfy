/** `RTPacketExecuter`: decodes an incoming packet, routes it to the handler
    named like its record type, and runs that handler against the channel
    manager. Each function returns the new state and the responses to send. */
module PacketExecuter {
  import opened Wrappers
  import opened LittleEndian
  import opened Schema
  import opened Values
  import opened BinConverter
  import opened PacketDefine
  import opened ChannelManager

  /** One `Context.Send`: a response and the connections it goes to. */
  datatype Send = Send(to: set<ConnectionId>, response: Response)

  /** The reply to a join that found no channel. */
  function FullReply(c: ConnectionId): Send {
    Send({c}, JoinResponse(OK_Full, 0, None))
  }

  /** A log as the `List<SimpleChatMessageInfo>` the response carries. */
  function AsList(l: Option<Log>): (r: Option<MessageList>)
    ensures r.Some? <==> l.Some?
    ensures r.Some? ==> r.value == l.value
  {
    match l
    case None => None
    case Some(xs) => Some(xs)
  }

  // ---------------------------------------------------------------------
  // Join
  // ---------------------------------------------------------------------

  /** The channel-0 loop: tries `JoinChannel(-i, c, 30)` for i = `i`..999
      and stops at the first success, answering its `i`, or 0 if none. */
  function AutoJoin(s: Chat, c: ConnectionId, i: int): (r: (Chat, int))
    requires 1 <= i <= PoolSize + 1
    ensures r.1 == 0 || i <= r.1 <= PoolSize
    decreases PoolSize + 1 - i
  {
    if i > PoolSize then (s, 0)
    else
      var step := JoinChannel(s, -i, c, DefaultCapacity);
      if step.1 then (step.0, i) else AutoJoin(step.0, c, i + 1)
  }

  /** The channel a join request ends in, as the client numbers it (0 for
      none), and the state after the attempt. A requested id is negated
      before it reaches `JoinChannel`. */
  function TryJoin(s: Chat, c: ConnectionId, q: JoinRequest): (r: (Chat, Int32))
    ensures q.channelId != 0 && r.1 != 0 ==> r.1 == q.channelId
  {
    if q.channelId == 0 then
      var a := AutoJoin(s, c, 1);
      (a.0, a.1)
    else
      var j := JoinChannel(s, Neg32(q.channelId), c, DefaultCapacity);
      (j.0, if j.1 then q.channelId else 0)
  }

  /** `RTP_RequestChatChannelJoin`: one reply to the sender, `OK_Full` with
      channel 0 and no messages when no channel was joined, otherwise `OK`
      with the channel and its messages after `LastMessageID`. */
  function HandleJoin(s: Chat, c: ConnectionId, q: JoinRequest): (r: (Chat, seq<Send>))
    ensures |r.1| == 1 && r.1[0].to == {c} && r.1[0].response.JoinResponse?
    ensures r.1[0].response.resultCode == OK <==> r.1[0].response.channelId != 0
    ensures r.1[0].response.resultCode != OK ==> r.1[0] == FullReply(c)
    ensures r.0 == TryJoin(s, c, q).0
  {
    var t := TryJoin(s, c, q);
    var joined := t.1;
    if joined == 0 then (t.0, [FullReply(c)])
    else
      var last := GetLastMessages(t.0, Neg32(joined), q.lastMessageId);
      (t.0, [Send({c}, JoinResponse(OK, joined, AsList(last)))])
  }

  // ---------------------------------------------------------------------
  // Chat
  // ---------------------------------------------------------------------

  /** `RTP_RequestChatMessage`: dropped when the sender's nickname is null
      or empty; otherwise the message is posted and, if that succeeds, sent
      to the member snapshot `AddMessage` returned. */
  function HandleChat(s: Chat, c: ConnectionId, q: ChatRequest): (r: (Chat, seq<Send>))
    ensures NullOrEmpty(GetNickname(s, q.accountUid)) ==> r == (s, [])
    ensures !NullOrEmpty(GetNickname(s, q.accountUid)) ==> r.0 == AddMessage(s, c, q.accountUid, q.message).0
    ensures r.1 != [] <==> AddMessage(s, c, q.accountUid, q.message).1.Some?
    ensures var p := AddMessage(s, c, q.accountUid, q.message).1;
            r.1 != [] ==> r.1 == [Send(p.value.members, ChatResponse(p.value.info))]
  {
    if NullOrEmpty(GetNickname(s, q.accountUid)) then (s, [])
    else
      var a := AddMessage(s, c, q.accountUid, q.message);
      if a.1.Some? then (a.0, [Send(a.1.value.members, ChatResponse(a.1.value.info))])
      else (a.0, [])
  }

  // ---------------------------------------------------------------------
  // Routing
  // ---------------------------------------------------------------------

  /** Whether the executer has a method named like the record type. */
  predicate HasHandler(rt: RecordType) {
    rt.name == JoinRequestType.name || rt.name == ChatRequestType.name
  }

  /** `Execute(c, type, bytes)`. A type with no handler of its name is
      ignored before decoding. A decoding error is caught and the packet
      dropped; so is a decoded record of a type other than the handler's
      parameter, whose invocation throws. */
  function Execute(s: Chat, c: ConnectionId, rt: RecordType, bs: seq<Byte>): (r: (Chat, seq<Send>))
    ensures !HasHandler(rt) ==> r == (s, [])
    ensures Decode(rt, bs).Failure? ==> r == (s, [])
    ensures rt != JoinRequestType && rt != ChatRequestType ==> r == (s, [])
  {
    if !HasHandler(rt) then (s, [])
    else
      match Decode(rt, bs)
      case Failure(_) => (s, [])
      case Success(m) =>
        if rt == JoinRequestType then HandleJoin(s, c, JoinRequestOf(m))
        else if rt == ChatRequestType then HandleChat(s, c, ChatRequestOf(m))
        else (s, [])
  }
}
