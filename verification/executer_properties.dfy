/** What the packet executer does with each request, given how
    `JoinChannel` treats negative channel ids. */
module ExecuterProperties {
  import opened Wrappers
  import opened Values
  import opened PacketDefine
  import opened ChannelManager
  import opened ChannelProperties
  import opened PacketExecuter

  // ---------------------------------------------------------------------
  // Joins
  // ---------------------------------------------------------------------

  /** The channel-0 loop asks for channels -1..-999, which `JoinChannel`
      always refuses: it joins nothing and changes nothing. */
  lemma {:induction false} AutoJoinNeverJoins(s: Chat, c: ConnectionId, i: int)
    requires 1 <= i <= PoolSize + 1
    ensures AutoJoin(s, c, i) == (s, 0)
    decreases PoolSize + 1 - i
  {
    if i <= PoolSize {
      assert JoinChannel(s, -i, c, DefaultCapacity) == (s, false);
      AutoJoinNeverJoins(s, c, i + 1);
    }
  }

  /** A join request for channel 0, or for any positive channel, and one for
      `int.MinValue`, is answered `OK_Full` and changes nothing. */
  lemma JoinNonNegativeRefused(s: Chat, c: ConnectionId, q: JoinRequest)
    requires q.channelId >= 0 || q.channelId == Int32Min
    ensures HandleJoin(s, c, q) == (s, [FullReply(c)])
  {
    if q.channelId == 0 {
      AutoJoinNeverJoins(s, c, 1);
    } else {
      Neg32Wraps(q.channelId);
      assert JoinChannel(s, Neg32(q.channelId), c, DefaultCapacity) == (s, false);
    }
  }

  /** A join is answered `OK` exactly when the request names a negative
      channel other than `int.MinValue` and joining its negation succeeds. */
  lemma JoinOkIff(s: Chat, c: ConnectionId, q: JoinRequest)
    ensures HandleJoin(s, c, q).1[0].response.resultCode == OK
            <==> q.channelId < 0 && q.channelId != Int32Min
                 && JoinChannel(s, -q.channelId, c, DefaultCapacity).1
  {
    if q.channelId >= 0 || q.channelId == Int32Min {
      JoinNonNegativeRefused(s, c, q);
    }
  }

  /** A successful join answers with the channel as the client named it and
      the log of its negation, from after `LastMessageID`. */
  lemma JoinOkReply(s: Chat, c: ConnectionId, q: JoinRequest)
    requires q.channelId < 0 && q.channelId != Int32Min
    requires JoinChannel(s, -q.channelId, c, DefaultCapacity).1
    ensures var s1 := JoinChannel(s, -q.channelId, c, DefaultCapacity).0;
            HandleJoin(s, c, q)
            == (s1, [Send({c}, JoinResponse(OK, q.channelId,
                                            AsList(GetLastMessages(s1, -q.channelId, q.lastMessageId))))])
  {
  }

  lemma HandleJoinValid(s: Chat, c: ConnectionId, q: JoinRequest)
    requires Valid(s)
    ensures Valid(HandleJoin(s, c, q).0)
  {
    if q.channelId == 0 {
      AutoJoinNeverJoins(s, c, 1);
    } else {
      JoinChannelValid(s, Neg32(q.channelId), c, DefaultCapacity);
    }
  }

  // ---------------------------------------------------------------------
  // Chat messages
  // ---------------------------------------------------------------------

  /** A message is dropped without using an id when the nickname is null or
      empty; otherwise an id is used whether or not it is posted. */
  lemma ChatUsesId(s: Chat, c: ConnectionId, q: ChatRequest)
    ensures HandleChat(s, c, q).0.lastId
            == if NullOrEmpty(GetNickname(s, q.accountUid)) then s.lastId else NextId(s.lastId)
  {
  }

  lemma HandleChatValid(s: Chat, c: ConnectionId, q: ChatRequest)
    requires Valid(s) && s.lastId < Int32Max
    ensures Valid(HandleChat(s, c, q).0)
  {
    if !NullOrEmpty(GetNickname(s, q.accountUid)) {
      AddMessageValid(s, c, q.accountUid, q.message);
    }
  }

  /** A message from a registered sender with a nickname goes to every
      member of the sender's channel, carrying the nickname, the text and
      the next id. */
  lemma ChatBroadcast(s: Chat, a: ConnectionId, q: ChatRequest)
    requires a in s.pointers && s.pointers[a] in s.channels
    requires !NullOrEmpty(GetNickname(s, q.accountUid))
    ensures HandleChat(s, a, q).1
            == [Send(s.channels[s.pointers[a]],
                     ChatResponse(MessageInfo(NextId(s.lastId), q.accountUid, GetNickname(s, q.accountUid), q.message)))]
  {
  }

  /** In a valid state, two connections pointing at the same nonzero
      channel both receive a message one of them sends. */
  lemma ChatReachesChannel(s: Chat, a: ConnectionId, b: ConnectionId, q: ChatRequest)
    requires Valid(s)
    requires a in s.pointers && b in s.pointers
    requires s.pointers[a] == s.pointers[b] != 0
    requires !NullOrEmpty(GetNickname(s, q.accountUid))
    ensures |HandleChat(s, a, q).1| == 1
    ensures a in HandleChat(s, a, q).1[0].to && b in HandleChat(s, a, q).1[0].to
  {
  }
}
