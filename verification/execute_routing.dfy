/** The executer on encoded packets: a request a client encodes reaches the
    handler of its type, and no packet breaks the channel invariant. */
module ExecuteRouting {
  import opened Wrappers
  import opened LittleEndian
  import opened Schema
  import opened Values
  import opened BinConverter
  import opened PacketDefine
  import opened PacketLayout
  import opened ChannelManager
  import opened ChannelProperties
  import opened PacketExecuter
  import opened ExecuterProperties
  /** The executer runs the join handler on exactly the request a client
      encoded. */
  lemma ExecuteJoinBytes(s: Chat, c: ConnectionId, q: JoinRequest)
    ensures Encode(JoinRequestType, JoinRequestFields(q)).Success?
    ensures Execute(s, c, JoinRequestType, Encode(JoinRequestType, JoinRequestFields(q)).value)
            == HandleJoin(s, c, q)
  {
    JoinRequestRoundTrip(q);
  }

  /** The executer runs the chat handler on the request a client encoded,
      with a null message read back as the empty string. */
  lemma ExecuteChatBytes(s: Chat, c: ConnectionId, q: ChatRequest)
    requires Fits(q.message)
    ensures Encode(ChatRequestType, ChatRequestFields(q)).Success?
    ensures Execute(s, c, ChatRequestType, Encode(ChatRequestType, ChatRequestFields(q)).value)
            == HandleChat(s, c, ChatRequest(q.accountUid, Some(q.message.GetOr([]))))
  {
    ChatRequestRoundTrip(q);
  }

  /** Whatever arrives, the invariant survives while the counter has room. */
  lemma ExecuteValid(s: Chat, c: ConnectionId, rt: RecordType, bs: seq<Byte>)
    requires Valid(s) && s.lastId < Int32Max
    ensures Valid(Execute(s, c, rt, bs).0)
  {
    if HasHandler(rt) && Decode(rt, bs).Success? {
      var m := Decode(rt, bs).value;
      if rt == JoinRequestType {
        HandleJoinValid(s, c, JoinRequestOf(m));
      } else if rt == ChatRequestType {
        HandleChatValid(s, c, ChatRequestOf(m));
      }
    }
  }
}
