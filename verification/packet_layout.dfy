/** The wire layout of the chat records, and what decoding a request the
    client encoded gives back. */
module PacketLayout {
  import opened Wrappers
  import opened LittleEndian
  import opened Schema
  import opened Values
  import opened BinConverter
  import opened CodecRoundTrip
  import opened CodecProperties
  import opened PacketDefine

  /** `SimpleChatMessageInfo` travels as AccountUID, ID, Message, Nickname. */
  lemma MessageInfoWireOrder()
    ensures WireOrder(MessageInfoType.props)
            == [ Property("AccountUID", KInt(Int64)), Property("ID", KInt(Int32)),
                 Property("Message", KString), Property("Nickname", KString) ]
  {
    MessageInfoSorted();
    WireOrderIs(MessageInfoType.props, MessageInfoOrder());
  }

  lemma JoinRequestWireOrder()
    ensures WireOrder(JoinRequestType.props) == JoinRequestType.props
  {
    var ps := JoinRequestType.props;
    assert NameLess("ChannelID", "LastMessageID");
    WireOrderIs(ps, ps);
  }

  /** `RTP_ResponseChatChannelJoin` travels as ChannelID, LastMessages, ResultCode. */
  lemma JoinResponseWireOrder()
    ensures WireOrder(JoinResponseType.props)
            == [ Property("ChannelID", KInt(Int32)),
                 Property("LastMessages", KList(KRecord(MessageInfoType))),
                 Property("ResultCode", ResultCodeKind) ]
  {
    var ps := JoinResponseType.props;
    var sorted := [ps[1], ps[2], ps[0]];
    assert NameLess("ChannelID", "LastMessages") && NameLess("LastMessages", "ResultCode");
    assert NameLess("ChannelID", "ResultCode");
    assert SortedByName(sorted);
    assert DistinctNames(ps);
    WireOrderIs(ps, sorted);
  }

  lemma ChatRequestWireOrder()
    ensures WireOrder(ChatRequestType.props) == ChatRequestType.props
  {
    var ps := ChatRequestType.props;
    assert NameLess("AccountUID", "Message");
    WireOrderIs(ps, ps);
  }

  // ---------------------------------------------------------------------
  // Byte layouts
  // ---------------------------------------------------------------------

  /** A string short enough to be written (its byte count fits an `int`). */
  predicate Fits(s: Str) {
    |s.GetOr([])| <= Int32Max
  }

  predicate MessageFits(mi: MessageInfo) {
    Fits(mi.nickname) && Fits(mi.message)
  }

  /** The body of a `SimpleChatMessageInfo` inside another record or list:
      AccountUID (8 bytes), ID (4 bytes), then Message and Nickname, each a
      4-byte byte count and the bytes. */
  function MessageInfoBody(mi: MessageInfo): (r: Bytes)
    requires MessageFits(mi)
    ensures |r| == 20 + |mi.message.GetOr([])| + |mi.nickname.GetOr([])|
  {
    IntBytes(Int64, mi.accountUid) + IntBytes(Int32, mi.id)
      + StringBytes(mi.message).value + StringBytes(mi.nickname).value
  }

  lemma MessageInfoLayout(mi: MessageInfo)
    requires MessageFits(mi)
    ensures BinMaker(MessageInfoType, Some(MessageInfoFields(mi)), true) == Success(MessageInfoBody(mi))
  {
    MessageInfoEncodings(mi);
    BinMakerSorted(MessageInfoType, MessageInfoFields(mi), true, MessageInfoOrder(), MessageInfoParts(mi));
    MessageInfoFlatten(mi);
  }

  lemma MessageInfoFlatten(mi: MessageInfo)
    requires MessageFits(mi)
    ensures Header(true) + Flatten(MessageInfoParts(mi)) == MessageInfoBody(mi)
  {
    Flatten4(MessageInfoParts(mi));
  }

  /** The properties of `SimpleChatMessageInfo` in name order. */
  function MessageInfoOrder(): seq<Property> {
    var ps := MessageInfoType.props;
    [ps[1], ps[0], ps[3], ps[2]]
  }

  /** The encodings of a message's properties, in name order. */
  function MessageInfoParts(mi: MessageInfo): (r: seq<Bytes>)
    requires MessageFits(mi)
    ensures |r| == 4
  {
    [ IntBytes(Int64, mi.accountUid), IntBytes(Int32, mi.id),
      StringBytes(mi.message).value, StringBytes(mi.nickname).value ]
  }

  lemma MessageInfoEncodings(mi: MessageInfo)
    requires MessageFits(mi)
    ensures SortedLayout(MessageInfoType, MessageInfoFields(mi), MessageInfoOrder(), MessageInfoParts(mi))
  {
    MessageInfoSorted();
    MessageInfoOrderNames(mi);
    MessageInfoEncodedParts(mi);
  }

  lemma MessageInfoOrderNames(mi: MessageInfo)
    ensures forall f | f in MessageInfoOrder() :: f in MessageInfoType.props && f.name in MessageInfoFields(mi)
  {
    MessageInfoNames();
  }

  lemma MessageInfoEncodedParts(mi: MessageInfo)
    requires MessageFits(mi)
    ensures forall i | 0 <= i < 4 ::
              EncodeValue(MessageInfoOrder()[i].kind, MessageInfoFields(mi)[MessageInfoOrder()[i].name])
              == Success(MessageInfoParts(mi)[i])
  {
    MessageInfoIntParts(mi);
    MessageInfoStringParts(mi);
  }

  lemma MessageInfoIntParts(mi: MessageInfo)
    requires MessageFits(mi)
    ensures forall i | 0 <= i < 2 ::
              EncodeValue(MessageInfoOrder()[i].kind, MessageInfoFields(mi)[MessageInfoOrder()[i].name])
              == Success(MessageInfoParts(mi)[i])
  {
    EncodeInt(Int64, mi.accountUid);
    EncodeInt(Int32, mi.id);
  }

  lemma MessageInfoStringParts(mi: MessageInfo)
    requires MessageFits(mi)
    ensures forall i | 2 <= i < 4 ::
              EncodeValue(MessageInfoOrder()[i].kind, MessageInfoFields(mi)[MessageInfoOrder()[i].name])
              == Success(MessageInfoParts(mi)[i])
  {
    EncodeString(mi.message);
    EncodeString(mi.nickname);
  }

  /** The properties of `SimpleChatMessageInfo` have distinct names, and
      AccountUID, ID, Message, Nickname is their name order. */
  lemma MessageInfoSorted()
    ensures DistinctNames(MessageInfoType.props)
    ensures SortedByName(MessageInfoOrder()) && multiset(MessageInfoOrder()) == multiset(MessageInfoType.props)
  {
    MessageInfoDistinct();
    MessageInfoOrderSorted();
  }

  lemma MessageInfoDistinct()
    ensures DistinctNames(MessageInfoType.props)
  {
  }

  lemma MessageInfoOrderSorted()
    ensures SortedByName(MessageInfoOrder())
  {
    assert NameLess("AccountUID", "ID") && NameLess("ID", "Message") && NameLess("Message", "Nickname");
    assert NameLess("AccountUID", "Message") && NameLess("AccountUID", "Nickname") && NameLess("ID", "Nickname");
  }

  // ---------------------------------------------------------------------
  // Requests
  // ---------------------------------------------------------------------

  lemma Int32Bytes(n: int)
    requires IsInt32(n)
    ensures IntBytes(Int32, n) == Int32LE(n)
  {
  }

  function JoinRequestParts(q: JoinRequest): seq<Bytes> {
    [IntBytes(Int32, q.channelId), IntBytes(Int32, q.lastMessageId)]
  }

  lemma JoinRequestEncodings(q: JoinRequest)
    ensures SortedLayout(JoinRequestType, JoinRequestFields(q), JoinRequestType.props, JoinRequestParts(q))
  {
    JoinRequestNames();
    JoinRequestSorted();
    JoinRequestEach(q);
  }

  lemma JoinRequestSorted()
    ensures DistinctNames(JoinRequestType.props) && SortedByName(JoinRequestType.props)
  {
    assert NameLess("ChannelID", "LastMessageID");
  }

  lemma JoinRequestEach(q: JoinRequest)
    ensures var ps := JoinRequestType.props; var m := JoinRequestFields(q);
            forall i | 0 <= i < 2 :: EncodeValue(ps[i].kind, m[ps[i].name]) == Success(JoinRequestParts(q)[i])
  {
    assert JoinRequestType.props == [Property("ChannelID", KInt(Int32)), Property("LastMessageID", KInt(Int32))];
    EncodeInt(Int32, q.channelId);
    EncodeInt(Int32, q.lastMessageId);
  }

  /** A join request is the tag, then ChannelID and LastMessageID as 4-byte
      little-endian integers. */
  lemma JoinRequestLayout(q: JoinRequest)
    ensures Encode(JoinRequestType, JoinRequestFields(q))
            == Success([8, 0] + Int32LE(q.channelId) + Int32LE(q.lastMessageId))
  {
    var parts := JoinRequestParts(q);
    JoinRequestEncodings(q);
    BinMakerSorted(JoinRequestType, JoinRequestFields(q), false, JoinRequestType.props, parts);
    Flatten2(parts);
    Int32Bytes(q.channelId);
    Int32Bytes(q.lastMessageId);
    TaggedPayload(JoinRequestType, JoinRequestFields(q), Int32LE(q.channelId), Int32LE(q.lastMessageId));
  }

  /** A top-level payload whose properties encode to `a + b`. */
  lemma TaggedPayload(rt: RecordType, m: map<string, Value>, a: Bytes, b: Bytes)
    requires WellTypedFields(rt, m)
    requires BinMaker(rt, Some(m), false) == Success(Header(false) + (a + b))
    ensures Encode(rt, m) == Success([8, 0] + a + b)
  {
    var x := a + b;
    assert Header(false) == [8, 0];
    Concat3([8, 0], a, b);
    assert Encode(rt, m) == Success([8, 0] + x);
  }

  lemma TaggedPayload3(rt: RecordType, m: map<string, Value>, a: Bytes, b: Bytes, c: Bytes)
    requires WellTypedFields(rt, m)
    requires BinMaker(rt, Some(m), false) == Success(Header(false) + (a + b + c))
    ensures Encode(rt, m) == Success([8, 0] + a + b + c)
  {
    assert Header(false) == [8, 0];
    Concat3([8, 0], a + b, c);
    Concat3([8, 0], a, b);
  }

  /** The server reads back exactly the join request the client wrote. */
  lemma JoinRequestRoundTrip(q: JoinRequest)
    ensures Encode(JoinRequestType, JoinRequestFields(q)).Success?
    ensures ParseJoinRequest(Encode(JoinRequestType, JoinRequestFields(q)).value) == Success(q)
  {
    var m := JoinRequestFields(q);
    JoinRequestLayout(q);
    DecodeEncode(JoinRequestType, m);
    JoinRequestNormal(q);
  }

  lemma JoinRequestNormal(q: JoinRequest)
    ensures Normalize(JoinRequestType, JoinRequestFields(q)) == JoinRequestFields(q)
  {
    JoinRequestNames();
    JoinRequestSorted();
    NormalizeIs(JoinRequestType, JoinRequestFields(q), JoinRequestFields(q));
  }

  function ChatRequestParts(q: ChatRequest): seq<Bytes>
    requires Fits(q.message)
  {
    [IntBytes(Int64, q.accountUid), StringBytes(q.message).value]
  }

  lemma ChatRequestEncodings(q: ChatRequest)
    requires Fits(q.message)
    ensures SortedLayout(ChatRequestType, ChatRequestFields(q), ChatRequestType.props, ChatRequestParts(q))
  {
    ChatRequestNames();
    ChatRequestSorted();
    ChatRequestEach(q);
  }

  lemma ChatRequestSorted()
    ensures DistinctNames(ChatRequestType.props) && SortedByName(ChatRequestType.props)
  {
    assert NameLess("AccountUID", "Message");
  }

  lemma ChatRequestEach(q: ChatRequest)
    requires Fits(q.message)
    ensures var ps := ChatRequestType.props; var m := ChatRequestFields(q);
            forall i | 0 <= i < 2 :: EncodeValue(ps[i].kind, m[ps[i].name]) == Success(ChatRequestParts(q)[i])
  {
    assert ChatRequestType.props == [Property("AccountUID", KInt(Int64)), Property("Message", KString)];
    EncodeInt(Int64, q.accountUid);
    EncodeString(q.message);
  }

  /** A chat request is the tag, AccountUID as 8 bytes, then Message as a
      4-byte byte count and its UTF-8 bytes. */
  lemma ChatRequestLayout(q: ChatRequest)
    requires Fits(q.message)
    ensures Encode(ChatRequestType, ChatRequestFields(q))
            == Success([8, 0] + IntBytes(Int64, q.accountUid) + StringBytes(q.message).value)
  {
    var parts := ChatRequestParts(q);
    ChatRequestEncodings(q);
    BinMakerSorted(ChatRequestType, ChatRequestFields(q), false, ChatRequestType.props, parts);
    Flatten2(parts);
    TaggedPayload(ChatRequestType, ChatRequestFields(q), parts[0], parts[1]);
  }

  /** The server reads back the chat request the client wrote, except that
      a null Message arrives as "". */
  lemma ChatRequestRoundTrip(q: ChatRequest)
    requires Fits(q.message)
    ensures Encode(ChatRequestType, ChatRequestFields(q)).Success?
    ensures ParseChatRequest(Encode(ChatRequestType, ChatRequestFields(q)).value)
            == Success(ChatRequest(q.accountUid, Some(q.message.GetOr([]))))
  {
    var m := ChatRequestFields(q);
    ChatRequestLayout(q);
    DecodeEncode(ChatRequestType, m);
    ChatRequestNormal(q);
  }

  lemma ChatRequestNormal(q: ChatRequest)
    ensures Normalize(ChatRequestType, ChatRequestFields(q))
            == ChatRequestFields(ChatRequest(q.accountUid, Some(q.message.GetOr([]))))
  {
    var m := ChatRequestFields(q);
    var m2 := ChatRequestFields(ChatRequest(q.accountUid, Some(q.message.GetOr([]))));
    ChatRequestNames();
    ChatRequestSorted();
    NormalizeIs(ChatRequestType, m, m2);
  }

  // ---------------------------------------------------------------------
  // Responses
  // ---------------------------------------------------------------------

  /** The bodies of a list's messages, in order. */
  function MessageBodyParts(xs: seq<MessageInfo>): (r: seq<Bytes>)
    requires forall x | x in xs :: MessageFits(x)
    ensures |r| == |xs|
    ensures forall i | 0 <= i < |xs| :: r[i] == MessageInfoBody(xs[i])
  {
    if |xs| == 0 then [] else [MessageInfoBody(xs[0])] + MessageBodyParts(xs[1..])
  }

  /** The LastMessages field: null is count 0; a list is its count and then
      each message's body, with no separator. */
  function MessageListBytes(last: Option<MessageList>): Bytes
    requires last.Some? ==> forall x | x in last.value :: MessageFits(x)
  {
    if last.None? then Int32LE(0)
    else Int32LE(|last.value|) + Flatten(MessageBodyParts(last.value))
  }

  lemma MessageElemsLayout(xs: MessageList)
    requires forall x | x in xs :: MessageFits(x)
    ensures forall v | v in MessageInfoValues(xs) :: WellTyped(KRecord(MessageInfoType), v)
    ensures EncodeElems(KRecord(MessageInfoType), MessageInfoValues(xs), true)
            == Success(Flatten(MessageBodyParts(xs)))
  {
    var vs := MessageInfoValues(xs);
    MessageBodiesEach(xs);
    RecordElemsParts(MessageInfoType, vs, MessageBodyParts(xs));
  }

  lemma MessageBodiesEach(xs: MessageList)
    requires forall x | x in xs :: MessageFits(x)
    ensures var vs := MessageInfoValues(xs);
            forall i | 0 <= i < |vs| :: WellTyped(KRecord(MessageInfoType), vs[i])
                                       && BinMaker(MessageInfoType, vs[i].fields, true) == Success(MessageBodyParts(xs)[i])
  {
    var vs := MessageInfoValues(xs);
    forall i | 0 <= i < |vs|
      ensures WellTyped(KRecord(MessageInfoType), vs[i])
      ensures BinMaker(MessageInfoType, vs[i].fields, true) == Success(MessageBodyParts(xs)[i])
    {
      assert xs[i] in xs;
      MessageBodyOne(xs[i]);
    }
  }

  lemma MessageBodyOne(mi: MessageInfo)
    requires MessageFits(mi)
    ensures WellTyped(KRecord(MessageInfoType), VRecord(Some(MessageInfoFields(mi))))
    ensures BinMaker(MessageInfoType, Some(MessageInfoFields(mi)), true) == Success(MessageInfoBody(mi))
  {
    MessageInfoLayout(mi);
  }

  lemma MessageListLayout(last: Option<MessageList>)
    requires last.Some? ==> forall x | x in last.value :: MessageFits(x)
    ensures EncodeValue(KList(KRecord(MessageInfoType)), MessageListValue(last))
            == Success(MessageListBytes(last))
  {
    var items := MessageListValue(last).items;
    if last.Some? {
      MessageElemsLayout(last.value);
      RecordListLayout(MessageInfoType, items, Flatten(MessageBodyParts(last.value)));
    } else {
      RecordListLayout(MessageInfoType, items, []);
    }
  }

  function JoinResponseOrder(): seq<Property> {
    var ps := JoinResponseType.props;
    [ps[1], ps[2], ps[0]]
  }

  function JoinResponseParts(code: ResultCode, ch: Int32, last: Option<MessageList>): seq<Bytes>
    requires last.Some? ==> forall x | x in last.value :: MessageFits(x)
  {
    [Int32LE(ch), MessageListBytes(last), Int32LE(CodeValue(code))]
  }

  lemma JoinResponseSorted()
    ensures DistinctNames(JoinResponseType.props)
    ensures SortedByName(JoinResponseOrder()) && multiset(JoinResponseOrder()) == multiset(JoinResponseType.props)
  {
    assert NameLess("ChannelID", "LastMessages") && NameLess("LastMessages", "ResultCode");
    assert NameLess("ChannelID", "ResultCode");
  }

  lemma JoinResponseEncodings(code: ResultCode, ch: Int32, last: Option<MessageList>)
    requires last.Some? ==> forall x | x in last.value :: MessageFits(x)
    ensures SortedLayout(JoinResponseType, JoinResponseFields(code, ch, last), JoinResponseOrder(),
                         JoinResponseParts(code, ch, last))
  {
    JoinResponseSorted();
    JoinResponseNames();
    JoinResponseEach(code, ch, last);
  }

  lemma JoinResponseEach(code: ResultCode, ch: Int32, last: Option<MessageList>)
    requires last.Some? ==> forall x | x in last.value :: MessageFits(x)
    ensures var fs := JoinResponseOrder(); var m := JoinResponseFields(code, ch, last);
            forall i | 0 <= i < 3 :: EncodeValue(fs[i].kind, m[fs[i].name]) == Success(JoinResponseParts(code, ch, last)[i])
  {
    JoinResponseOrderIs();
    Int32Field(ch);
    MessageListLayout(last);
    CodeField(code);
  }

  lemma JoinResponseOrderIs()
    ensures JoinResponseOrder() == [Property("ChannelID", KInt(Int32)),
                                    Property("LastMessages", KList(KRecord(MessageInfoType))),
                                    Property("ResultCode", ResultCodeKind)]
  {
  }

  lemma Int32Field(n: Int32)
    ensures EncodeValue(KInt(Int32), VInt(n)) == Success(Int32LE(n))
  {
    Int32Bytes(n);
  }

  lemma CodeField(code: ResultCode)
    ensures EncodeValue(ResultCodeKind, VInt(CodeValue(code))) == Success(Int32LE(CodeValue(code)))
  {
    Int32Bytes(CodeValue(code));
  }

  /** A join reply is the tag, ChannelID, LastMessages (count, then the
      records inline), then ResultCode as a 4-byte integer. */
  lemma JoinResponseLayout(code: ResultCode, ch: Int32, last: Option<MessageList>)
    requires last.Some? ==> forall x | x in last.value :: MessageFits(x)
    ensures ResponseBytes(JoinResponse(code, ch, last))
            == Success([8, 0] + Int32LE(ch) + MessageListBytes(last) + Int32LE(CodeValue(code)))
  {
    var m := JoinResponseFields(code, ch, last);
    JoinResponseBody(code, ch, last);
    TaggedPayload3(JoinResponseType, m, Int32LE(ch), MessageListBytes(last), Int32LE(CodeValue(code)));
  }

  lemma JoinResponseBody(code: ResultCode, ch: Int32, last: Option<MessageList>)
    requires last.Some? ==> forall x | x in last.value :: MessageFits(x)
    ensures BinMaker(JoinResponseType, Some(JoinResponseFields(code, ch, last)), false)
            == Success(Header(false) + (Int32LE(ch) + MessageListBytes(last) + Int32LE(CodeValue(code))))
  {
    JoinResponseEncodings(code, ch, last);
    BinMakerSorted3(JoinResponseType, JoinResponseFields(code, ch, last), false, JoinResponseOrder(),
                    Int32LE(ch), MessageListBytes(last), Int32LE(CodeValue(code)));
  }

  /** The reply to a failed join: tag 8, ChannelID 0, a null list, OK_Full. */
  lemma FailedJoinReply()
    ensures ResponseBytes(JoinResponse(OK_Full, 0, None))
            == Success([8, 0, 0, 0, 0, 0, 0, 0, 0, 0, 2, 0, 0, 0])
  {
    JoinResponseLayout(OK_Full, 0, None);
    assert CodeValue(OK_Full) == 2;
    FailedJoinBytes();
  }

  lemma FailedJoinBytes()
    ensures [8, 0] + Int32LE(0) + MessageListBytes(None) + Int32LE(2)
            == [8, 0, 0, 0, 0, 0, 0, 0, 0, 0, 2, 0, 0, 0]
  {
    SmallInt32LE(0);
    SmallInt32LE(2);
    var zero: Bytes := [0, 0, 0, 0];
    assert MessageListBytes(None) == zero;
    var a: Bytes := [8, 0] + zero;
    assert a == [8, 0, 0, 0, 0, 0];
    var b: Bytes := a + zero;
    assert b == [8, 0, 0, 0, 0, 0, 0, 0, 0, 0];
    assert b + [2, 0, 0, 0] == [8, 0, 0, 0, 0, 0, 0, 0, 0, 0, 2, 0, 0, 0];
  }

  function ChatResponseParts(mi: MessageInfo): seq<Bytes>
    requires MessageFits(mi) && |MessageInfoBody(mi)| <= Int32Max
  {
    [Int32LE(|MessageInfoBody(mi)|) + MessageInfoBody(mi)]
  }

  lemma ChatResponseEncodings(mi: MessageInfo)
    requires MessageFits(mi) && |MessageInfoBody(mi)| <= Int32Max
    ensures SortedLayout(ChatResponseType, ChatResponseFields(mi), ChatResponseType.props, ChatResponseParts(mi))
  {
    ChatResponseNames();
    ChatResponseSorted();
    ChatResponseEach(mi);
  }

  lemma ChatResponseSorted()
    ensures DistinctNames(ChatResponseType.props) && SortedByName(ChatResponseType.props)
  {
  }

  lemma ChatResponseEach(mi: MessageInfo)
    requires MessageFits(mi) && |MessageInfoBody(mi)| <= Int32Max
    ensures var p := ChatResponseType.props[0];
            EncodeValue(p.kind, ChatResponseFields(mi)[p.name]) == Success(ChatResponseParts(mi)[0])
  {
    MessageInfoLayout(mi);
    assert ChatResponseType.props[0] == Property("Message", KRecord(MessageInfoType));
    assert ChatResponseFields(mi)["Message"] == VRecord(Some(MessageInfoFields(mi)));
    RecordFieldLayout(MessageInfoType, MessageInfoFields(mi), MessageInfoBody(mi));
  }

  /** A chat reply has one property, the message record, written as its
      body's byte length and then the body. */
  lemma ChatResponseLayout(mi: MessageInfo)
    requires MessageFits(mi) && |MessageInfoBody(mi)| <= Int32Max
    ensures ResponseBytes(ChatResponse(mi))
            == Success([8, 0] + Int32LE(|MessageInfoBody(mi)|) + MessageInfoBody(mi))
  {
    var body := MessageInfoBody(mi);
    var m := ChatResponseFields(mi);
    ChatResponseEncodings(mi);
    BinMakerSorted(ChatResponseType, m, false, ChatResponseType.props, ChatResponseParts(mi));
    TaggedPayload(ChatResponseType, m, Int32LE(|body|), body);
  }
}
