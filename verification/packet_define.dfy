/** The chat protocol's wire records (`PacketDefine.cs`): their schemas as
    the codec sees them, the typed records the chat server works with, and
    the conversions between the two. */
module PacketDefine {
  import opened Wrappers
  import opened LittleEndian
  import opened Schema
  import opened Values
  import opened BinConverter

  /** C# `int` and `long`. */
  type Int32 = n: int | -0x8000_0000 <= n < 0x8000_0000
  type Int64 = n: int | -0x8000_0000_0000_0000 <= n < 0x8000_0000_0000_0000

  /** A C# `string` reference as the codec carries it: its UTF-8 bytes, or null. */
  type Str = Option<seq<Byte>>

  /** `ResultCode`, an `int`-backed enum. */
  datatype ResultCode = Error | OK | OK_Full

  function CodeValue(c: ResultCode): (n: Int32)
    ensures 0 <= n <= 2
    ensures c == Error <==> n == 0
    ensures c == OK <==> n == 1
    ensures c == OK_Full <==> n == 2
  {
    match c
    case Error => 0
    case OK => 1
    case OK_Full => 2
  }

  /** An `int`-backed enum travels as a 4-byte integer. */
  const ResultCodeKind: Kind := KEnum(Supported(Int32))

  // ---------------------------------------------------------------------
  // Schemas, properties in declaration order
  // ---------------------------------------------------------------------

  const MessageInfoType: RecordType :=
    RecordType("SimpleChatMessageInfo", true,
      [ Property("ID", KInt(Int32)),
        Property("AccountUID", KInt(Int64)),
        Property("Nickname", KString),
        Property("Message", KString) ])

  /** Requests and responses are `BinConvertable` through their abstract
      base classes. */
  const JoinRequestType: RecordType :=
    RecordType("RTP_RequestChatChannelJoin", true,
      [ Property("ChannelID", KInt(Int32)),
        Property("LastMessageID", KInt(Int32)) ])

  const JoinResponseType: RecordType :=
    RecordType("RTP_ResponseChatChannelJoin", true,
      [ Property("ResultCode", ResultCodeKind),
        Property("ChannelID", KInt(Int32)),
        Property("LastMessages", KList(KRecord(MessageInfoType))) ])

  const ChatRequestType: RecordType :=
    RecordType("RTP_RequestChatMessage", true,
      [ Property("AccountUID", KInt(Int64)),
        Property("Message", KString) ])

  const ChatResponseType: RecordType :=
    RecordType("RTP_ResponseChatMessage", true,
      [ Property("Message", KRecord(MessageInfoType)) ])

  // ---------------------------------------------------------------------
  // Typed records
  // ---------------------------------------------------------------------

  datatype MessageInfo = MessageInfo(id: Int32, accountUid: Int64, nickname: Str, message: Str)

  /** `LastMessageID` 0 asks for the recent log; otherwise for what follows that id. */
  datatype JoinRequest = JoinRequest(channelId: Int32, lastMessageId: Int32)

  datatype ChatRequest = ChatRequest(accountUid: Int64, message: Str)

  /** A `List<SimpleChatMessageInfo>`: never more than `int.MaxValue` entries. */
  type MessageList = xs: seq<MessageInfo> | |xs| <= 0x7FFF_FFFF

  /** `ChannelID` is 0 when the join failed; `LastMessages` may be null. */
  datatype Response =
    | JoinResponse(resultCode: ResultCode, channelId: Int32, lastMessages: Option<MessageList>)
    | ChatResponse(message: MessageInfo)

  // ---------------------------------------------------------------------
  // Typed record <-> property map
  // ---------------------------------------------------------------------

  lemma MessageInfoNames()
    ensures Names(MessageInfoType.props) == {"ID", "AccountUID", "Nickname", "Message"}
  {
    var ps := MessageInfoType.props;
    assert ps[0].name == "ID" && ps[1].name == "AccountUID";
    assert ps[2].name == "Nickname" && ps[3].name == "Message";
  }

  lemma JoinRequestNames()
    ensures Names(JoinRequestType.props) == {"ChannelID", "LastMessageID"}
  {
    var ps := JoinRequestType.props;
    assert ps[0].name == "ChannelID" && ps[1].name == "LastMessageID";
  }

  lemma JoinResponseNames()
    ensures Names(JoinResponseType.props) == {"ResultCode", "ChannelID", "LastMessages"}
  {
    var ps := JoinResponseType.props;
    assert ps[0].name == "ResultCode" && ps[1].name == "ChannelID" && ps[2].name == "LastMessages";
  }

  lemma ChatRequestNames()
    ensures Names(ChatRequestType.props) == {"AccountUID", "Message"}
  {
    var ps := ChatRequestType.props;
    assert ps[0].name == "AccountUID" && ps[1].name == "Message";
  }

  lemma ChatResponseNames()
    ensures Names(ChatResponseType.props) == {"Message"}
  {
    assert ChatResponseType.props[0].name == "Message";
  }

  /** The property values of a `SimpleChatMessageInfo` object. */
  function MessageInfoFields(mi: MessageInfo): (m: map<string, Value>)
    ensures WellTypedFields(MessageInfoType, m)
    ensures MessageInfoOf(m) == mi
  {
    var m := map["ID" := VInt(mi.id), "AccountUID" := VInt(mi.accountUid),
                 "Nickname" := VString(mi.nickname), "Message" := VString(mi.message)];
    MessageInfoTyped(mi, m);
    m
  }

  lemma MessageInfoTyped(mi: MessageInfo, m: map<string, Value>)
    requires m == map["ID" := VInt(mi.id), "AccountUID" := VInt(mi.accountUid),
                      "Nickname" := VString(mi.nickname), "Message" := VString(mi.message)]
    ensures WellTypedFields(MessageInfoType, m)
  {
    MessageInfoNames();
    var ps := MessageInfoType.props;
    assert WellTyped(ps[0].kind, m[ps[0].name]) && WellTyped(ps[1].kind, m[ps[1].name]);
    assert WellTyped(ps[2].kind, m[ps[2].name]) && WellTyped(ps[3].kind, m[ps[3].name]);
  }

  function MessageInfoOf(m: map<string, Value>): MessageInfo
    requires WellTypedFields(MessageInfoType, m)
  {
    MessageInfoNames();
    var ps := MessageInfoType.props;
    assert WellTyped(ps[0].kind, m[ps[0].name]) && WellTyped(ps[1].kind, m[ps[1].name]);
    assert WellTyped(ps[2].kind, m[ps[2].name]) && WellTyped(ps[3].kind, m[ps[3].name]);
    MessageInfo(m["ID"].n, m["AccountUID"].n, m["Nickname"].s, m["Message"].s)
  }

  /** A record element of a decoded list is never null; `MessageInfoOf`
      reads it back. */
  function MessageInfoValues(xs: seq<MessageInfo>): (r: seq<Value>)
    ensures |r| == |xs|
    ensures forall i | 0 <= i < |r| :: r[i] == VRecord(Some(MessageInfoFields(xs[i])))
  {
    if |xs| == 0 then [] else [VRecord(Some(MessageInfoFields(xs[0])))] + MessageInfoValues(xs[1..])
  }

  function JoinRequestFields(q: JoinRequest): (m: map<string, Value>)
    ensures WellTypedFields(JoinRequestType, m)
    ensures JoinRequestOf(m) == q
  {
    JoinRequestNames();
    map["ChannelID" := VInt(q.channelId), "LastMessageID" := VInt(q.lastMessageId)]
  }

  function JoinRequestOf(m: map<string, Value>): JoinRequest
    requires WellTypedFields(JoinRequestType, m)
  {
    JoinRequestNames();
    var ps := JoinRequestType.props;
    assert WellTyped(ps[0].kind, m[ps[0].name]) && WellTyped(ps[1].kind, m[ps[1].name]);
    JoinRequest(m["ChannelID"].n, m["LastMessageID"].n)
  }

  function ChatRequestFields(q: ChatRequest): (m: map<string, Value>)
    ensures WellTypedFields(ChatRequestType, m)
    ensures ChatRequestOf(m) == q
  {
    ChatRequestNames();
    map["AccountUID" := VInt(q.accountUid), "Message" := VString(q.message)]
  }

  function ChatRequestOf(m: map<string, Value>): ChatRequest
    requires WellTypedFields(ChatRequestType, m)
  {
    ChatRequestNames();
    var ps := ChatRequestType.props;
    assert WellTyped(ps[0].kind, m[ps[0].name]) && WellTyped(ps[1].kind, m[ps[1].name]);
    ChatRequest(m["AccountUID"].n, m["Message"].s)
  }

  /** The schema of a response. */
  function ResponseType(r: Response): RecordType {
    if r.JoinResponse? then JoinResponseType else ChatResponseType
  }

  /** The property values of a response object. */
  function ResponseFields(r: Response): (m: map<string, Value>)
    ensures WellTypedFields(ResponseType(r), m)
  {
    match r
    case JoinResponse(code, ch, last) => JoinResponseFields(code, ch, last)
    case ChatResponse(mi) => ChatResponseFields(mi)
  }

  function JoinResponseFields(code: ResultCode, ch: Int32, last: Option<MessageList>): (m: map<string, Value>)
    ensures WellTypedFields(JoinResponseType, m)
    ensures m["ResultCode"] == VInt(CodeValue(code)) && m["ChannelID"] == VInt(ch)
    ensures m["LastMessages"] == MessageListValue(last)
  {
    var items := if last.None? then None else Some(MessageInfoValues(last.value));
    var m := map["ResultCode" := VInt(CodeValue(code)), "ChannelID" := VInt(ch), "LastMessages" := VList(items)];
    JoinResponseTyped(code, ch, last, m);
    m
  }

  lemma JoinResponseTyped(code: ResultCode, ch: Int32, last: Option<MessageList>, m: map<string, Value>)
    requires m == map["ResultCode" := VInt(CodeValue(code)), "ChannelID" := VInt(ch),
                      "LastMessages" := VList(if last.None? then None else Some(MessageInfoValues(last.value)))]
    ensures WellTypedFields(JoinResponseType, m)
  {
    JoinResponseNames();
    var ps := JoinResponseType.props;
    assert WellTyped(ps[0].kind, m[ps[0].name]);
    assert WellTyped(ps[1].kind, m[ps[1].name]);
    if last.Some? {
      MessageListTyped(last.value);
    }
    assert WellTyped(ps[2].kind, m[ps[2].name]);
  }

  /** The value a `LastMessages` property holds: null, or the records. */
  function MessageListValue(last: Option<MessageList>): (v: Value)
    ensures WellTyped(KList(KRecord(MessageInfoType)), v)
    ensures v == VList(if last.None? then None else Some(MessageInfoValues(last.value)))
  {
    if last.Some? then MessageListTyped(last.value); VList(Some(MessageInfoValues(last.value)))
    else VList(None)
  }

  lemma MessageListTyped(xs: MessageList)
    ensures WellTyped(KList(KRecord(MessageInfoType)), VList(Some(MessageInfoValues(xs))))
  {
    var vs := MessageInfoValues(xs);
    forall x | x in vs
      ensures WellTyped(KRecord(MessageInfoType), x)
    {
      var i :| 0 <= i < |vs| && vs[i] == x;
      assert x == VRecord(Some(MessageInfoFields(xs[i])));
    }
  }

  function ChatResponseFields(mi: MessageInfo): (m: map<string, Value>)
    ensures WellTypedFields(ChatResponseType, m)
    ensures m["Message"] == VRecord(Some(MessageInfoFields(mi)))
  {
    var m := map["Message" := VRecord(Some(MessageInfoFields(mi)))];
    ChatResponseTyped(mi, m);
    m
  }

  lemma ChatResponseTyped(mi: MessageInfo, m: map<string, Value>)
    requires m == map["Message" := VRecord(Some(MessageInfoFields(mi)))]
    ensures WellTypedFields(ChatResponseType, m)
  {
    ChatResponseNames();
    var p := ChatResponseType.props[0];
    assert WellTyped(p.kind, m[p.name]);
  }

  /** A well-typed join request map is determined by its two fields. */
  lemma JoinRequestFieldsOf(m: map<string, Value>)
    requires WellTypedFields(JoinRequestType, m)
    ensures JoinRequestFields(JoinRequestOf(m)) == m
  {
    JoinRequestNames();
    var ps := JoinRequestType.props;
    assert WellTyped(ps[0].kind, m[ps[0].name]) && WellTyped(ps[1].kind, m[ps[1].name]);
  }

  /** A well-typed chat request map is determined by its two fields. */
  lemma ChatRequestFieldsOf(m: map<string, Value>)
    requires WellTypedFields(ChatRequestType, m)
    ensures ChatRequestFields(ChatRequestOf(m)) == m
  {
    ChatRequestNames();
    var ps := ChatRequestType.props;
    assert WellTyped(ps[0].kind, m[ps[0].name]) && WellTyped(ps[1].kind, m[ps[1].name]);
  }

  // ---------------------------------------------------------------------
  // Parsing requests
  // ---------------------------------------------------------------------

  /** `BinConverter.ClassMaker(typeof(RTP_RequestChatChannelJoin), bytes)`. */
  function ParseJoinRequest(bs: seq<Byte>): (r: Result<JoinRequest, CodecError>)
    ensures r.Success? <==> Decode(JoinRequestType, bs).Success?
    ensures r.Success? ==> JoinRequestFields(r.value) == Decode(JoinRequestType, bs).value
  {
    var m :- Decode(JoinRequestType, bs);
    JoinRequestFieldsOf(m);
    Success(JoinRequestOf(m))
  }

  /** `BinConverter.ClassMaker(typeof(RTP_RequestChatMessage), bytes)`. */
  function ParseChatRequest(bs: seq<Byte>): (r: Result<ChatRequest, CodecError>)
    ensures r.Success? <==> Decode(ChatRequestType, bs).Success?
    ensures r.Success? ==> ChatRequestFields(r.value) == Decode(ChatRequestType, bs).value
  {
    var m :- Decode(ChatRequestType, bs);
    ChatRequestFieldsOf(m);
    Success(ChatRequestOf(m))
  }

  /** The payload the transport sends for a response. */
  function ResponseBytes(r: Response): Result<seq<Byte>, CodecError> {
    Encode(ResponseType(r), ResponseFields(r))
  }
}
