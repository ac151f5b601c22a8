# Real-time chat server core, modelled in Dafny

This project models the sequential core of a small real-time chat server:

- **The binary record codec** (`BinConverter`). It is driven by a schema: a
  record's public properties are visited in name order. Each integral
  property is written little-endian at its fixed width. A string is written
  as a 4-byte length and its UTF-8 bytes. An array or list is written as a
  4-byte element count and its elements. A nested record is written as a
  4-byte byte length and its body. A top-level payload starts with the
  2-byte version tag 8.
- **The packet records** (`PacketDefine`): the `ResultCode` enum and the
  five wire records, `SimpleChatMessageInfo`, the two requests and the two
  responses.
- **The channel manager** (`RTChatChannelManager`). It tracks:
  - each connection's current channel;
  - each channel's member set;
  - the nicknames;
  - a per-channel log of at most 100 messages;
  - the message-id counter.

  Its quirks are kept: joins of negative channel ids are refused, channel 0
  is created lazily, and a join from channel 0 does not leave it.
- **The packet executer** (`RTPacketExecuter`). It routes a decoded packet
  to the join handler or the chat handler. The join handler negates the
  channel id the client sends before calling `JoinChannel`.
- **The connection delegate** (`RTDelegatorChat`). It maps connect,
  disconnect, reconnect and receive events onto the manager and the
  executer.

Reflection is replaced by explicit schemas:
- `Schema.Kind` is a property's type.
- `Schema.RecordType` is a class's convertibility and its properties.
- `Values.Value` is an object tree, with a record held as a map from
  property name to value.

Codec errors are a `Result`: a non-`BinConvertable` type, an unsupported
enum base, a non-empty `List<byte>`, a bad version tag, and (see below)
truncated input.

The channel manager is one immutable `Chat` value. Each public method is a
function from a state to a new state and a return value. The executer and
the delegate return the new state together with the list of outbound sends.
Each send pairs a set of connection ids with a response record.

Modules, one per component:
- `LittleEndian`, `Schema`, `Values`, `BinConverter`: the codec.
- `CodecRoundTrip`, `CodecProperties`: what the codec guarantees.
- `PacketDefine`, `PacketLayout`: the records and their exact bytes.
- `ChannelManager`, `ChannelProperties`: the state engine and its invariant.
- `PacketExecuter`, `ExecuterProperties`, `ExecuteRouting`: the handlers.
- `DelegatorChat`: the connection events.

The main results:
- Decoding an encoding returns the object up to the codec's own
  normalisation (`CodecRoundTrip.DecodeEncode`):
  - a null string reads back as `""`;
  - a null `List<T>` reads back as an empty list;
  - an empty array, and a nested record whose body is empty, read back as
    null.
- The exact bytes of every packet (`PacketLayout`).
- Every operation preserves the state invariant `ChannelProperties.Valid`.
  Posting a message preserves it only while the message counter has not
  wrapped.
- A join request with a non-negative channel id is always answered
  `OK_Full` and changes nothing (`ExecuterProperties.JoinNonNegativeRefused`),
  and so is the auto-join scan of pool channels.

## Model

| member | source | states |
|---|---|---|
| `LittleEndian.FromLEToLE` | ServerCore/BinConverter.cs:726-738 | Reading back the little-endian bytes of a number below 256^w gives the number. |
| `LittleEndian.ToLEFromLE` | ServerCore/BinConverter.cs:122-138 | Re-encoding the number read from w bytes gives the same w bytes. |
| `LittleEndian.SignedUnsigned` | ServerCore/BinConverter.cs:125-138 | Two's-complement reinterpretation of a signed value in range is undone by reading it back as signed. |
| `LittleEndian.ReadInt32LE` | ServerCore/BinConverter.cs:195-198 | A 4-byte length or count read back from its encoding is the original `int`, for every `int`, including negatives. |
| `Schema.NameLessTransitive` | ServerCore/BinConverter.cs:114-115 | The ordinal name order used for the property walk is transitive. |
| `Schema.NameLessTotal` | ServerCore/BinConverter.cs:114-115 | Any two distinct names are ordered one way or the other, so the walk order is determined. |
| `Schema.InsertSorted` | ServerCore/BinConverter.cs:114-115 | Inserting a property with a fresh name into a name-sorted list keeps it sorted. |
| `Schema.WireOrderSorted` | ServerCore/BinConverter.cs:114-115 | The wire order of a record's properties with distinct names is strictly increasing by name, and a permutation of the declaration order. |
| `Schema.SortedUnique` | ServerCore/BinConverter.cs:495-496 | Two name-sorted lists with the same elements are equal, so the sorted property order is unique. |
| `Schema.WireOrderCanonical` | ServerCore/BinConverter.cs:495-496 | The wire order does not depend on the declaration order of the properties. |
| `Schema.WireOrderIs` | ServerCore/BinConverter.cs:495-496 | Any name-sorted permutation of the properties is exactly the wire order. |
| `BinConverter.ReadIntBytes` | ServerCore/BinConverter.cs:723-739 | An integral property of each width reads back as the value written. |
| `BinConverter.IntBytes` | ServerCore/BinConverter.cs:39-45 | A `byte`, `short`, `int` or `long` is written in exactly 1, 2, 4 or 8 bytes. |
| `BinConverter.StringBytes` | ServerCore/BinConverter.cs:784-803 | A string is written as 4 + its byte count bytes, and fails exactly when the byte count exceeds `int.MaxValue`. |
| `BinConverter.ReadVersion` | ServerCore/BinConverter.cs:102-111 | The top-level header is accepted exactly when the first two bytes are `08 00`, and reading continues right after them. |
| `BinConverter.DecodeFields` | ServerCore/BinConverter.cs:114-118 | A decoded record has exactly one value per property, each of the property's type. |
| `BinConverter.BinMaker` | ServerCore/BinConverter.cs:488-506 | A type without `BinConvertable` is refused with `NotConvertible` before anything else; duplicate property names are refused; a null object encodes to the bare header only when the type has no properties; a successful top-level encoding starts with `08 00`. |
| `BinConverter.ClassMaker` | ServerCore/BinConverter.cs:100-118 | A top-level read fails unless the first two bytes are `08 00`; duplicate property names fail; a decoded record is well typed. |
| `BinConverter.Encode` | ServerCore/BinConverter.cs:477-506 | A non-convertible type is refused with `NotConvertible`; a successful payload starts with `08 00`. |
| `BinConverter.Decode` | ServerCore/BinConverter.cs:84-111 | A non-convertible type is refused, a payload with a wrong or missing version tag is refused, and a decoded record is well typed. |
| `CodecRoundTrip.RoundTripLeaf` | ServerCore/BinConverter.cs:120-210 | Every fixed-width or string property decodes from its encoding to its normalised value and consumes exactly its bytes. |
| `CodecRoundTrip.RoundTripArray` | ServerCore/BinConverter.cs:216-338 | An array property round-trips up to normalisation: an empty or null array reads back as null. |
| `CodecRoundTrip.RoundTripList` | ServerCore/BinConverter.cs:339-450 | A list property round-trips up to normalisation: a null list reads back as an empty list. |
| `CodecRoundTrip.RoundTripNested` | ServerCore/BinConverter.cs:451-471 | A nested record property round-trips behind its length prefix, and a null one, or one with an empty body, reads back as null. |
| `CodecRoundTrip.RoundTripValue` | ServerCore/BinConverter.cs:118-472 | Every property value decodes from its encoding, followed by any bytes, to its normalised value and leaves those bytes. |
| `CodecRoundTrip.RoundTripElems` | ServerCore/BinConverter.cs:629-716 | A sequence of elements decodes to the normalised elements, with record elements read inline, without a per-element length. |
| `CodecRoundTrip.RoundTripFields` | ServerCore/BinConverter.cs:506-825 | Properties written in a given order decode, in the same order, to the normalised values. |
| `CodecRoundTrip.RoundTripBody` | ServerCore/BinConverter.cs:100-118 | A record body, inner or top level, decodes from its encoding to the normalised record. |
| `CodecRoundTrip.NormalizeByProperty` | ServerCore/BinConverter.cs:458-471 | Normalisation keeps every property and normalises each value on its own. |
| `CodecRoundTrip.BodyEmptyIffNoProperties` | ServerCore/BinConverter.cs:805-823 | An inner body is empty exactly when the record has no properties, which is when a nested record is read back as null. |
| `CodecRoundTrip.DecodeEncode` | ServerCore/BinConverter.cs:84-98 | Decoding a successful top-level encoding gives back the normalised object. |
| `CodecProperties.TopLevelIsTaggedInner` | ServerCore/BinConverter.cs:500-504 | A top-level encoding is the inner encoding behind `08 00`; the two succeed or fail together, with the same error. |
| `CodecProperties.WrongVersionRejected` | ServerCore/BinConverter.cs:102-111 | A top-level payload not starting `08 00` is refused with `InvalidVersion`. |
| `CodecProperties.NotConvertibleRefused` | ServerCore/BinConverter.cs:490-493 | A type without `BinConvertable` is refused before any byte is produced, inner or top level. |
| `CodecProperties.UnsupportedEnumRefused` | ServerCore/BinConverter.cs:779-782 | An enum with an unsupported underlying type fails both ways with `UnsupportedEnum`. |
| `CodecProperties.ByteListRefused` | ServerCore/BinConverter.cs:629-634 | A non-empty `List<byte>` cannot be written; an empty one writes the count 0. |
| `CodecProperties.ByteListDecodeRefused` | ServerCore/BinConverter.cs:346-353 | A `List<byte>` with a positive count cannot be read. |
| `CodecProperties.EncodeFieldsParts` | ServerCore/BinConverter.cs:506-825 | The properties' bytes are the concatenation of each property's bytes, in walk order. |
| `CodecProperties.BinMakerSorted` | ServerCore/BinConverter.cs:495-506 | A record encodes to its header followed by its properties' encodings in name order. |
| `CodecProperties.RecordElemsParts` | ServerCore/BinConverter.cs:711-715 | Record elements of a list are their bodies one after another, with no per-element prefix. |
| `CodecProperties.RecordListLayout` | ServerCore/BinConverter.cs:616-721 | A list of records is its count followed by the elements; a null list is the count 0. |
| `CodecProperties.RecordFieldLayout` | ServerCore/BinConverter.cs:805-819 | A nested record is its body's byte length followed by the body. |
| `CodecProperties.FixedWidthFields` | ServerCore/BinConverter.cs:723-783 | Every fixed-width property is written in exactly its width: 1, 2, 4, 8, bool 1, float 4, double 8, `DateTime` 8, `Guid` 16, an enum its base's width. |
| `CodecProperties.EmptyStringFraming` | ServerCore/BinConverter.cs:786-803 | A null or empty string is written as the 4-byte length 0 alone. |
| `CodecProperties.NonPositiveStringLength` | ServerCore/BinConverter.cs:195-210 | A string length of 0 or less reads as the empty string, never null, and consumes only the length. |
| `CodecProperties.NullFraming` | ServerCore/BinConverter.cs:612-614 | A null array, list or nested record is written as the count 0 alone. |
| `CodecProperties.NonPositivePrefix` | ServerCore/BinConverter.cs:458-471 | A prefix of 0 or less reads as an empty list for `List<T>` and as null for an array or a nested record. |
| `PacketDefine.CodeValue` | ServerCore/RealTimeChat/PacketDefine.cs:9-14 | `Error`, `OK` and `OK_Full` are 0, 1 and 2, and no two codes share a value. |
| `PacketDefine.MessageInfoFields` | ServerCore/RealTimeChat/PacketDefine.cs:22-28 | A message record's property map is well typed and converts back to the same record. |
| `PacketDefine.JoinRequestFields` | ServerCore/RealTimeChat/PacketDefine.cs:41-51 | A join request's property map is well typed and converts back to the same request. |
| `PacketDefine.ChatRequestFields` | ServerCore/RealTimeChat/PacketDefine.cs:69-73 | A chat request's property map is well typed and converts back to the same request. |
| `PacketDefine.JoinResponseFields` | ServerCore/RealTimeChat/PacketDefine.cs:53-64 | A join response's map holds the numeric result code, the channel and the message list. |
| `PacketDefine.ChatResponseFields` | ServerCore/RealTimeChat/PacketDefine.cs:75-78 | A chat response's only property is the nested message record. |
| `PacketDefine.ParseJoinRequest` | ServerCore/RealTimeChat/PacketDefine.cs:41-51 | A join request is parsed exactly when its payload decodes, and the parsed request's property map is exactly the decoded map, so parsing loses nothing. |
| `PacketDefine.JoinRequestFieldsOf` | ServerCore/RealTimeChat/PacketDefine.cs:41-51 | A well-typed join request map is determined by its two fields: converting it to a request and back gives the same map. |
| `PacketDefine.ParseChatRequest` | ServerCore/RealTimeChat/PacketDefine.cs:69-73 | A chat request is parsed exactly when its payload decodes, and the parsed request's property map is exactly the decoded map, so parsing loses nothing. |
| `PacketDefine.ChatRequestFieldsOf` | ServerCore/RealTimeChat/PacketDefine.cs:69-73 | A well-typed chat request map is determined by its two fields: converting it to a request and back gives the same map. |
| `PacketLayout.MessageInfoWireOrder` | ServerCore/RealTimeChat/PacketDefine.cs:22-28 | A message travels as AccountUID, ID, Message, Nickname. |
| `PacketLayout.JoinRequestWireOrder` | ServerCore/RealTimeChat/PacketDefine.cs:41-51 | A join request travels as ChannelID, LastMessageID. |
| `PacketLayout.JoinResponseWireOrder` | ServerCore/RealTimeChat/PacketDefine.cs:53-64 | A join response travels as ChannelID, LastMessages, ResultCode. |
| `PacketLayout.ChatRequestWireOrder` | ServerCore/RealTimeChat/PacketDefine.cs:69-73 | A chat request travels as AccountUID, Message. |
| `PacketLayout.MessageInfoLayout` | ServerCore/RealTimeChat/PacketDefine.cs:22-28 | A message's body is the 8-byte account id, the 4-byte id, then the text and the nickname, each length-prefixed. |
| `PacketLayout.JoinRequestLayout` | ServerCore/RealTimeChat/PacketDefine.cs:41-51 | A join request's payload is `08 00`, the 4-byte channel id and the 4-byte last message id. |
| `PacketLayout.JoinRequestRoundTrip` | ServerCore/RealTimeChat/PacketDefine.cs:30-51 | Every join request encodes, and its payload parses back to the same request. |
| `PacketLayout.ChatRequestLayout` | ServerCore/RealTimeChat/PacketDefine.cs:69-73 | A chat request's payload is `08 00`, the 8-byte account id and the length-prefixed text. |
| `PacketLayout.ChatRequestRoundTrip` | ServerCore/RealTimeChat/PacketDefine.cs:69-73 | Every chat request encodes, and parses back to itself, with a null text read back as empty. |
| `PacketLayout.MessageListLayout` | ServerCore/RealTimeChat/PacketDefine.cs:63 | A message list is its count followed by the message bodies with no per-element prefix; a null list is the count 0. |
| `PacketLayout.JoinResponseLayout` | ServerCore/RealTimeChat/PacketDefine.cs:53-64 | A join response's payload is `08 00`, the channel id, the message list and the 4-byte result code. |
| `PacketLayout.FailedJoinReply` | ServerCore/RealTimeChat/RTPacketExecuter.cs:59-67 | The refusal reply is exactly the 14 bytes `08 00`, channel 0, count 0, code 2. |
| `PacketLayout.ChatResponseLayout` | ServerCore/RealTimeChat/PacketDefine.cs:75-78 | A chat response's payload is `08 00`, then the message body's byte length, then the body. |
| `ChannelManager.NextIdWraps` | ServerCore/RealTimeChat/RTChannelManager.cs:243 | The id counter increments with 32-bit wrap-around: after `int.MaxValue` comes `int.MinValue`. |
| `ChannelManager.Neg32Wraps` | ServerCore/RealTimeChat/RTPacketExecuter.cs:53 | Negating a channel id in `int` arithmetic wraps, and gives a negative number exactly for positive ids and `int.MinValue`. |
| `ChannelManager.Init` | ServerCore/RealTimeChat/RTChannelManager.cs:34-50 | The constructor creates exactly channels 1..999, all empty, and no connections, nicknames or logs. |
| `ChannelManager.AddConnection` | ServerCore/RealTimeChat/RTChannelManager.cs:52-60 | A new connection starts at channel 0; an existing entry is never overwritten; nothing else changes. |
| `ChannelManager.RemoveConnection` | ServerCore/RealTimeChat/RTChannelManager.cs:62-78 | The entry is deleted and the connection leaves the channel it was recorded in, and no other channel changes; an unknown id changes nothing. |
| `ChannelManager.LeaveChannel` | ServerCore/RealTimeChat/RTChannelManager.cs:160-192 | A connection recorded in another channel is refused with no change. Otherwise the answer is whether it was removed from a nonzero, existing channel's members, and its pointer becomes 0. |
| `ChannelManager.JoinChannel` | ServerCore/RealTimeChat/RTChannelManager.cs:80-158 | Negative ids are refused with no change; rejoining the current channel succeeds with no change; a join creates at most the target channel; on success the connection is a member and its pointer names the channel. |
| `ChannelManager.Enter` | ServerCore/RealTimeChat/RTChannelManager.cs:110-155 | Entering succeeds exactly when the channel has room and the connection is not yet a member. On success it is added and, if registered, points at the channel. Other channels are untouched. |
| `ChannelManager.GetChannel` | ServerCore/RealTimeChat/RTChannelManager.cs:194-208 | A channel's member set, or null exactly when the channel does not exist. |
| `ChannelManager.GetChannelOf` | ServerCore/RealTimeChat/RTChannelManager.cs:210-221 | The member set of a connection's current channel; null for an unknown connection. |
| `ChannelManager.RegisterNickname` | ServerCore/RealTimeChat/RTChannelManager.cs:223-226 | Registers or overwrites one account's nickname and nothing else. |
| `ChannelManager.GetNickname` | ServerCore/RealTimeChat/RTChannelManager.cs:228-239 | The registered nickname, or `"GUEST"` for an unknown account. |
| `ChannelManager.DropOldest` | ServerCore/RealTimeChat/RTChannelManager.cs:263-275 | The log keeps its newest min(n, 100) entries, in order. |
| `ChannelManager.After` | ServerCore/RealTimeChat/RTChannelManager.cs:291-294 | The entries kept are exactly those with an id above the given one. |
| `ChannelManager.AddMessage` | ServerCore/RealTimeChat/RTChannelManager.cs:241-284 | The counter always advances. A message is posted exactly when the connection is registered, its channel exists and the nickname is non-empty. It carries the new id, and the member snapshot is returned. On a post, that channel's log becomes the old log (empty if none) with the record appended and trimmed to the newest 100; every other log is unchanged, and without a post no log changes. Pointers, channels and nicknames never change. |
| `ChannelManager.GetLastMessages` | ServerCore/RealTimeChat/RTChannelManager.cs:286-302 | Null exactly when the channel has no log. For a positive id, exactly the entries above it; otherwise the whole log. That the result keeps log order, as a suffix of the log, is `ChannelProperties.RecentIsSuffix`. |
| `ChannelProperties.InitValid` | ServerCore/RealTimeChat/RTChannelManager.cs:34-50 | The initial state satisfies the invariant. |
| `ChannelProperties.AddConnectionValid` | ServerCore/RealTimeChat/RTChannelManager.cs:52-60 | Adding a connection keeps the invariant. |
| `ChannelProperties.RemoveConnectionValid` | ServerCore/RealTimeChat/RTChannelManager.cs:62-78 | Removing a connection keeps the invariant. |
| `ChannelProperties.LeaveChannelValid` | ServerCore/RealTimeChat/RTChannelManager.cs:160-192 | Leaving keeps the invariant. |
| `ChannelProperties.JoinChannelValid` | ServerCore/RealTimeChat/RTChannelManager.cs:80-158 | Every join, successful or not, keeps the invariant. |
| `ChannelProperties.EnterValid` | ServerCore/RealTimeChat/RTChannelManager.cs:110-155 | Entering a non-negative channel keeps the invariant. |
| `ChannelProperties.RegisterNicknameValid` | ServerCore/RealTimeChat/RTChannelManager.cs:223-226 | Registering a nickname keeps the invariant. |
| `ChannelProperties.AddMessageValid` | ServerCore/RealTimeChat/RTChannelManager.cs:241-284 | Posting keeps every log's ids strictly rising and at most the counter, while the counter has not wrapped. |
| `ChannelProperties.AppendIncreasing` | ServerCore/RealTimeChat/RTChannelManager.cs:263-275 | Appending a record with the next id and evicting keeps a log rising and bounded by the counter. |
| `ChannelProperties.RemoveUndoesAdd` | ServerCore/RealTimeChat/RTChannelManager.cs:52-78 | Removing a connection that was just added restores the state. |
| `ChannelProperties.JoinFromZeroKeepsZero` | ServerCore/RealTimeChat/RTChannelManager.cs:104-108 | A connection in channel 0 that joins another channel stays listed in channel 0. |
| `ChannelProperties.JoinFresh` | ServerCore/RealTimeChat/RTChannelManager.cs:110-155 | Joining an empty or unseen channel from channel 0 creates or fills it with the connection alone and points at it. |
| `ChannelProperties.JoinZeroListsConnection` | ServerCore/RealTimeChat/RTChannelManager.cs:80-158 | Joining channel 0 leaves the current channel, lazily creates channel 0 with the connection and points at 0. |
| `ChannelProperties.TwoChannels` | ServerCore/RealTimeChat/RTChannelManager.cs:104-155 | Joining 5, then 0, then 7 leaves a connection listed in both channel 0 and channel 7, so "member of one channel" is not an invariant. |
| `ChannelProperties.ZeroThenOther` | ServerCore/RealTimeChat/RTChannelManager.cs:104-155 | From any nonzero channel, joining a not-yet-existing channel 0 and then another channel `b` that is empty or absent leaves the connection listed in both 0 and `b`. |
| `ChannelProperties.JoinSucceedsIff` | ServerCore/RealTimeChat/RTChannelManager.cs:131-139 | A join of a non-negative channel other than the current one succeeds exactly when the channel has room and the connection is not a member. |
| `ChannelProperties.JoinFullLeavesOld` | ServerCore/RealTimeChat/RTChannelManager.cs:104-137 | A join refused for capacity has already taken the connection out of its previous channel and reset its pointer to 0, and leaves the target unchanged. |
| `ChannelProperties.JoinWithinCapacity` | ServerCore/RealTimeChat/RTChannelManager.cs:131-139 | A successful join adds exactly one member and never exceeds the capacity. |
| `ChannelProperties.LeaveUndoesJoin` | ServerCore/RealTimeChat/RTChannelManager.cs:160-192 | Leaving a channel just joined from channel 0 restores the state exactly. |
| `ChannelProperties.JoinThenMembers` | ServerCore/RealTimeChat/RTChannelManager.cs:210-221 | After a successful join of a nonzero channel, the connection's channel lists it. |
| `ChannelProperties.NicknameLastWins` | ServerCore/RealTimeChat/RTChannelManager.cs:223-239 | The last registered nickname wins, and other accounts are unaffected. |
| `ChannelProperties.AppendEvicts` | ServerCore/RealTimeChat/RTChannelManager.cs:263-275 | Below 100 entries a post appends; at 100 the oldest entry is dropped. |
| `ChannelProperties.AfterIsSuffix` | ServerCore/RealTimeChat/RTChannelManager.cs:291-294 | In a rising log, the entries above an id form a suffix, and everything before it is at or below that id. |
| `ChannelProperties.RecentIsSuffix` | ServerCore/RealTimeChat/RTChannelManager.cs:286-302 | In a valid state, the messages after a positive id are a suffix of the log in log order, and exactly the earlier ones are left out. |
| `ChannelProperties.PostedIsNewest` | ServerCore/RealTimeChat/RTChannelManager.cs:243-275 | A posted message's id is above every id already logged, while the counter has not wrapped. |
| `ChannelProperties.PostedThenRecent` | ServerCore/RealTimeChat/RTChannelManager.cs:241-302 | Right after a post, asking the channel for what follows the previous counter gives exactly the new message. |
| `PacketExecuter.AutoJoin` | ServerCore/RealTimeChat/RTPacketExecuter.cs:38-50 | The pool scan answers 0 or a channel number within the scanned range. |
| `PacketExecuter.TryJoin` | ServerCore/RealTimeChat/RTPacketExecuter.cs:36-57 | An explicit join can only end in the channel id the client sent. |
| `PacketExecuter.HandleJoin` | ServerCore/RealTimeChat/RTPacketExecuter.cs:34-80 | One reply to the sender: `OK` exactly when the channel id is nonzero, otherwise exactly the refusal reply. |
| `PacketExecuter.HandleChat` | ServerCore/RealTimeChat/RTPacketExecuter.cs:82-99 | A null or empty nickname drops the message unchanged. Otherwise it is posted, and one chat response goes to exactly the returned snapshot when posting succeeded. |
| `PacketExecuter.Execute` | ServerCore/RealTimeChat/RTPacketExecuter.cs:14-32 | A type with no handler, a payload that does not decode, or a type other than the two requests changes nothing and sends nothing. |
| `ExecuterProperties.AutoJoinNeverJoins` | ServerCore/RealTimeChat/RTPacketExecuter.cs:38-50 | The auto-join scan asks for channels -1..-999, all refused, so it joins nothing and changes nothing. |
| `ExecuterProperties.JoinNonNegativeRefused` | ServerCore/RealTimeChat/RTPacketExecuter.cs:38-67 | A join for channel 0, any positive channel or `int.MinValue` is answered `OK_Full` with channel 0 and changes nothing. |
| `ExecuterProperties.JoinOkIff` | ServerCore/RealTimeChat/RTPacketExecuter.cs:51-79 | A join is answered `OK` exactly when the id is negative, not `int.MinValue`, and joining its negation succeeds. |
| `ExecuterProperties.JoinOkReply` | ServerCore/RealTimeChat/RTPacketExecuter.cs:68-79 | A successful join answers the sender with `OK`, the client's channel id and the log of its negation after `LastMessageID`. |
| `ExecuterProperties.HandleJoinValid` | ServerCore/RealTimeChat/RTPacketExecuter.cs:34-80 | A join request keeps the state invariant. |
| `ExecuterProperties.ChatUsesId` | ServerCore/RealTimeChat/RTPacketExecuter.cs:84-92 | An id is consumed exactly when the nickname is non-empty, whether or not the post succeeds. |
| `ExecuterProperties.HandleChatValid` | ServerCore/RealTimeChat/RTPacketExecuter.cs:82-99 | A chat request keeps the invariant while the counter has not wrapped. |
| `ExecuterProperties.ChatBroadcast` | ServerCore/RealTimeChat/RTPacketExecuter.cs:90-98 | A message from a registered sender whose channel exists goes to all that channel's members, with the next id, the nickname and the text. |
| `ExecuterProperties.ChatReachesChannel` | ServerCore/RealTimeChat/RTPacketExecuter.cs:90-98 | Two connections in the same nonzero channel both receive the one send for a message either of them posts. |
| `ExecuteRouting.ExecuteJoinBytes` | ServerCore/RealTimeChat/RTPacketExecuter.cs:14-57 | Executing the bytes of an encoded join request is handling that request. |
| `ExecuteRouting.ExecuteChatBytes` | ServerCore/RealTimeChat/RTPacketExecuter.cs:14-32 | Executing the bytes of an encoded chat request is handling that request, with a null text read as empty. |
| `ExecuteRouting.ExecuteValid` | ServerCore/RealTimeChat/RTPacketExecuter.cs:14-32 | No packet, however malformed, breaks the invariant while the counter has not wrapped. |
| `DelegatorChat.OnConnected` | ServerCore/RealTimeChat/RTDelegatorChat.cs:7-10 | A connect registers the connection at channel 0, or keeps its channel, and changes nothing else. |
| `DelegatorChat.OnDisconnected` | ServerCore/RealTimeChat/RTDelegatorChat.cs:12-15 | A disconnect forgets the connection and removes it from its channel, and changes nothing else. |
| `DelegatorChat.OnReconnected` | ServerCore/RealTimeChat/RTDelegatorChat.cs:17-21 | After a reconnect the connection is at channel 0, has left its former channel, and no other connection moved. |
| `DelegatorChat.OnReceived` | ServerCore/RealTimeChat/RTDelegatorChat.cs:23-26 | A received packet of a type with no handler, or one that does not decode, changes nothing and sends nothing. |
| `DelegatorChat.ConnectionEventsValid` | ServerCore/RealTimeChat/RTDelegatorChat.cs:7-21 | Connect, disconnect and reconnect keep the invariant. |
| `DelegatorChat.ReceivedValid` | ServerCore/RealTimeChat/RTDelegatorChat.cs:23-26 | A received packet keeps the invariant while the counter has not wrapped. |
| `DelegatorChat.DisconnectUndoesConnect` | ServerCore/RealTimeChat/RTDelegatorChat.cs:7-15 | Disconnecting a connection that just connected restores the state, unless channel 0 already listed it. |
| `DelegatorChat.ReconnectUnknown` | ServerCore/RealTimeChat/RTDelegatorChat.cs:17-21 | Reconnecting an unknown connection is a plain connect. |
| `DelegatorChat.ReconnectTwice` | ServerCore/RealTimeChat/RTDelegatorChat.cs:17-21 | When channel 0 does not list the connection, a second reconnect changes nothing. (A connection still listed in channel 0 is removed from it by the second reconnect.) |

## Behaviour as written

Where the code behaves in a way its names or comments do not suggest, the
model follows the code:

- **Auto-join never joins.** The join handler passes `-i` for pool channel
  `i`, and `-ChannelID` for an explicit request
  (RTPacketExecuter.cs lines 44 and 53). `JoinChannel` refuses every
  negative id (RTChannelManager.cs lines 82-86). So a request for channel 0,
  or for any positive channel, is answered `OK_Full` and changes nothing. An
  eager fill of the pool channels 1..999 does not happen. Only a negative
  client id can succeed, and it joins channel `-ChannelID`
  (`ExecuterProperties.JoinNonNegativeRefused`, `ExecuterProperties.JoinOkIff`).
- **Empty channels still get posts.** `AddMessage` fails only when the
  sender is unregistered, its channel does not exist, or its nickname is
  empty (RTChannelManager.cs lines 245-253). A channel with no members still
  gets the post and a send to the empty set (`ChannelManager.AddMessage`).
- **One channel per connection is not an invariant.** A join from channel 0
  skips the leave step (RTChannelManager.cs line 105). A connection can
  therefore stay listed in channel 0 while it is in another channel
  (`ChannelProperties.TwoChannels`).
- **Truncated input.** The decoder is modelled with an explicit `Truncated`
  error. The code does not detect truncation (see below).

## Left out

- Concurrency is not modelled. The `ConcurrentDictionary` maps, the per-object locks, `Interlocked.Increment` and the fire-and-forget `Task.WhenAll` of sends are left out. Each public method is one atomic step, so the window between leaving and joining is never observed.
- The `TryAdd` failure of `JoinChannel` (RTChannelManager.cs lines 121-125) is left out. It can only happen when another thread creates the channel first.
- Reflection is replaced by explicit schemas. `GetProperties` and `Activator.CreateInstance` are gone, and the executer's method-by-name lookup is a two-entry handler table.
- All `Trace.WriteLine` logging is left out.
- `float`, `double`, `DateTime` and `Guid` are opaque blocks of 4, 8, 8 and 16 bytes. Their IEEE, tick and byte-order meaning is not modelled.
- Strings are held as their UTF-8 bytes. UTF-8 conversion and its replacement of invalid sequences are not modelled.
- Truncated input is an explicit `Truncated` decode failure. The source does not detect it: it ignores `MemoryStream.Read`'s return count and goes on with stale or zero bytes. No contract claims the source detects truncation.
- Property names are ordered ordinally (by character code). The source's `SortedDictionary` uses the default culture comparer. The two agree on the names of these records, which are ASCII with distinct first letters.
- A nested record with a positive length prefix is read inline and the length is not used, as in the source. A byte length that disagrees with the body is therefore not checked.
- `GetChannel` returns a member set. The order in which the source's collection enumerates members is not modelled.
- `Token`, `EncryptManager`, `DefaultValue` and `ServerException` are not part of this model: they are crypto and formatting wrappers.
- The SignalR transport and envelope code (`ChatConnection`, `RTChatContext`, `IRTChatContext`) is not part of this model. Sends are a list of (recipients, response) pairs.
- The HTTP layer (`WebApiServerBase`) and the `RTChatCore` singleton are not part of this model.
- `ChannelProperties.AddMessageValid`: holds only while the message counter is below `int.MaxValue`. The wrapped counter would make the next id negative and break the rising-ids part of the invariant.
- `ExecuterProperties.HandleChatValid`: holds only while the message counter is below `int.MaxValue`, for the same reason.
- `ExecuteRouting.ExecuteValid`: holds only while the message counter is below `int.MaxValue`, for the same reason.
- `DelegatorChat.ReceivedValid`: holds only while the message counter is below `int.MaxValue`, for the same reason.
- `ChannelProperties.PostedIsNewest`: holds only while the counter has not wrapped. Past `int.MaxValue` the fresh id is `int.MinValue`.
- `PacketExecuter.Execute`: a request payload shorter than its properties is dropped, with no state change and no reply. The source does not check the length and runs the handler on zero or stale bytes. The payload `08 00` alone is read as a join for channel 0 with last id 0, which is answered `OK_Full`. A chat payload cut after `AccountUID` takes its `Message` length from stale buffer bytes and may post a message of NUL characters.
- `DelegatorChat.OnReceived`: forwards to `PacketExecuter.Execute`, so it drops a short request in the same way, where the source answers the join with `OK_Full` or may post a NUL-filled chat message.
