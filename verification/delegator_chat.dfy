/** `RTDelegatorChat`: the transport's connection events, forwarded to the
    channel manager and the packet executer. */
module DelegatorChat {
  import opened Wrappers
  import opened LittleEndian
  import opened Schema
  import opened Values
  import opened BinConverter
  import opened ChannelManager
  import opened ChannelProperties
  import opened PacketExecuter
  import ExecuteRouting

  /** A new connection is registered at channel 0; a known one keeps its
      channel. */
  function OnConnected(s: Chat, c: ConnectionId): (r: Chat)
    ensures c in r.pointers && r.pointers[c] == (if c in s.pointers then s.pointers[c] else 0)
    ensures r.pointers - {c} == s.pointers - {c}
    ensures r.(pointers := s.pointers) == s
  {
    AddConnection(s, c)
  }

  /** A closed connection is forgotten and leaves the channel it was in. */
  function OnDisconnected(s: Chat, c: ConnectionId): (r: Chat)
    ensures c !in r.pointers
    ensures r.pointers == s.pointers - {c}
    ensures r.channels.Keys == s.channels.Keys
    ensures c in s.pointers && s.pointers[c] in s.channels ==> c !in r.channels[s.pointers[c]]
    ensures r.(channels := s.channels, pointers := s.pointers) == s
  {
    RemoveConnection(s, c)
  }

  /** A reconnect is a disconnect followed by a connect: the connection
      leaves its channel and starts over at channel 0. */
  function OnReconnected(s: Chat, c: ConnectionId): (r: Chat)
    ensures c in r.pointers && r.pointers[c] == 0
    ensures r.pointers - {c} == s.pointers - {c}
    ensures r.channels.Keys == s.channels.Keys
    ensures c in s.pointers && s.pointers[c] in s.channels ==> c !in r.channels[s.pointers[c]]
    ensures r.(channels := s.channels, pointers := s.pointers) == s
  {
    OnConnected(OnDisconnected(s, c), c)
  }

  /** A received packet goes to the executer: one of a type without a
      handler, or one that does not decode, changes nothing and is not
      answered. */
  function OnReceived(s: Chat, c: ConnectionId, rt: RecordType, bs: seq<Byte>): (r: (Chat, seq<PacketExecuter.Send>))
    ensures !HasHandler(rt) || Decode(rt, bs).Failure? ==> r == (s, [])
  {
    Execute(s, c, rt, bs)
  }

  // ---------------------------------------------------------------------
  // Properties
  // ---------------------------------------------------------------------

  /** Connecting and disconnecting keep the channel invariant. */
  lemma ConnectionEventsValid(s: Chat, c: ConnectionId)
    requires Valid(s)
    ensures Valid(OnConnected(s, c))
    ensures Valid(OnDisconnected(s, c))
    ensures Valid(OnReconnected(s, c))
  {
    AddConnectionValid(s, c);
    RemoveConnectionValid(s, c);
    AddConnectionValid(OnDisconnected(s, c), c);
  }

  /** No received packet breaks the channel invariant while the message
      counter has room. */
  lemma ReceivedValid(s: Chat, c: ConnectionId, rt: RecordType, bs: seq<Byte>)
    requires Valid(s) && s.lastId < Int32Max
    ensures Valid(OnReceived(s, c, rt, bs).0)
  {
    ExecuteRouting.ExecuteValid(s, c, rt, bs);
  }

  /** A connection that comes and goes without doing anything leaves no
      trace, unless channel 0 already listed it. */
  lemma DisconnectUndoesConnect(s: Chat, c: ConnectionId)
    requires c !in s.pointers
    requires 0 in s.channels ==> c !in s.channels[0]
    ensures OnDisconnected(OnConnected(s, c), c) == s
  {
    RemoveUndoesAdd(s, c);
  }

  /** A reconnect of an unknown connection is a plain connect. */
  lemma ReconnectUnknown(s: Chat, c: ConnectionId)
    requires c !in s.pointers
    ensures OnReconnected(s, c) == OnConnected(s, c)
  {
  }

  /** Reconnecting twice is reconnecting once, as long as the first left the
      connection in no channel: only channel 0 can still list it. */
  lemma ReconnectTwice(s: Chat, c: ConnectionId)
    requires 0 in s.channels ==> c !in s.channels[0]
    ensures OnReconnected(OnReconnected(s, c), c) == OnReconnected(s, c)
  {
    var r := OnReconnected(s, c);
    var d := OnDisconnected(r, c);
    assert d.pointers == r.pointers - {c};
    if 0 in r.channels {
      assert c !in r.channels[0];
      assert r.channels[0] - {c} == r.channels[0];
      assert r.channels[0 := r.channels[0] - {c}] == r.channels;
    }
    assert d.channels == r.channels;
    assert OnConnected(d, c).pointers == r.pointers;
  }
}
