/**
 * The communication port base class (instrumentino/communication/__init__.py):
 * construction checks, the polling schedule, and `receive`, which appends
 * what the transport delivered to the class-level receive buffer and hands
 * the whole buffer to the protocol.
 */
module Communication {
  import opened Wrappers
  import opened Bytes
  import P = ControlinoProtocol

  /** The largest buffer the protocol accepts before it asks for a disconnect. */
  const MAX_BYTES_PER_READ: nat := 1000

  /**
   * `CommunicationPort.__init__`: a missing `controller` keyword raises
   * MissingKwargsError; a subclass without `type_name` raises AttributeError.
   */
  function ConstructionError(hasController: bool, hasTypeName: bool): (r: Option<Raised>)
    ensures r.None? <==> hasController && hasTypeName
    ensures !hasController ==> r == Some(MissingKwargsError)
    ensures hasController && !hasTypeName ==> r == Some(AttributeError)
  {
    if !hasController then Some(MissingKwargsError)
    else if !hasTypeName then Some(AttributeError)
    else None
  }

  /** What one call of the protocol's `handle_incoming_bytes` reported. */
  datatype Received = Received(disconnectRequested: bool, dispatched: seq<P.Packet>, stop: P.Stop)

  /**
   * A communication port. `incoming` is the class attribute `incoming_bytes`:
   * every port made with the same buffer appends to that one bytearray.
   * `pollers` counts the `receive` timers the clock has scheduled.
   */
  class CommunicationPort {
    const incoming: ByteArray
    var pollers: nat
    /** Packets handed to the transport, oldest first. */
    var transmitted: seq<string>

    constructor (incoming: ByteArray)
      ensures this.incoming == incoming && pollers == 0 && transmitted == []
    {
      this.incoming := incoming;
      pollers := 0;
      transmitted := [];
    }

    /**
     * `connect`: `transportConnects` is what the subclass's `_connect`
     * returned; only a successful connection schedules another poller.
     */
    method Connect(transportConnects: bool) returns (r: bool)
      modifies this`pollers
      ensures r == transportConnects
      ensures pollers == if transportConnects then old(pollers) + 1 else old(pollers)
    {
      if transportConnects {
        pollers := pollers + 1;
        return true;
      }
      return false;
    }

    /** `disconnect`: every scheduled poller of `receive` is removed. */
    method Disconnect()
      modifies this`pollers
      ensures pollers == 0
    {
      pollers := 0;
    }

    /** `transmit`: the packet goes to the transport, after the ones before it. */
    method Transmit(packet: string)
      modifies this`transmitted
      ensures transmitted == old(transmitted) + [packet]
    {
      transmitted := transmitted + [packet];
    }

    /**
     * `receive`: `delivered` is what `_get_incoming_bytes` returned. Nothing
     * (None or no bytes) leaves the buffer alone and parses nothing;
     * otherwise the bytes are appended and the whole buffer is deframed in
     * place.
     */
    method Receive(delivered: Option<seq<byte>>) returns (outcome: Option<Received>)
      modifies incoming
      ensures delivered.None? || delivered.value == [] ==>
        outcome.None? && incoming.contents == old(incoming.contents)
      ensures delivered.Some? && delivered.value != [] ==>
        outcome.Some?
        && outcome.value.disconnectRequested == (|old(incoming.contents)| + |delivered.value| > MAX_BYTES_PER_READ)
        && P.Deframed(incoming.contents, outcome.value.dispatched, outcome.value.stop)
           == P.Deframe(old(incoming.contents) + delivered.value, P.AsWritten)
    {
      if delivered.None? || delivered.value == [] {
        return None;
      }
      incoming.contents := incoming.contents + delivered.value;
      var disconnectRequested, dispatched, stop := P.HandleIncomingBytes(incoming, MAX_BYTES_PER_READ);
      return Some(Received(disconnectRequested, dispatched, stop));
    }
  }

  /**
   * A frame that arrives split over two reads into an empty buffer: the
   * first part is kept whole and dispatches nothing, and once the rest is
   * appended the frame is dispatched alone and the buffer is left empty.
   */
  lemma SplitFrameReassembled(f: seq<byte>, k: nat)
    requires P.IsFrame(f) && 0 < k < |f|
    ensures P.Deframe(f[..k], P.AsWritten).rest == f[..k]
    ensures P.Deframe(f[..k], P.AsWritten).packets == []
    ensures P.Deframe(f[..k] + f[k..], P.AsWritten) == P.Deframed([], [P.AsPacket(f)], P.HeaderShort)
  {
    var head := f[..k];
    if k < P.HEADER_SIZE {
      P.ShortBufferUntouched(head, P.AsWritten);
    } else {
      assert head[..4] == f[..4] && head[5..7] == f[5..7];
      P.IncompletePacketWaits(head, P.AsWritten);
    }
    assert head + f[k..] == P.Concat([f]) by {
      assert P.Concat([f]) == f + P.Concat([]);
    }
    assert P.Packets([f]) == [P.AsPacket(f)] + P.Packets([]);
    P.FramesDeframed([f], P.AsWritten);
  }
}
