/**
 * The Controlino packet protocol as seen from the PC: the packet layouts a
 * controller sends, the in-place deframing of the shared receive buffer, and
 * the carriage-return terminated ASCII commands the PC sends.
 */
module ControlinoProtocol {
  import opened Wrappers
  import opened Bytes
  import Seqs
  import Text

  const DEFAULT_DATA_PACKET_RATE: real := 10.0
  /** Capacity of the queue that hands String packets to `ping`. */
  const STRING_PACKETS_QUEUE_MAXSIZE: nat := 10

  const CMD_SET_CONTROLLER_TIME: string := "RTC:ZERO"
  const CMD_PING: string := "PING"
  const CMD_CHANNEL_DIRECTION: string := "CH:DIR"
  const CMD_CHANNEL_REGISTER: string := "CH:READ"
  const CMD_CHANNEL_WRITE: string := "CH:WRITE"
  const STRING_PACKET_TYPE_PONG: string := "PONG"

  const CONST_HEADER: seq<byte> := [0xA5, 0xA5, 0xA5, 0xA5]
  const DATA_PACKET: byte := 0
  const STRING_PACKET: byte := 1

  /** Marker, type byte and 16-bit length. */
  const HEADER_SIZE: nat := 7
  /** General header, 32-bit start timestamp and 16-bit block count. */
  const DATA_PACKET_FIXED_SIZE: nat := 13

  // ---------------------------------------------------------------- layouts

  /** The general packet header; the marker bytes are not validated by the parser. */
  datatype Header = Header(packetType: byte, packetLength: nat)

  function ParseHeader(bs: seq<byte>): (h: Header)
    requires |bs| >= HEADER_SIZE
    ensures h.packetType == bs[4] && h.packetLength < 0x1_0000
  {
    Header(bs[4], FromLE(bs[5..7]))
  }

  function HeaderBytes(h: Header): (r: seq<byte>)
    requires h.packetLength < 0x1_0000
    ensures |r| == HEADER_SIZE && r[..4] == CONST_HEADER
  {
    CONST_HEADER + [h.packetType] + ToLE(h.packetLength, 2)
  }

  lemma HeaderRoundTrip(h: Header)
    requires h.packetLength < 0x1_0000
    ensures ParseHeader(HeaderBytes(h)) == h
  {
    var bs := HeaderBytes(h);
    assert bs[5..7] == ToLE(h.packetLength, 2);
    LERoundTrip(h.packetLength, 2);
  }

  /** One block of a data packet: a channel index and its raw sample bytes. */
  datatype BlockRecord = BlockRecord(id: byte, dataPoints: seq<byte>)

  /** A data packet: start time in ms relative to t_zero, and its blocks. */
  datatype DataPacket = DataPacket(relativeStartTimestamp: nat, blocks: seq<BlockRecord>)

  function BlocksSize(blocks: seq<BlockRecord>): (n: nat)
    ensures n >= 3 * |blocks|
  {
    if |blocks| == 0 then 0 else 3 + |blocks[0].dataPoints| + BlocksSize(blocks[1..])
  }

  predicate BlocksFit(blocks: seq<BlockRecord>)
  {
    forall i :: 0 <= i < |blocks| ==> |blocks[i].dataPoints| < 0x1_0000
  }

  /** Every field of the packet fits the width the layout gives it. */
  predicate Encodable(p: DataPacket)
  {
    p.relativeStartTimestamp < 0x1_0000_0000 && |p.blocks| < 0x1_0000 &&
    BlocksFit(p.blocks) && DATA_PACKET_FIXED_SIZE + BlocksSize(p.blocks) < 0x1_0000
  }

  function BlocksBytes(blocks: seq<BlockRecord>): (r: seq<byte>)
    requires BlocksFit(blocks)
    ensures |r| == BlocksSize(blocks)
  {
    if |blocks| == 0 then []
    else
      var b := blocks[0];
      [b.id] + ToLE(|b.dataPoints|, 2) + b.dataPoints + BlocksBytes(blocks[1..])
  }

  /** The wire form of a data packet, with `packet_length` set to the whole packet's size. */
  function DataPacketBytes(p: DataPacket): (r: seq<byte>)
    requires Encodable(p)
    ensures |r| == DATA_PACKET_FIXED_SIZE + BlocksSize(p.blocks)
  {
    HeaderBytes(Header(DATA_PACKET, DATA_PACKET_FIXED_SIZE + BlocksSize(p.blocks)))
      + ToLE(p.relativeStartTimestamp, 4) + ToLE(|p.blocks|, 2) + BlocksBytes(p.blocks)
  }

  /** Parses `n` blocks from the front of `bs`; gives the blocks and the bytes used. */
  function ParseBlocks(bs: seq<byte>, n: nat): (r: Result<(seq<BlockRecord>, nat)>)
    ensures r.Ok? ==> |r.value.0| == n && r.value.1 <= |bs|
    decreases n
  {
    if n == 0 then Ok(([], 0))
    else if |bs| < 3 then Err(ConstructError)
    else
      var len := FromLE(bs[1..3]);
      if |bs| < 3 + len then Err(ConstructError)
      else
        match ParseBlocks(bs[3 + len..], n - 1)
        case Err(e) => Err(e)
        case Ok(tail) => Ok(([BlockRecord(bs[0], bs[3..3 + len])] + tail.0, 3 + len + tail.1))
  }

  /**
   * construct's parse of `data_packet_format`: a short input fails, a type
   * byte outside the Enum fails, and bytes after the last block are ignored.
   */
  function ParseDataPacket(bs: seq<byte>): (r: Result<DataPacket>)
  {
    if |bs| < DATA_PACKET_FIXED_SIZE then Err(ConstructError)
    else if bs[4] != DATA_PACKET && bs[4] != STRING_PACKET then Err(ConstructError)
    else
      match ParseBlocks(bs[DATA_PACKET_FIXED_SIZE..], FromLE(bs[11..13]))
      case Err(e) => Err(e)
      case Ok(parsed) => Ok(DataPacket(FromLE(bs[7..11]), parsed.0))
  }

  /** One block parsed from the front, then the rest. */
  lemma ParseBlocksCons(bs: seq<byte>, n: nat, b: BlockRecord, rest: seq<BlockRecord>, used: nat)
    requires n > 0 && 3 + |b.dataPoints| <= |bs| && FromLE(bs[1..3]) == |b.dataPoints|
    requires bs[0] == b.id && bs[3..3 + |b.dataPoints|] == b.dataPoints
    requires ParseBlocks(bs[3 + |b.dataPoints|..], n - 1) == Ok((rest, used))
    ensures ParseBlocks(bs, n) == Ok(([b] + rest, 3 + |b.dataPoints| + used))
  {
  }

  lemma BlocksFitTail(blocks: seq<BlockRecord>)
    requires BlocksFit(blocks) && |blocks| > 0
    ensures BlocksFit(blocks[1..])
  {
    forall i | 0 <= i < |blocks[1..]| ensures |blocks[1..][i].dataPoints| < 0x1_0000 {
      assert blocks[1..][i] == blocks[i + 1];
    }
  }

  /** The bytes of the blocks: the first block's id, length and samples, then the rest. */
  lemma BlocksBytesCons(blocks: seq<BlockRecord>, suffix: seq<byte>)
    requires BlocksFit(blocks) && |blocks| > 0
    ensures BlocksFit(blocks[1..])
    ensures BlocksBytes(blocks) + suffix
      == [blocks[0].id] + ToLE(|blocks[0].dataPoints|, 2) + blocks[0].dataPoints + (BlocksBytes(blocks[1..]) + suffix)
  {
    BlocksFitTail(blocks);
  }

  /** Where an id, a two-byte length, samples and the rest stand once joined. */
  lemma BlockFields(id: byte, w: seq<byte>, dp: seq<byte>, t: seq<byte>)
    requires |w| == 2
    ensures var bs := [id] + w + dp + t;
      3 + |dp| <= |bs| && bs[0] == id && bs[1..3] == w && bs[3..3 + |dp|] == dp && bs[3 + |dp|..] == t
  {
    var bs := [id] + w + dp + t;
    assert bs[1..3] == w;
    assert bs[3..3 + |dp|] == dp;
    assert bs[3 + |dp|..] == t;
  }

  /** Where the first block's fields stand in the bytes of the blocks. */
  lemma BlocksLayout(blocks: seq<BlockRecord>, suffix: seq<byte>)
    requires BlocksFit(blocks) && |blocks| > 0
    ensures BlocksFit(blocks[1..])
    ensures var bs, len := BlocksBytes(blocks) + suffix, |blocks[0].dataPoints|;
      3 + len <= |bs| && bs[0] == blocks[0].id && bs[1..3] == ToLE(len, 2)
      && bs[3..3 + len] == blocks[0].dataPoints && bs[3 + len..] == BlocksBytes(blocks[1..]) + suffix
  {
    BlocksBytesCons(blocks, suffix);
    BlockFields(blocks[0].id, ToLE(|blocks[0].dataPoints|, 2), blocks[0].dataPoints, BlocksBytes(blocks[1..]) + suffix);
  }

  lemma {:induction false} BlocksRoundTrip(blocks: seq<BlockRecord>, suffix: seq<byte>)
    requires BlocksFit(blocks)
    ensures ParseBlocks(BlocksBytes(blocks) + suffix, |blocks|) == Ok((blocks, BlocksSize(blocks)))
  {
    if |blocks| > 0 {
      var b := blocks[0];
      BlocksLayout(blocks, suffix);
      LERoundTrip(|b.dataPoints|, 2);
      BlocksRoundTrip(blocks[1..], suffix);
      ParseBlocksCons(BlocksBytes(blocks) + suffix, |blocks|, b, blocks[1..], BlocksSize(blocks[1..]));
      assert [b] + blocks[1..] == blocks;
    }
  }

  /** Parsing a built data packet gives the packet back. */
  lemma DataPacketRoundTrip(p: DataPacket)
    requires Encodable(p)
    ensures ParseDataPacket(DataPacketBytes(p)) == Ok(p)
  {
    var bs := DataPacketBytes(p);
    var h := HeaderBytes(Header(DATA_PACKET, DATA_PACKET_FIXED_SIZE + BlocksSize(p.blocks)));
    var start, count, body := ToLE(p.relativeStartTimestamp, 4), ToLE(|p.blocks|, 2), BlocksBytes(p.blocks);
    assert bs == h + start + count + body;
    assert bs[4] == h[4] == DATA_PACKET;
    assert bs[7..11] == start;
    assert bs[11..13] == count;
    assert bs[DATA_PACKET_FIXED_SIZE..] == body + [];
    LERoundTrip(p.relativeStartTimestamp, 4);
    LERoundTrip(|p.blocks|, 2);
    BlocksRoundTrip(p.blocks, []);
    assert ParseBlocks(bs[DATA_PACKET_FIXED_SIZE..], FromLE(bs[11..13])) == Ok((p.blocks, BlocksSize(p.blocks)));
  }

  /** The wire form of a String packet carrying `payload`. */
  function StringPacketBytes(payload: seq<byte>): (r: seq<byte>)
    requires HEADER_SIZE + |payload| < 0x1_0000
    ensures |r| == HEADER_SIZE + |payload| && r[HEADER_SIZE..] == payload
  {
    HeaderBytes(Header(STRING_PACKET, HEADER_SIZE + |payload|)) + payload
  }

  /**
   * construct's parse of `string_packet_format` followed by the comparison in
   * `ping`: the text after the header must equal "PONG". The header must be
   * complete, its type in the Enum, and the greedy range needs one character.
   */
  function PingReplyMatches(packet: seq<byte>): (r: Result<bool>)
    ensures r.Ok? <==> |packet| > HEADER_SIZE && packet[4] in {DATA_PACKET, STRING_PACKET}
    ensures r.Ok? ==> (r.value <==> ToChars(packet[HEADER_SIZE..]) == STRING_PACKET_TYPE_PONG)
  {
    if |packet| <= HEADER_SIZE || (packet[4] != DATA_PACKET && packet[4] != STRING_PACKET) then
      Err(ConstructError)
    else
      Ok(ToChars(packet[HEADER_SIZE..]) == STRING_PACKET_TYPE_PONG)
  }

  /**
   * `ping`'s verdict once the PING command is out: a reply that did not
   * arrive in time (None) is a failure, otherwise the reply is checked.
   */
  function PingResult(reply: Option<seq<byte>>): (r: Result<bool>)
    ensures reply.None? ==> r == Ok(false)
    ensures reply.Some? ==> r == PingReplyMatches(reply.value)
  {
    match reply
    case None => Ok(false)
    case Some(packet) => PingReplyMatches(packet)
  }

  const PONG_BYTES: seq<byte> := [80, 79, 78, 71]

  lemma PongReplyAccepted()
    ensures PingResult(Some(StringPacketBytes(PONG_BYTES))) == Ok(true)
  {
    var p := StringPacketBytes(PONG_BYTES);
    assert p[HEADER_SIZE..] == PONG_BYTES;
    assert ToChars(PONG_BYTES) == STRING_PACKET_TYPE_PONG;
  }

  // --------------------------------------------------------------- commands

  /** A command line: the command and its parameters joined by single spaces, then '\r'. */
  function BuildCommandPacket(command: string, parameters: seq<string>): (r: string)
    ensures |r| >= 1 && r[|r| - 1] == '\r'
    ensures r[..|r| - 1] == Text.Join([command] + parameters, " ")
  {
    Text.Join([command] + parameters, " ") + "\r"
  }

  lemma PingPacket()
    ensures BuildCommandPacket(CMD_PING, []) == "PING\r"
  {
  }

  /** A controller that drops the '\r' and splits on spaces gets the command and parameters back. */
  lemma CommandPacketSplits(command: string, parameters: seq<string>)
    requires ' ' !in command && forall i :: 0 <= i < |parameters| ==> ' ' !in parameters[i]
    ensures var p := BuildCommandPacket(command, parameters);
      Text.Split(p[..|p| - 1], ' ') == [command] + parameters
  {
    var parts := [command] + parameters;
    assert forall i :: 0 <= i < |parts| ==> ' ' !in parts[i];
    Text.SplitJoin(parts, ' ');
  }

  /** The packet `register_input_channel` sends for a channel. */
  function RegisterInputChannelPacket(identifier: string, samplingRateText: string): (r: string)
    ensures r == CMD_CHANNEL_REGISTER + " " + identifier + " " + samplingRateText + "\r"
  {
    var parts := [CMD_CHANNEL_REGISTER] + [identifier, samplingRateText];
    assert parts[1..] == [identifier, samplingRateText] && parts[1..][1..] == [samplingRateText];
    assert Text.Join(parts[1..], " ") == identifier + " " + samplingRateText;
    assert Text.Join(parts, " ") == CMD_CHANNEL_REGISTER + " " + Text.Join(parts[1..], " ");
    BuildCommandPacket(CMD_CHANNEL_REGISTER, [identifier, samplingRateText])
  }

  // -------------------------------------------------------------- deframing

  /** What the buffer handler passed on: to the controller (Data) or to the String queue. */
  datatype Packet = Data(bytes: seq<byte>) | Str(bytes: seq<byte>)

  /**
   * Why deframing stopped. `HeaderUnreadable`: the header slice at the stale
   * offset runs past the buffer, so construct raises. `NoProgress`: a packet
   * at offset 0 declares length 0, so the same state repeats forever.
   */
  datatype Stop = HeaderShort | NoMarker | Incomplete | HeaderUnreadable | NoProgress

  /**
   * Where the header is read once the bytes before the marker are gone:
   * `AsWritten` reuses the marker's old position, `AtMarker` reads it at the
   * front of the trimmed buffer.
   */
  datatype HeaderOffset = AsWritten | AtMarker

  datatype StepResult =
    | Halt(rest: seq<byte>, stop: Stop)
    | Continue(rest: seq<byte>, dispatched: Option<Packet>)

  /** One pass of the `while True` loop of `handle_incoming_bytes`. */
  function DeframeStep(b: seq<byte>, mode: HeaderOffset): (r: StepResult)
    ensures |r.rest| <= |b|
  {
    if |b| < HEADER_SIZE then Halt(b, HeaderShort)
    else
      var packetStart := Seqs.Find(b, CONST_HEADER);
      if packetStart == -1 then Halt([], NoMarker)
      else StepAtMarker(b[packetStart..], if mode == AsWritten then packetStart else 0)
  }

  /**
   * The rest of a pass once the bytes before the marker are gone: the header
   * is read at `offset` of the trimmed buffer.
   */
  function StepAtMarker(trimmed: seq<byte>, offset: nat): (r: StepResult)
    ensures |r.rest| <= |trimmed| && r.rest == trimmed[|trimmed| - |r.rest|..]
    ensures r.Halt? ==> r.rest == trimmed
  {
    if offset + HEADER_SIZE > |trimmed| then Halt(trimmed, HeaderUnreadable)
    else
      var header := ParseHeader(trimmed[offset..offset + HEADER_SIZE]);
      var packetEnd := offset + header.packetLength;
      if |trimmed| < packetEnd then Halt(trimmed, Incomplete)
      else
        var packet := trimmed[offset..packetEnd];
        var after := trimmed[packetEnd..];
        if header.packetType == DATA_PACKET then Continue(after, Some(Data(packet)))
        else if header.packetType == STRING_PACKET then Continue(after, Some(Str(packet)))
        else Continue(after[if packetEnd <= |after| then packetEnd else |after|..], None)
  }

  datatype Deframed = Deframed(rest: seq<byte>, packets: seq<Packet>, stop: Stop)

  function OptionToSeq(p: Option<Packet>): seq<Packet>
  {
    if p.Some? then [p.value] else []
  }

  /** The whole of `handle_incoming_bytes`: final buffer, packets in dispatch order, and why it stopped. */
  function Deframe(b: seq<byte>, mode: HeaderOffset): (d: Deframed)
    ensures |d.rest| <= |b|
    decreases |b|
  {
    match DeframeStep(b, mode)
    case Halt(rest, stop) => Deframed(rest, [], stop)
    case Continue(rest, p) =>
      if |rest| == |b| then Deframed(rest, OptionToSeq(p), NoProgress)
      else
        var d := Deframe(rest, mode);
        Deframed(d.rest, OptionToSeq(p) + d.packets, d.stop)
  }

  /** One pass of the loop, deleting from the shared buffer in place. */
  method DeframeStepInPlace(buffer: ByteArray) returns (r: StepResult)
    modifies buffer
    ensures r == DeframeStep(old(buffer.contents), AsWritten)
    ensures buffer.contents == r.rest
  {
    if |buffer.contents| < HEADER_SIZE {
      return Halt(buffer.contents, HeaderShort);
    }
    var packetStart := Seqs.Find(buffer.contents, CONST_HEADER);
    if packetStart == -1 {
      buffer.contents := [];
      return Halt([], NoMarker);
    }
    buffer.contents := buffer.contents[packetStart..];
    if packetStart + HEADER_SIZE > |buffer.contents| {
      return Halt(buffer.contents, HeaderUnreadable);
    }
    var header := ParseHeader(buffer.contents[packetStart..packetStart + HEADER_SIZE]);
    var packetEnd := packetStart + header.packetLength;
    if |buffer.contents| < packetEnd {
      return Halt(buffer.contents, Incomplete);
    }
    var packet := buffer.contents[packetStart..packetEnd];
    buffer.contents := buffer.contents[packetEnd..];
    if header.packetType == DATA_PACKET {
      r := Continue(buffer.contents, Some(Data(packet)));
    } else if header.packetType == STRING_PACKET {
      r := Continue(buffer.contents, Some(Str(packet)));
    } else {
      buffer.contents := buffer.contents[if packetEnd <= |buffer.contents| then packetEnd else |buffer.contents|..];
      r := Continue(buffer.contents, None);
    }
  }

  /**
   * `handle_incoming_bytes`, in place on the shared buffer. An overfull
   * buffer requests a disconnect and parsing carries on regardless.
   */
  method HandleIncomingBytes(buffer: ByteArray, maxBytesPerRead: nat)
    returns (disconnectRequested: bool, dispatched: seq<Packet>, stop: Stop)
    modifies buffer
    ensures disconnectRequested == (|old(buffer.contents)| > maxBytesPerRead)
    ensures Deframed(buffer.contents, dispatched, stop) == Deframe(old(buffer.contents), AsWritten)
  {
    disconnectRequested := |buffer.contents| > maxBytesPerRead;
    dispatched := [];
    while true
      invariant var d := Deframe(buffer.contents, AsWritten);
        Deframe(old(buffer.contents), AsWritten) == Deframed(d.rest, dispatched + d.packets, d.stop)
      decreases |buffer.contents|
    {
      ghost var before := buffer.contents;
      var sizeBefore := |buffer.contents|;
      var r := DeframeStepInPlace(buffer);
      if r.Halt? {
        stop := r.stop;
        assert dispatched + [] == dispatched;
        return;
      }
      if |buffer.contents| == sizeBefore {
        dispatched := dispatched + OptionToSeq(r.dispatched);
        stop := NoProgress;
        return;
      }
      assert Deframe(before, AsWritten).packets
          == OptionToSeq(r.dispatched) + Deframe(buffer.contents, AsWritten).packets;
      assert dispatched + OptionToSeq(r.dispatched) + Deframe(buffer.contents, AsWritten).packets
          == dispatched + (OptionToSeq(r.dispatched) + Deframe(buffer.contents, AsWritten).packets);
      dispatched := dispatched + OptionToSeq(r.dispatched);
    }
  }

  // -------------------------------------------------------- deframing facts

  /** A buffer shorter than a header is left alone and nothing is dispatched. */
  lemma ShortBufferUntouched(b: seq<byte>, mode: HeaderOffset)
    requires |b| < HEADER_SIZE
    ensures Deframe(b, mode) == Deframed(b, [], HeaderShort)
  {
  }

  /** A buffer of a header's size or more with no marker in it is cleared. */
  lemma MarkerlessBufferCleared(b: seq<byte>, mode: HeaderOffset)
    requires |b| >= HEADER_SIZE
    requires forall i :: !Seqs.OccursAt(b, CONST_HEADER, i)
    ensures Deframe(b, mode) == Deframed([], [], NoMarker)
  {
  }

  /** The bytes before the first marker are discarded before anything else happens. */
  lemma GarbageDiscardedFirst(b: seq<byte>, mode: HeaderOffset, packetStart: nat)
    requires |b| >= HEADER_SIZE && Seqs.Find(b, CONST_HEADER) == packetStart
    ensures var r := DeframeStep(b, mode);
      |r.rest| <= |b| - packetStart && r.rest == b[|b| - |r.rest|..]
      && (r.Halt? ==> r.rest == b[packetStart..])
  {
    var trimmed := b[packetStart..];
    var r := StepAtMarker(trimmed, if mode == AsWritten then packetStart else 0);
    assert DeframeStep(b, mode) == r;
    SuffixOfSuffix(b, packetStart, |r.rest|);
  }

  lemma SuffixOfSuffix(b: seq<byte>, k: nat, n: nat)
    requires k <= |b| && n <= |b| - k
    ensures b[k..][|b| - k - n..] == b[|b| - n..]
  {
  }

  /** A frame as a controller sends it: marker, type in the Enum, and a length that covers it exactly. */
  predicate IsFrame(f: seq<byte>)
  {
    |f| >= HEADER_SIZE && f[..4] == CONST_HEADER && f[4] in {DATA_PACKET, STRING_PACKET}
    && FromLE(f[5..7]) == |f|
  }

  function AsPacket(f: seq<byte>): Packet
    requires |f| >= HEADER_SIZE
  {
    if f[4] == DATA_PACKET then Data(f) else Str(f)
  }

  /** With the marker at offset 0, an incomplete packet leaves the buffer as it is. */
  lemma IncompletePacketWaits(b: seq<byte>, mode: HeaderOffset)
    requires |b| >= HEADER_SIZE && b[..4] == CONST_HEADER && |b| < FromLE(b[5..7])
    ensures Deframe(b, mode) == Deframed(b, [], Incomplete)
  {
    assert Seqs.OccursAt(b, CONST_HEADER, 0);
    assert b[0..HEADER_SIZE][5..7] == b[5..7];
  }

  /** With a complete frame at offset 0, exactly that frame is removed and dispatched. */
  lemma FrameAtFrontDispatched(f: seq<byte>, tail: seq<byte>, mode: HeaderOffset)
    requires IsFrame(f)
    ensures DeframeStep(f + tail, mode) == Continue(tail, Some(AsPacket(f)))
  {
    var b := f + tail;
    assert b[..4] == f[..4];
    assert Seqs.OccursAt(b, CONST_HEADER, 0);
    assert Seqs.Find(b, CONST_HEADER) == 0;
    assert b[0..HEADER_SIZE] == f[..HEADER_SIZE];
    assert f[..HEADER_SIZE][5..7] == f[5..7];
    assert b[0..|f|] == f;
    assert b[|f|..] == tail;
  }

  function Concat(fs: seq<seq<byte>>): seq<byte>
  {
    if |fs| == 0 then [] else fs[0] + Concat(fs[1..])
  }

  function Packets(fs: seq<seq<byte>>): seq<Packet>
    requires forall i :: 0 <= i < |fs| ==> IsFrame(fs[i])
  {
    if |fs| == 0 then [] else assert IsFrame(fs[0]); [AsPacket(fs[0])] + Packets(fs[1..])
  }

  /** A stream of whole frames is split back into those frames, in arrival order, leaving nothing. */
  lemma {:induction false} FramesDeframed(fs: seq<seq<byte>>, mode: HeaderOffset)
    requires forall i :: 0 <= i < |fs| ==> IsFrame(fs[i])
    ensures Deframe(Concat(fs), mode) == Deframed([], Packets(fs), HeaderShort)
  {
    if |fs| > 0 {
      FrameAtFrontDispatched(fs[0], Concat(fs[1..]), mode);
      FramesDeframed(fs[1..], mode);
    }
  }

  /** Built data packets and String packets are frames. */
  lemma BuiltPacketsAreFrames(p: DataPacket, payload: seq<byte>)
    requires Encodable(p) && HEADER_SIZE + |payload| < 0x1_0000
    ensures IsFrame(DataPacketBytes(p)) && AsPacket(DataPacketBytes(p)) == Data(DataPacketBytes(p))
    ensures IsFrame(StringPacketBytes(payload))
    ensures AsPacket(StringPacketBytes(payload)) == Str(StringPacketBytes(payload))
  {
    var d := DataPacketBytes(p);
    var h := HeaderBytes(Header(DATA_PACKET, DATA_PACKET_FIXED_SIZE + BlocksSize(p.blocks)));
    assert d[..HEADER_SIZE] == h;
    assert d[5..7] == h[5..7];
    HeaderRoundTrip(Header(DATA_PACKET, DATA_PACKET_FIXED_SIZE + BlocksSize(p.blocks)));
    var s := StringPacketBytes(payload);
    var hs := HeaderBytes(Header(STRING_PACKET, HEADER_SIZE + |payload|));
    assert s[..HEADER_SIZE] == hs;
    assert s[5..7] == hs[5..7];
    HeaderRoundTrip(Header(STRING_PACKET, HEADER_SIZE + |payload|));
  }

  // ------------------------------------------- garbage before the marker

  /** One stray byte followed by a PONG reply: the reply as the controller sends it. */
  function StrayByteThenPong(): seq<byte>
  {
    [0] + StringPacketBytes(PONG_BYTES)
  }

  /**
   * As written, the header is read one byte into the PONG packet, where the
   * length field reads as 20480, so the reply is never dispatched and stays
   * buffered.
   */
  lemma StaleOffsetLosesPong()
    ensures Deframe(StrayByteThenPong(), AsWritten) == Deframed(StringPacketBytes(PONG_BYTES), [], Incomplete)
  {
    var b := StrayByteThenPong();
    var pong := StringPacketBytes(PONG_BYTES);
    assert ToLE(11, 2) == [11, 0];
    assert pong == [0xA5, 0xA5, 0xA5, 0xA5, 1, 11, 0, 80, 79, 78, 71];
    assert b == [0, 0xA5, 0xA5, 0xA5, 0xA5, 1, 11, 0, 80, 79, 78, 71];
    assert b[0..4][0] == 0;
    assert !Seqs.OccursAt(b, CONST_HEADER, 0);
    assert Seqs.OccursAt(b, CONST_HEADER, 1);
    assert Seqs.Find(b, CONST_HEADER) == 1;
    assert b[1..] == pong;
    assert pong[1..8] == [0xA5, 0xA5, 0xA5, 1, 11, 0, 80];
    assert pong[1..8][5..7] == [0, 80];
    assert FromLE([0, 80]) == 20480;
    assert ParseHeader(pong[1..8]).packetLength == 20480;
    assert DeframeStep(b, AsWritten) == Halt(pong, Incomplete);
  }

  /** Reading the header at the marker, the same input dispatches the PONG reply. */
  lemma AtMarkerKeepsPong()
    ensures Deframe(StrayByteThenPong(), AtMarker)
      == Deframed([], [Str(StringPacketBytes(PONG_BYTES))], HeaderShort)
  {
    var pong := StringPacketBytes(PONG_BYTES);
    BuiltPacketsAreFrames(DataPacket(0, []), PONG_BYTES);
    assert Concat([pong]) == pong + Concat([]);
    assert Packets([pong]) == [Str(pong)] + Packets([]);
    GarbageThenFramesDeframed([0], [pong]);
    assert StrayByteThenPong() == [0] + Concat([pong]);
  }

  /**
   * Reading the header at the marker, any run of bytes without 0xA5 in front
   * of a stream of frames is dropped and the frames are dispatched in order.
   */
  lemma GarbageThenFramesDeframed(garbage: seq<byte>, fs: seq<seq<byte>>)
    requires forall i :: 0 <= i < |garbage| ==> garbage[i] != 0xA5
    requires |fs| >= 1 && forall i :: 0 <= i < |fs| ==> IsFrame(fs[i])
    ensures Deframe(garbage + Concat(fs), AtMarker) == Deframed([], Packets(fs), HeaderShort)
  {
    var c := Concat(fs);
    if |garbage| == 0 {
      assert garbage + c == c;
      FramesDeframed(fs, AtMarker);
    } else {
      assert IsFrame(fs[0]);
      assert c == fs[0] + Concat(fs[1..]);
      FrameAtFrontDispatched(fs[0], Concat(fs[1..]), AtMarker);
      GarbageSkipped(garbage, c);
      FramesDeframed(fs[1..], AtMarker);
    }
  }

  /**
   * With the header read at the marker, a step over marker-free garbage in
   * front of a marker does what it does without the garbage.
   */
  lemma GarbageSkipped(garbage: seq<byte>, c: seq<byte>)
    requires forall i :: 0 <= i < |garbage| ==> garbage[i] != 0xA5
    requires |c| >= HEADER_SIZE && c[..4] == CONST_HEADER
    ensures DeframeStep(garbage + c, AtMarker) == DeframeStep(c, AtMarker)
  {
    MarkerAfterGarbage(garbage, c);
    assert Seqs.OccursAt(c, CONST_HEADER, 0);
    assert DeframeStep(c, AtMarker) == StepAtMarker(c[0..], 0);
    assert c[0..] == c;
  }

  /** The first marker of marker-free garbage followed by a marker is right after the garbage. */
  lemma MarkerAfterGarbage(garbage: seq<byte>, c: seq<byte>)
    requires forall i :: 0 <= i < |garbage| ==> garbage[i] != 0xA5
    requires |c| >= 4 && c[..4] == CONST_HEADER
    ensures Seqs.Find(garbage + c, CONST_HEADER) == |garbage|
    ensures (garbage + c)[|garbage|..] == c
  {
    var b := garbage + c;
    assert b[|garbage|..] == c;
    assert b[|garbage|..|garbage| + 4] == c[..4];
    assert Seqs.OccursAt(b, CONST_HEADER, |garbage|);
    forall i | 0 <= i < |garbage| ensures !Seqs.OccursAt(b, CONST_HEADER, i) {
      assert b[i] == garbage[i];
      if i + 4 <= |b| { assert b[i..i + 4][0] == b[i]; }
    }
  }
}
