/**
 * The simulated controller (instrumentino/communication/simulated_port.py):
 * on each poll it is meant to render either the PONG reply to a pending PING
 * or one data packet holding, for every input channel, the samples due in
 * this packet; commands sent to it may zero its clock or request a PONG.
 * `Simulator.GetIncomingBytes` is the poll as written, which never gets past
 * its length fix-up, and `GetIncomingBytesIntended` the poll it evidently
 * means, with the samples wrapping around the pattern.
 */
module Simulation {
  import opened Wrappers
  import opened PyNum
  import opened Bytes
  import P = ControlinoProtocol
  import Channels
  import Text

  // ------------------------------------------------ samples due per packet

  /**
   * How many samples a channel whose rate is `ratesRatio` times the packet
   * rate sends in packet number `packetIndex`: the whole part of the ratio
   * when it is at least 1, otherwise one sample on the packets where
   * index times ratio is a whole number and none (the channel is skipped) on
   * the others.
   */
  function PointsPerPacket(ratesRatio: real, packetIndex: nat): (r: Option<nat>)
    ensures ratesRatio >= 1.0 ==> r.Some? && r.value as real <= ratesRatio < r.value as real + 1.0
    ensures ratesRatio < 1.0 ==> (r.Some? <==> IsInteger(packetIndex as real * ratesRatio))
    ensures ratesRatio < 1.0 && r.Some? ==> r.value == 1
  {
    if ratesRatio >= 1.0 then Some(Trunc(ratesRatio))
    else if IsInteger(packetIndex as real * ratesRatio) then Some(1)
    else None
  }

  /** A channel at `m` times the packet rate sends exactly `m` samples in every packet. */
  lemma FastChannelEveryPacket(m: nat, packetIndex: nat)
    requires m >= 1
    ensures PointsPerPacket(m as real, packetIndex) == Some(m)
  {
    TruncOfInteger(m as real);
  }

  /**
   * A channel at 1/k of the packet rate sends one sample in every k-th
   * packet, starting with packet 0, and nothing in the others.
   */
  lemma SlowChannelEveryKthPacket(k: nat, packetIndex: nat)
    requires k >= 1
    ensures PointsPerPacket(1.0 / k as real, packetIndex) == if packetIndex % k == 0 then Some(1) else None
  {
    var ratio := 1.0 / k as real;
    var r := PointsPerPacket(ratio, packetIndex);
    if k == 1 {
      assert ratio == 1.0;
      TruncOfInteger(1.0);
      assert r == Some(1);
      assert packetIndex % k == 0;
    } else {
      ReciprocalProduct(packetIndex, k);
      var x := packetIndex as real * ratio;
      assert x == packetIndex as real / k as real;
      QuotientParts(packetIndex, k);
      assert IsInteger(x) <==> packetIndex % k == 0;
      SlowPoints(ratio, packetIndex);
    }
  }

  lemma ReciprocalProduct(n: nat, k: nat)
    requires k >= 1
    ensures n as real * (1.0 / k as real) == n as real / k as real
    ensures k >= 2 ==> 1.0 / k as real < 1.0
  {
  }

  lemma SlowPoints(ratio: real, packetIndex: nat)
    requires ratio < 1.0
    ensures PointsPerPacket(ratio, packetIndex) == if IsInteger(packetIndex as real * ratio) then Some(1) else None
  {
  }

  /** n / k is a whole number exactly when k divides n. */
  lemma QuotientParts(n: nat, k: nat)
    requires k >= 1
    ensures IsInteger(n as real / k as real) <==> n % k == 0
  {
    var q := n / k;
    var rest := n % k;
    var x := n as real / k as real;
    assert n == q * k + rest;
    FractionSplit(q, rest, k);
    assert x.Floor == q;
  }

  lemma FractionSplit(q: nat, rest: nat, k: nat)
    requires k >= 1 && rest < k
    ensures (q * k + rest) as real / k as real == q as real + rest as real / k as real
    ensures 0.0 <= rest as real / k as real < 1.0
    ensures rest as real / k as real == 0.0 <==> rest == 0
  {
    assert (q * k + rest) as real == q as real * k as real + rest as real;
  }

  /** `int(packet_index * ratio) % len(pattern)`: where in the pattern the samples start. */
  function StartIndex(ratesRatio: real, packetIndex: nat, patternLength: nat): (r: nat)
    requires patternLength >= 1
    ensures r < patternLength
  {
    Trunc(packetIndex as real * ratesRatio) % patternLength
  }

  /**
   * The samples taken as written: the slice `pattern[start:start+n]`, which
   * Python cuts short at the end of the pattern.
   */
  function SlicedPoints(pattern: seq<byte>, start: nat, n: nat): (r: seq<byte>)
    requires start <= |pattern|
    ensures |r| == if start + n <= |pattern| then n else |pattern| - start
    ensures forall j :: 0 <= j < |r| ==> r[j] == pattern[start + j]
  {
    pattern[start..if start + n <= |pattern| then start + n else |pattern|]
  }

  /** The samples as intended: `n` of them, wrapping around to the pattern's start. */
  function WrappedPoints(pattern: seq<byte>, start: nat, n: nat): (r: seq<byte>)
    requires |pattern| >= 1
    ensures |r| == n
    ensures forall j :: 0 <= j < n ==> r[j] == pattern[(start + j) % |pattern|]
  {
    seq(n, j requires 0 <= j < n => pattern[(start + j) % |pattern|])
  }

  /** Bytes of the pattern read as unsigned sample values. */
  function AsValues(bs: seq<byte>): (r: seq<nat>)
    ensures |r| == |bs| && forall j :: 0 <= j < |bs| ==> r[j] == bs[j]
  {
    seq(|bs|, j requires 0 <= j < |bs| => bs[j] as nat)
  }

  lemma BytesFitWidth(vs: seq<byte>, width: nat)
    requires width >= 1
    ensures forall j :: 0 <= j < |AsValues(vs)| ==> AsValues(vs)[j] < Pow256(width)
  {
  }

  // ------------------------------------------------------------ one block

  /**
   * The block for channel `idx` of the given rate and byte count in packet
   * `packetIndex`, or None when the channel has no sample due. In the order
   * the source evaluates them: a zero packet rate or an empty pattern
   * divides by zero, a byte count outside (0, 8] has no fitting type, a
   * sample count that the samples do not match fails the Array build, and an
   * id or length outside its field fails to build.
   */
  function SimBlock(idx: nat, samplingRate: real, dataBytes: int, packetRate: real, packetIndex: nat,
                    pattern: seq<byte>, wrap: bool): (r: Result<Option<P.BlockRecord>>)
    ensures r.Ok? && r.value.Some? ==> r.value.value.id == idx
  {
    if packetRate == 0.0 then Err(ZeroDivisionError)
    else
      var ratio := samplingRate / packetRate;
      match PointsPerPacket(ratio, packetIndex)
      case None => Ok(None)
      case Some(n) =>
        if |pattern| == 0 then Err(ZeroDivisionError)
        else
          var start := StartIndex(ratio, packetIndex, |pattern|);
          var points := if wrap then WrappedPoints(pattern, start, n) else SlicedPoints(pattern, start, n);
          match Channels.FittingWidth(dataBytes as real)
          case Err(e) => Err(e)
          case Ok(width) =>
            if |points| != n then Err(ConstructError)
            else if idx >= 256 || n * width >= 0x1_0000 then Err(ConstructError)
            else
              BytesFitWidth(points, width);
              Ok(Some(P.BlockRecord(idx, Channels.EncodeSamples(AsValues(points), width))))
  }

  /**
   * A block the simulator renders is read back by the controller as the
   * samples it took from the pattern, decoded with the channel's width.
   */
  lemma SimBlockDecodes(idx: nat, samplingRate: real, dataBytes: int, packetRate: real, packetIndex: nat,
                        pattern: seq<byte>)
    requires SimBlock(idx, samplingRate, dataBytes, packetRate, packetIndex, pattern, true).Ok?
    requires SimBlock(idx, samplingRate, dataBytes, packetRate, packetIndex, pattern, true).value.Some?
    ensures var ratio := samplingRate / packetRate;
      var n := PointsPerPacket(ratio, packetIndex).value;
      var width := Channels.FittingWidth(dataBytes as real).value;
      var b := SimBlock(idx, samplingRate, dataBytes, packetRate, packetIndex, pattern, true).value.value;
      Channels.DecodeSamples(b.dataPoints, width)
        == Ok(AsValues(WrappedPoints(pattern, StartIndex(ratio, packetIndex, |pattern|), n)))
  {
    var ratio := samplingRate / packetRate;
    var n := PointsPerPacket(ratio, packetIndex).value;
    var width := Channels.FittingWidth(dataBytes as real).value;
    var points := WrappedPoints(pattern, StartIndex(ratio, packetIndex, |pattern|), n);
    BytesFitWidth(points, width);
    assert n >= 1;
    Channels.SamplesRoundTrip(AsValues(points), width);
  }

  /**
   * With the wrap-around, a due channel's block always builds once the rates
   * and the pattern are usable, its byte count has a fitting type, its id
   * fits a byte and its samples fit the 16-bit length field.
   */
  lemma WrappedBlockBuilds(idx: nat, samplingRate: real, dataBytes: int, packetRate: real, packetIndex: nat,
                           pattern: seq<byte>)
    requires packetRate != 0.0 && |pattern| >= 1 && 0 < dataBytes <= 8 && idx < 256
    requires var n := PointsPerPacket(samplingRate / packetRate, packetIndex);
      n.Some? ==> n.value * 8 < 0x1_0000
    ensures SimBlock(idx, samplingRate, dataBytes, packetRate, packetIndex, pattern, true).Ok?
  {
    var n := PointsPerPacket(samplingRate / packetRate, packetIndex);
    if n.Some? {
      var width := Channels.FittingWidth(dataBytes as real).value;
      assert n.value * width <= n.value * 8;
    }
  }

  /** The pattern of the source: 100 samples. */
  function Pattern100(): seq<byte>
  {
    seq(100, j => 50)
  }

  /**
   * As written, a 30 Hz channel on a 10 Hz packet rate needs 3 samples in
   * packet 33, whose start is sample 99 of 100: the slice holds one sample
   * and the build fails.
   */
  lemma SlicedPointsRunOff()
    ensures SimBlock(0, 30.0, 1, 10.0, 33, Pattern100(), false) == Err(ConstructError)
    ensures SimBlock(0, 30.0, 1, 10.0, 33, Pattern100(), true).Ok?
  {
    FastChannelEveryPacket(3, 33);
    assert 30.0 / 10.0 == 3.0;
    assert 33 as real * 3.0 == 99.0;
    TruncOfInteger(99.0);
    assert StartIndex(3.0, 33, 100) == 99;
  }

  // ----------------------------------------------------------- all blocks

  /**
   * The blocks of one data packet: channels in list order, each channel's
   * block when one is due; the first failing channel fails the whole packet.
   * `wrap` chooses between the slice as written and the wrap-around.
   */
  function SimBlocks(rates: seq<real>, dataBytes: seq<int>, packetRate: real, packetIndex: nat,
                     pattern: seq<byte>, wrap: bool): (r: Result<seq<P.BlockRecord>>)
    requires |rates| == |dataBytes|
    decreases |rates|
  {
    if |rates| == 0 then Ok([])
    else
      var k := |rates| - 1;
      match SimBlocks(rates[..k], dataBytes[..k], packetRate, packetIndex, pattern, wrap)
      case Err(e) => Err(e)
      case Ok(blocks) =>
        match SimBlock(k, rates[k], dataBytes[k], packetRate, packetIndex, pattern, wrap)
        case Err(e) => Err(e)
        case Ok(None) => Ok(blocks)
        case Ok(Some(b)) => Ok(blocks + [b])
  }

  /** The positions of the channels with a sample due in the packet, in list order. */
  function Due(rates: seq<real>, packetRate: real, packetIndex: nat): (r: seq<nat>)
    requires packetRate != 0.0
    decreases |rates|
  {
    if |rates| == 0 then []
    else
      var k := |rates| - 1;
      Due(rates[..k], packetRate, packetIndex)
        + if PointsPerPacket(rates[k] / packetRate, packetIndex).Some? then [k] else []
  }

  /** Exactly the channels with a sample due appear in `Due`, each once and in increasing order. */
  lemma {:induction false} DueSpec(rates: seq<real>, packetRate: real, packetIndex: nat)
    requires packetRate != 0.0
    ensures var d := Due(rates, packetRate, packetIndex);
      (forall a, b :: 0 <= a < b < |d| ==> d[a] < d[b])
      && (forall a :: 0 <= a < |d| ==> d[a] < |rates|)
      && (forall i :: 0 <= i < |rates| ==>
            (i in d <==> PointsPerPacket(rates[i] / packetRate, packetIndex).Some?))
    decreases |rates|
  {
    if |rates| > 0 {
      var k := |rates| - 1;
      var init := rates[..k];
      DueSpec(init, packetRate, packetIndex);
      var d0 := Due(init, packetRate, packetIndex);
      var d := Due(rates, packetRate, packetIndex);
      assert forall i :: 0 <= i < k ==> init[i] == rates[i];
      assert forall a :: 0 <= a < |d0| ==> d[a] == d0[a];
      assert k !in d0;
    }
  }

  /** The ids of a list of blocks. */
  function Ids(blocks: seq<P.BlockRecord>): (r: seq<nat>)
    ensures |r| == |blocks| && forall k :: 0 <= k < |blocks| ==> r[k] == blocks[k].id
  {
    seq(|blocks|, k requires 0 <= k < |blocks| => blocks[k].id as nat)
  }

  /**
   * A rendered packet has one block per channel with a sample due, in list
   * order, and each block's id is its channel's position in the list.
   */
  lemma {:induction false} SimBlocksIds(rates: seq<real>, dataBytes: seq<int>, packetRate: real,
                                        packetIndex: nat, pattern: seq<byte>, wrap: bool)
    requires |rates| == |dataBytes| && packetRate != 0.0
    requires SimBlocks(rates, dataBytes, packetRate, packetIndex, pattern, wrap).Ok?
    ensures Ids(SimBlocks(rates, dataBytes, packetRate, packetIndex, pattern, wrap).value) == Due(rates, packetRate, packetIndex)
    decreases |rates|
  {
    if |rates| > 0 {
      var k := |rates| - 1;
      SimBlocksIds(rates[..k], dataBytes[..k], packetRate, packetIndex, pattern, wrap);
      var blocks := SimBlocks(rates[..k], dataBytes[..k], packetRate, packetIndex, pattern, wrap).value;
      var s := SimBlock(k, rates[k], dataBytes[k], packetRate, packetIndex, pattern, wrap);
      assert s.value.Some? <==> PointsPerPacket(rates[k] / packetRate, packetIndex).Some?;
      if s.value.Some? {
        assert Ids(blocks + [s.value.value]) == Ids(blocks) + [k];
      }
    }
  }

  // ----------------------------------------------------------- the packet

  /**
   * The data packet: its start is the time since t_zero in whole
   * milliseconds, which must fit the unsigned 32-bit field; the block count
   * and the total length must fit their 16-bit fields.
   */
  function SimDataPacket(blocks: seq<P.BlockRecord>, elapsed: real): (r: Result<seq<byte>>)
    ensures r.Ok? <==> (0 <= Trunc(elapsed * 1000.0) < 0x1_0000_0000 && P.BlocksFit(blocks)
                        && |blocks| < 0x1_0000 && P.DATA_PACKET_FIXED_SIZE + P.BlocksSize(blocks) < 0x1_0000)
    ensures r.Ok? ==> P.ParseDataPacket(r.value) == Ok(P.DataPacket(Trunc(elapsed * 1000.0), blocks))
    ensures r.Err? ==> r.raised == ConstructError
  {
    var ms := Trunc(elapsed * 1000.0);
    if ms < 0 || ms >= 0x1_0000_0000 || !P.BlocksFit(blocks) || |blocks| >= 0x1_0000
       || P.DATA_PACKET_FIXED_SIZE + P.BlocksSize(blocks) >= 0x1_0000 then
      Err(ConstructError)
    else
      var p := P.DataPacket(ms, blocks);
      P.DataPacketRoundTrip(p);
      Ok(P.DataPacketBytes(p))
  }

  /**
   * The first of the two builds, with `packet_length` 0, fails exactly when
   * a field other than the length does not fit: the start time, a block, or
   * the block count.
   */
  predicate FirstBuildFails(blocks: seq<P.BlockRecord>, elapsed: real)
  {
    var ms := Trunc(elapsed * 1000.0);
    ms < 0 || ms >= 0x1_0000_0000 || !P.BlocksFit(blocks) || |blocks| >= 0x1_0000
  }

  /**
   * Whatever the second build would add, a packet that passes the intended
   * rendering also passes the first build as written, so the as-written poll
   * reaches `_end` on it.
   */
  lemma IntendedPassesFirstBuild(blocks: seq<P.BlockRecord>, elapsed: real)
    requires SimDataPacket(blocks, elapsed).Ok?
    ensures !FirstBuildFails(blocks, elapsed)
  {
  }

  /** The packet start in seconds, as the controller reads it, comes within a millisecond of the elapsed time. */
  lemma StartWithinAMillisecond(elapsed: real)
    requires elapsed >= 0.0
    ensures var ms := Trunc(elapsed * 1000.0);
      ms as real / 1000.0 <= elapsed < ms as real / 1000.0 + 0.001
  {
  }

  /** The command word of a packet: the text before its last character, up to the first space. */
  function CommandOf(packet: string): (r: string)
    ensures ' ' !in r
  {
    var line := if |packet| == 0 then "" else packet[..|packet| - 1];
    Text.Split(line, ' ')[0]
  }

  /** A command built by the protocol is recognised by its command word. */
  lemma CommandOfBuilt(command: string, parameters: seq<string>)
    requires ' ' !in command && forall i :: 0 <= i < |parameters| ==> ' ' !in parameters[i]
    ensures CommandOf(P.BuildCommandPacket(command, parameters)) == command
  {
    P.CommandPacketSplits(command, parameters);
  }

  // ----------------------------------------------------------- the port

  class Simulator {
    /** `sim_data_packets_num`: data packets rendered so far. */
    var packetsRendered: nat
    var tZero: real
    var replyToPing: bool
    const pattern: seq<byte>

    constructor (pattern: seq<byte>)
      ensures this.pattern == pattern && packetsRendered == 0 && tZero == 0.0 && !replyToPing
    {
      this.pattern := pattern;
      packetsRendered := 0;
      tZero := 0.0;
      replyToPing := false;
    }

    /**
     * The loop over `input_channels` that collects this packet's blocks,
     * taking the samples by the slice as written or, with `wrap`, around the
     * pattern's end.
     */
    method RenderBlocks(rates: seq<real>, dataBytes: seq<int>, packetRate: real, wrap: bool)
      returns (r: Result<seq<P.BlockRecord>>)
      requires |rates| == |dataBytes|
      ensures r == SimBlocks(rates, dataBytes, packetRate, packetsRendered, pattern, wrap)
    {
      var blocks: seq<P.BlockRecord> := [];
      var i := 0;
      while i < |rates|
        invariant 0 <= i <= |rates|
        invariant SimBlocks(rates[..i], dataBytes[..i], packetRate, packetsRendered, pattern, wrap) == Ok(blocks)
      {
        var s := SimBlock(i, rates[i], dataBytes[i], packetRate, packetsRendered, pattern, wrap);
        assert rates[..i + 1][..i] == rates[..i] && dataBytes[..i + 1][..i] == dataBytes[..i];
        if s.Err? {
          assert SimBlocks(rates[..i + 1], dataBytes[..i + 1], packetRate, packetsRendered, pattern, wrap) == Err(s.raised);
          SimBlocksFailurePersists(rates, dataBytes, packetRate, packetsRendered, pattern, wrap, i + 1, s.raised);
          assert rates[..|rates|] == rates && dataBytes[..|dataBytes|] == dataBytes;
          return Err(s.raised);
        }
        if s.value.Some? {
          blocks := blocks + [s.value.value];
        }
        i := i + 1;
      }
      assert rates[..i] == rates && dataBytes[..i] == dataBytes;
      return Ok(blocks);
    }

    /**
     * `_get_incoming_bytes` as written. Both branches build the packet once
     * with a zero length, parse it back and read `_end` from the parsed
     * container, a field neither format declares: the PONG branch raises
     * AttributeError before clearing the flag, and the data branch fails at
     * the first channel whose slice runs short, at the first build, or else
     * at `_end`; the data-packet counter never advances.
     */
    method GetIncomingBytes(rates: seq<real>, dataBytes: seq<int>, packetRate: real, now: real)
      returns (r: Result<seq<byte>>)
      requires |rates| == |dataBytes|
      modifies this`replyToPing, this`packetsRendered
      ensures r.Err? && replyToPing == old(replyToPing) && packetsRendered == old(packetsRendered)
      ensures old(replyToPing) ==> r == Err(AttributeError)
      ensures !old(replyToPing) ==>
        r == (match SimBlocks(rates, dataBytes, packetRate, old(packetsRendered), pattern, false)
              case Err(e) => Err(e)
              case Ok(blocks) => if FirstBuildFails(blocks, now - tZero) then Err(ConstructError) else Err(AttributeError))
    {
      if replyToPing {
        return Err(AttributeError);
      }
      var blocks := RenderBlocks(rates, dataBytes, packetRate, false);
      if blocks.Err? {
        return Err(blocks.raised);
      }
      if FirstBuildFails(blocks.value, now - tZero) {
        return Err(ConstructError);
      }
      r := Err(AttributeError);
    }

    /**
     * `_get_incoming_bytes` as intended: the samples wrap around the
     * pattern and `packet_length` is the packet's total length. A pending
     * PING is answered with a PONG String packet and the flag is cleared,
     * without counting a data packet; otherwise a data packet is rendered
     * and, if that succeeds, counted.
     */
    method GetIncomingBytesIntended(rates: seq<real>, dataBytes: seq<int>, packetRate: real, now: real)
      returns (r: Result<seq<byte>>)
      requires |rates| == |dataBytes|
      modifies this`replyToPing, this`packetsRendered
      ensures old(replyToPing) ==>
        r == Ok(P.StringPacketBytes(P.PONG_BYTES)) && !replyToPing && packetsRendered == old(packetsRendered)
      ensures !old(replyToPing) ==>
        !replyToPing
        && r == (match SimBlocks(rates, dataBytes, packetRate, old(packetsRendered), pattern, true)
                 case Err(e) => Err(e)
                 case Ok(blocks) => SimDataPacket(blocks, now - tZero))
        && packetsRendered == if r.Ok? then old(packetsRendered) + 1 else old(packetsRendered)
    {
      if replyToPing {
        replyToPing := false;
        return Ok(P.StringPacketBytes(P.PONG_BYTES));
      }
      var blocks := RenderBlocks(rates, dataBytes, packetRate, true);
      if blocks.Err? {
        return Err(blocks.raised);
      }
      r := SimDataPacket(blocks.value, now - tZero);
      if r.Ok? {
        packetsRendered := packetsRendered + 1;
      }
    }

    /**
     * `handle_instrumentino_commands`: RTC:ZERO sets t_zero to now, PING
     * asks for a PONG on the next poll, anything else changes nothing.
     */
    method HandleCommand(packet: string, now: real)
      modifies this`tZero, this`replyToPing
      ensures tZero == if CommandOf(packet) == P.CMD_SET_CONTROLLER_TIME then now else old(tZero)
      ensures replyToPing == (old(replyToPing) || CommandOf(packet) == P.CMD_PING)
    {
      var command := CommandOf(packet);
      if command == P.CMD_SET_CONTROLLER_TIME {
        tZero := now;
      } else if command == P.CMD_PING {
        replyToPing := true;
      }
    }
  }

  /** Once a prefix of the channels fails, every longer prefix fails the same way. */
  lemma {:induction false} SimBlocksFailurePersists(rates: seq<real>, dataBytes: seq<int>, packetRate: real,
                                                    packetIndex: nat, pattern: seq<byte>, wrap: bool, i: nat, e: Raised)
    requires |rates| == |dataBytes| && i <= |rates|
    requires SimBlocks(rates[..i], dataBytes[..i], packetRate, packetIndex, pattern, wrap) == Err(e)
    ensures SimBlocks(rates, dataBytes, packetRate, packetIndex, pattern, wrap) == Err(e)
    decreases |rates| - i
  {
    if i < |rates| {
      assert rates[..i + 1][..i] == rates[..i] && dataBytes[..i + 1][..i] == dataBytes[..i];
      SimBlocksFailurePersists(rates, dataBytes, packetRate, packetIndex, pattern, wrap, i + 1, e);
    } else {
      assert rates[..i] == rates && dataBytes[..i] == dataBytes;
    }
  }
}
