/**
 * The controller's bookkeeping (instrumentino/controllers/__init__.py): time
 * blocks, input channel registration, routing of incoming data blocks, and
 * connect/disconnect.
 */
module Controllers {
  import opened Wrappers
  import opened Bytes
  import Seqs
  import Blocks
  import Channels
  import P = ControlinoProtocol

  // ------------------------------------------------- routing of data blocks

  /**
   * The calls `update_input_channels` makes on channels. Both methods it calls
   * are outside this model: `update_timestamp_series` is defined nowhere, and
   * `update_data_series` is called with arguments that do not match its
   * definition, so the model records each call instead of performing it.
   */
  datatype ChannelCall =
    | TimestampSeriesUpdate(channel: nat, relativeStart: real, count: nat)
    | DataSeriesUpdate(channel: nat, points: seq<nat>, difference: int)

  /** What routing one packet needs to know about the registered channels. */
  datatype Routing = Routing(rates: seq<real>, widths: seq<nat>, keys: seq<real>, relativeStart: real)
  {
    predicate Valid()
    {
      |rates| == |widths| && forall i :: 0 <= i < |widths| ==> widths[i] >= 1
    }
  }

  /**
   * Routing state: the calls made so far, the error that stopped the loop (if
   * any), and `timestamp_series_updated` as the points difference of each
   * rate already updated.
   */
  datatype Routed = Routed(calls: seq<ChannelCall>, error: Option<Raised>, updated: map<real, int>)

  /** How routing one block ended: an exception, or the calls it made and the new bookkeeping. */
  datatype StepOutcome = Failed(raised: Raised) | Stepped(step: seq<ChannelCall>, updated: map<real, int>)

  /**
   * One pass of the loop over the packet's blocks. `timestampUpdate(channel,
   * start, n)` is what `update_timestamp_series` returns. A block id past the
   * channel list raises IndexError; samples that do not decode raise
   * construct's error; a rate missing from the time block's dictionary raises
   * KeyError.
   */
  function RouteStep(ctx: Routing, timestampUpdate: (nat, real, nat) -> int, b: P.BlockRecord,
                     updated: map<real, int>): (r: StepOutcome)
    requires ctx.Valid()
    ensures r.Failed? <==> (b.id >= |ctx.rates|
                            || Channels.DecodeSamples(b.dataPoints, ctx.widths[b.id]).Err?
                            || ctx.rates[b.id] !in ctx.keys)
    ensures r.Failed? && b.id >= |ctx.rates| ==> r.raised == IndexError
    ensures r.Stepped? ==>
      var points := Channels.DecodeSamples(b.dataPoints, ctx.widths[b.id]).value;
      var rate := ctx.rates[b.id];
      (rate in updated ==> r.updated == updated && r.step == [DataSeriesUpdate(b.id, points, updated[rate])])
      && (rate !in updated ==>
            var diff := timestampUpdate(b.id, ctx.relativeStart, |points|);
            r.updated == updated[rate := diff]
            && r.step == [TimestampSeriesUpdate(b.id, ctx.relativeStart, |points|), DataSeriesUpdate(b.id, points, diff)])
  {
    if b.id >= |ctx.rates| then Failed(IndexError)
    else
      match Channels.DecodeSamples(b.dataPoints, ctx.widths[b.id])
      case Err(_) => Failed(ConstructError)
      case Ok(points) =>
        var rate := ctx.rates[b.id];
        if rate !in ctx.keys then Failed(KeyError)
        else if rate in updated then Stepped([DataSeriesUpdate(b.id, points, updated[rate])], updated)
        else
          var diff := timestampUpdate(b.id, ctx.relativeStart, |points|);
          Stepped([TimestampSeriesUpdate(b.id, ctx.relativeStart, |points|), DataSeriesUpdate(b.id, points, diff)],
                  updated[rate := diff])
  }

  /** The whole loop, from the calls and bookkeeping so far; it stops at the first exception. */
  function Route(ctx: Routing, timestampUpdate: (nat, real, nat) -> int, blocks: seq<P.BlockRecord>,
                 calls: seq<ChannelCall>, updated: map<real, int>): (r: Routed)
    requires ctx.Valid()
    decreases |blocks|
  {
    if |blocks| == 0 then Routed(calls, None, updated)
    else
      match RouteStep(ctx, timestampUpdate, blocks[0], updated)
      case Failed(e) => Routed(calls, Some(e), updated)
      case Stepped(step, updated') => Route(ctx, timestampUpdate, blocks[1..], calls + step, updated')
  }

  /** The rate of the channel a call is about. */
  function CallRate(ctx: Routing, c: ChannelCall): real
  {
    if c.channel < |ctx.rates| then ctx.rates[c.channel] else 0.0
  }

  /**
   * The routing invariant: each timestamp update is for a distinct rate that
   * is recorded, and every data update carries the difference recorded for
   * its rate.
   */
  predicate RoutingInvariant(ctx: Routing, calls: seq<ChannelCall>, updated: map<real, int>)
  {
    (forall i :: 0 <= i < |calls| ==> calls[i].channel < |ctx.rates| && CallRate(ctx, calls[i]) in updated)
    && (forall i, j :: 0 <= i < j < |calls| && calls[i].TimestampSeriesUpdate? && calls[j].TimestampSeriesUpdate?
          ==> CallRate(ctx, calls[i]) != CallRate(ctx, calls[j]))
    && (forall i :: 0 <= i < |calls| && calls[i].DataSeriesUpdate? ==>
          calls[i].difference == updated[CallRate(ctx, calls[i])])
  }

  /** A block of an already updated rate keeps the invariant. */
  lemma StepKnownRate(ctx: Routing, calls: seq<ChannelCall>, updated: map<real, int>, c: ChannelCall)
    requires RoutingInvariant(ctx, calls, updated)
    requires c.DataSeriesUpdate? && c.channel < |ctx.rates|
    requires ctx.rates[c.channel] in updated && c.difference == updated[ctx.rates[c.channel]]
    ensures RoutingInvariant(ctx, calls + [c], updated)
  {
    var calls' := calls + [c];
    assert forall i :: 0 <= i < |calls| ==> calls'[i] == calls[i];
  }

  /** A block of a rate not yet updated keeps the invariant once its rate is recorded. */
  lemma StepNewRate(ctx: Routing, calls: seq<ChannelCall>, updated: map<real, int>, t: ChannelCall, c: ChannelCall)
    requires RoutingInvariant(ctx, calls, updated)
    requires t.TimestampSeriesUpdate? && c.DataSeriesUpdate? && t.channel == c.channel && c.channel < |ctx.rates|
    requires ctx.rates[c.channel] !in updated
    ensures RoutingInvariant(ctx, calls + [t, c], updated[ctx.rates[c.channel] := c.difference])
  {
    var calls' := calls + [t, c];
    assert forall i :: 0 <= i < |calls| ==> calls'[i] == calls[i];
    assert calls'[|calls|] == t && calls'[|calls| + 1] == c;
  }

  /** Routing keeps the invariant. */
  lemma {:induction false} RouteKeepsInvariant(ctx: Routing, timestampUpdate: (nat, real, nat) -> int,
                                               blocks: seq<P.BlockRecord>, calls: seq<ChannelCall>, updated: map<real, int>)
    requires ctx.Valid() && RoutingInvariant(ctx, calls, updated)
    ensures var r := Route(ctx, timestampUpdate, blocks, calls, updated);
      RoutingInvariant(ctx, r.calls, r.updated)
    decreases |blocks|
  {
    if |blocks| > 0 {
      var s := RouteStep(ctx, timestampUpdate, blocks[0], updated);
      if s.Stepped? {
        if |s.step| == 1 {
          StepKnownRate(ctx, calls, updated, s.step[0]);
          assert calls + s.step == calls + [s.step[0]];
        } else {
          StepNewRate(ctx, calls, updated, s.step[0], s.step[1]);
          assert calls + s.step == calls + [s.step[0], s.step[1]];
        }
        RouteKeepsInvariant(ctx, timestampUpdate, blocks[1..], calls + s.step, s.updated);
      }
    }
  }

  /**
   * `update_input_channels` updates each rate's timestamp series at most once
   * per packet, and every block of a rate gets the same points difference.
   */
  lemma RouteOncePerRate(ctx: Routing, timestampUpdate: (nat, real, nat) -> int, blocks: seq<P.BlockRecord>)
    requires ctx.Valid()
    ensures var cs := Route(ctx, timestampUpdate, blocks, [], map[]).calls;
      forall i :: 0 <= i < |cs| ==> cs[i].channel < |ctx.rates|
    ensures var cs := Route(ctx, timestampUpdate, blocks, [], map[]).calls;
      forall i, j :: 0 <= i < j < |cs| && cs[i].TimestampSeriesUpdate? && cs[j].TimestampSeriesUpdate?
        ==> ctx.rates[cs[i].channel] != ctx.rates[cs[j].channel]
    ensures var cs := Route(ctx, timestampUpdate, blocks, [], map[]).calls;
      forall i, j :: (0 <= i < |cs| && 0 <= j < |cs| && cs[i].DataSeriesUpdate? && cs[j].DataSeriesUpdate?
                      && ctx.rates[cs[i].channel] == ctx.rates[cs[j].channel]) ==> cs[i].difference == cs[j].difference
  {
    RouteKeepsInvariant(ctx, timestampUpdate, blocks, [], map[]);
    var r := Route(ctx, timestampUpdate, blocks, [], map[]);
    assert forall i :: 0 <= i < |r.calls| ==> CallRate(ctx, r.calls[i]) == ctx.rates[r.calls[i].channel];
  }

  /** The data updates among the calls, in order. */
  function DataUpdates(calls: seq<ChannelCall>): (r: seq<ChannelCall>)
    ensures forall i :: 0 <= i < |r| ==> r[i].DataSeriesUpdate?
  {
    if |calls| == 0 then []
    else (if calls[0].DataSeriesUpdate? then [calls[0]] else []) + DataUpdates(calls[1..])
  }

  lemma {:induction false} DataUpdatesAppend(a: seq<ChannelCall>, b: seq<ChannelCall>)
    ensures DataUpdates(a + b) == DataUpdates(a) + DataUpdates(b)
  {
    if |a| > 0 {
      assert (a + b)[1..] == a[1..] + b;
      DataUpdatesAppend(a[1..], b);
    } else {
      assert a + b == b;
    }
  }

  /** Data update `d` is block `b`'s samples, decoded with the width of channel `b.id`, sent to that channel. */
  predicate Serves(ctx: Routing, d: ChannelCall, b: P.BlockRecord)
    requires ctx.Valid()
  {
    d.DataSeriesUpdate? && b.id < |ctx.widths| && d.channel == b.id
    && Channels.DecodeSamples(b.dataPoints, ctx.widths[b.id]) == Ok(d.points)
  }

  /** The data updates one successful step makes: exactly one, serving the block. */
  lemma StepDataUpdate(ctx: Routing, timestampUpdate: (nat, real, nat) -> int, b: P.BlockRecord, updated: map<real, int>)
    requires ctx.Valid() && RouteStep(ctx, timestampUpdate, b, updated).Stepped?
    ensures var d := DataUpdates(RouteStep(ctx, timestampUpdate, b, updated).step);
      |d| == 1 && Serves(ctx, d[0], b)
  {
    var s := RouteStep(ctx, timestampUpdate, b, updated).step;
    if |s| == 2 {
      assert s[1..][1..] == [];
      assert DataUpdates(s[1..]) == [s[1]];
    } else {
      assert s[1..] == [];
    }
  }

  /** Routing only appends to the calls made so far. */
  lemma {:induction false} RouteExtends(ctx: Routing, timestampUpdate: (nat, real, nat) -> int,
                                        blocks: seq<P.BlockRecord>, calls: seq<ChannelCall>, updated: map<real, int>)
    requires ctx.Valid()
    ensures var r := Route(ctx, timestampUpdate, blocks, calls, updated);
      |r.calls| >= |calls| && r.calls[..|calls|] == calls
    decreases |blocks|
  {
    if |blocks| > 0 {
      var s := RouteStep(ctx, timestampUpdate, blocks[0], updated);
      if s.Stepped? {
        RouteExtends(ctx, timestampUpdate, blocks[1..], calls + s.step, s.updated);
        assert (calls + s.step)[..|calls|] == calls;
      }
    }
  }

  /**
   * When routing completes, the k-th data update serves block k: the id is the
   * index in `input_channels`, and the samples are decoded with that
   * channel's width.
   */
  lemma {:induction false} RouteByIndex(ctx: Routing, timestampUpdate: (nat, real, nat) -> int,
                                        blocks: seq<P.BlockRecord>, calls: seq<ChannelCall>, updated: map<real, int>)
    requires ctx.Valid()
    ensures var r := Route(ctx, timestampUpdate, blocks, calls, updated);
      r.error.None? ==>
        |DataUpdates(r.calls)| == |DataUpdates(calls)| + |blocks|
        && forall k :: 0 <= k < |blocks| ==> Serves(ctx, DataUpdates(r.calls)[|DataUpdates(calls)| + k], blocks[k])
    decreases |blocks|
  {
    var r := Route(ctx, timestampUpdate, blocks, calls, updated);
    if |blocks| > 0 && r.error.None? {
      var s := RouteStep(ctx, timestampUpdate, blocks[0], updated);
      var c2 := calls + s.step;
      assert r == Route(ctx, timestampUpdate, blocks[1..], c2, s.updated);
      DataUpdatesAppend(calls, s.step);
      StepDataUpdate(ctx, timestampUpdate, blocks[0], updated);
      RouteByIndex(ctx, timestampUpdate, blocks[1..], c2, s.updated);
      RouteExtends(ctx, timestampUpdate, blocks[1..], c2, s.updated);
      var rest := r.calls[|c2|..];
      assert r.calls == c2 + rest;
      DataUpdatesAppend(c2, rest);
      var n := |DataUpdates(calls)|;
      assert DataUpdates(r.calls)[n] == DataUpdates(s.step)[0];
      ServesShifted(ctx, DataUpdates(r.calls), n, |DataUpdates(c2)|, blocks);
    }
  }

  /** Data updates that serve a block and then, one further on, the remaining blocks serve all of them. */
  lemma ServesShifted(ctx: Routing, du: seq<ChannelCall>, n: nat, m: nat, blocks: seq<P.BlockRecord>)
    requires ctx.Valid() && |blocks| >= 1 && n + |blocks| <= |du| && m == n + 1
    requires Serves(ctx, du[n], blocks[0])
    requires forall k :: 0 <= k < |blocks[1..]| ==> Serves(ctx, du[m + k], blocks[1..][k])
    ensures forall k :: 0 <= k < |blocks| ==> Serves(ctx, du[n + k], blocks[k])
  {
    forall k | 1 <= k < |blocks| ensures Serves(ctx, du[n + k], blocks[k]) {
      var k1 := k - 1;
      assert Serves(ctx, du[m + k1], blocks[1..][k1]);
      assert blocks[1..][k1] == blocks[k];
    }
  }

  /** Every timestamp update among the calls is given `start`. */
  predicate StartsAre(calls: seq<ChannelCall>, start: real)
  {
    forall i :: 0 <= i < |calls| && calls[i].TimestampSeriesUpdate? ==> calls[i].relativeStart == start
  }

  /** Every timestamp update gets the packet's start in seconds. */
  lemma {:induction false} RouteStartInSeconds(ctx: Routing, timestampUpdate: (nat, real, nat) -> int,
                                               blocks: seq<P.BlockRecord>, calls: seq<ChannelCall>, updated: map<real, int>)
    requires ctx.Valid()
    requires StartsAre(calls, ctx.relativeStart)
    ensures StartsAre(Route(ctx, timestampUpdate, blocks, calls, updated).calls, ctx.relativeStart)
    decreases |blocks|
  {
    if |blocks| > 0 {
      var s := RouteStep(ctx, timestampUpdate, blocks[0], updated);
      if s.Stepped? {
        var calls' := calls + s.step;
        assert StartsAre(s.step, ctx.relativeStart);
        assert forall i :: |calls| <= i < |calls'| ==> calls'[i] == s.step[i - |calls|];
        assert Route(ctx, timestampUpdate, blocks, calls, updated) == Route(ctx, timestampUpdate, blocks[1..], calls', s.updated);
        RouteStartInSeconds(ctx, timestampUpdate, blocks[1..], calls', s.updated);
      } else {
        assert Route(ctx, timestampUpdate, blocks, calls, updated).calls == calls;
      }
    }
  }

  /** An id past the registered channels is fatal: nothing after it is routed. */
  lemma UnknownIdRaises(ctx: Routing, timestampUpdate: (nat, real, nat) -> int, blocks: seq<P.BlockRecord>)
    requires ctx.Valid() && |blocks| >= 1 && blocks[0].id >= |ctx.rates|
    ensures Route(ctx, timestampUpdate, blocks, [], map[]) == Routed([], Some(IndexError), map[])
  {
  }

  // ------------------------------------------------------------ time blocks

  /** The timestamp `get_time_block` uses: a missing or zero timestamp means now. */
  function EffectiveTimestamp(timestamp: Option<real>, now: real): (r: real)
    ensures timestamp.None? || timestamp.value == 0.0 ==> r == now
    ensures timestamp.Some? && timestamp.value != 0.0 ==> r == timestamp.value
  {
    if timestamp.None? || timestamp.value == 0.0 then now else timestamp.value
  }

  /** The index of the newest block covering `ts`, or -1. */
  function LatestCovering(blocks: seq<Blocks.TimeBlock>, ts: real): (r: int)
    reads blocks
    ensures -1 <= r < |blocks|
    ensures r >= 0 ==> blocks[r].Covers(ts)
    ensures forall j :: r < j < |blocks| ==> !blocks[j].Covers(ts)
    decreases |blocks|
  {
    if |blocks| == 0 then -1
    else if blocks[|blocks| - 1].Covers(ts) then |blocks| - 1
    else LatestCovering(blocks[..|blocks| - 1], ts)
  }

  /** Events on the communication port the controller has adopted. */
  datatype PortEvent = Transmitted(packet: string) | PortDisconnected

  /** The CH:READ packets for a list of channels, in list order. */
  function RegisterEvents(chs: seq<Channels.DataChannelIn>, rateText: real -> string): (r: seq<PortEvent>)
    ensures |r| == |chs|
  {
    if |chs| == 0 then []
    else RegisterEvents(chs[..|chs| - 1], rateText) + [RegisterEvent(chs[|chs| - 1], rateText)]
  }

  /** The CH:READ packet `register_input_channel` sends for one channel. */
  function RegisterEvent(ch: Channels.DataChannelIn, rateText: real -> string): PortEvent
  {
    Transmitted(P.RegisterInputChannelPacket(ch.Identifier(), rateText(ch.samplingRate)))
  }

  /** Registering one more channel of a list adds its event last, after whatever the log held. */
  lemma RegisterEventsPrefix(log: seq<PortEvent>, chs: seq<Channels.DataChannelIn>, i: nat, rateText: real -> string)
    requires i < |chs|
    ensures log + RegisterEvents(chs[..i + 1], rateText)
         == (log + RegisterEvents(chs[..i], rateText)) + [RegisterEvent(chs[i], rateText)]
  {
    assert chs[..i + 1][..i] == chs[..i];
  }

  /** The i-th event is channel i's `CH:READ <identifier> <rate>`. */
  lemma {:induction false} RegisterEventsAt(chs: seq<Channels.DataChannelIn>, rateText: real -> string, i: nat)
    requires i < |chs|
    ensures RegisterEvents(chs, rateText)[i]
      == Transmitted(P.CMD_CHANNEL_REGISTER + " " + chs[i].Identifier() + " " + rateText(chs[i].samplingRate) + "\r")
  {
    if i < |chs| - 1 {
      RegisterEventsAt(chs[..|chs| - 1], rateText, i);
    }
  }

  /** The rates of a list of channels. */
  function RatesOf(chs: seq<Channels.DataChannelIn>): (r: seq<real>)
    ensures |r| == |chs| && forall i :: 0 <= i < |chs| ==> r[i] == chs[i].samplingRate
  {
    if |chs| == 0 then [] else [chs[0].samplingRate] + RatesOf(chs[1..])
  }

  /** The sample widths of a list of channels. */
  function WidthsOf(chs: seq<Channels.DataChannelIn>): (r: seq<nat>)
    reads chs
    ensures |r| == |chs| && forall i :: 0 <= i < |chs| ==> r[i] == chs[i].sampleWidth
  {
    if |chs| == 0 then [] else [chs[0].sampleWidth] + WidthsOf(chs[1..])
  }

  /** The loop of `update_input_channels` over a packet's blocks. */
  method RouteBlocks(ctx: Routing, timestampUpdate: (nat, real, nat) -> int, blocks: seq<P.BlockRecord>)
    returns (calls: seq<ChannelCall>, error: Option<Raised>)
    requires ctx.Valid()
    ensures Route(ctx, timestampUpdate, blocks, [], map[]).calls == calls
    ensures Route(ctx, timestampUpdate, blocks, [], map[]).error == error
  {
    var updated: map<real, int> := map[];
    calls := [];
    var i := 0;
    while i < |blocks|
      invariant 0 <= i <= |blocks|
      invariant Route(ctx, timestampUpdate, blocks, [], map[]) == Route(ctx, timestampUpdate, blocks[i..], calls, updated)
    {
      var b := blocks[i];
      assert blocks[i..][0] == b && blocks[i..][1..] == blocks[i + 1..];
      if b.id >= |ctx.rates| {
        return calls, Some(IndexError);
      }
      var decoded := Channels.DecodeSamples(b.dataPoints, ctx.widths[b.id]);
      if decoded.Err? {
        return calls, Some(ConstructError);
      }
      var points := decoded.value;
      var rate := ctx.rates[b.id];
      if rate !in ctx.keys {
        return calls, Some(KeyError);
      }
      ghost var before := updated;
      var step: seq<ChannelCall>;
      if rate in updated {
        step := [DataSeriesUpdate(b.id, points, updated[rate])];
      } else {
        var diff := timestampUpdate(b.id, ctx.relativeStart, |points|);
        step := [TimestampSeriesUpdate(b.id, ctx.relativeStart, |points|), DataSeriesUpdate(b.id, points, diff)];
        updated := updated[rate := diff];
      }
      assert RouteStep(ctx, timestampUpdate, b, before) == Stepped(step, updated);
      calls := calls + step;
      i := i + 1;
    }
    return calls, None;
  }

  class Controller {
    var timeBlocks: seq<Blocks.TimeBlock>
    var inputChannels: seq<Channels.DataChannelIn>
    var tZero: real
    const dataPacketRate: real
    /** `communication_port` is not None. */
    var portAttached: bool
    /** What was done on the adopted port, in order. */
    var portLog: seq<PortEvent>

    /** A new controller holds one time block that has not started. */
    constructor (dataPacketRate: real)
      requires dataPacketRate >= 0.0
      ensures this.dataPacketRate == dataPacketRate && tZero == 0.0
      ensures |timeBlocks| == 1 && fresh(timeBlocks[0]) && timeBlocks[0].tZero == 0.0
      ensures timeBlocks[0].tEnd == 0.0 && timeBlocks[0].seriesByRate == []
      ensures inputChannels == [] && !portAttached && portLog == []
    {
      this.dataPacketRate := dataPacketRate;
      tZero := 0.0;
      var first := new Blocks.TimeBlock(0.0);
      timeBlocks := [first];
      inputChannels := [];
      portAttached := false;
      portLog := [];
    }

    predicate Valid()
      reads this`timeBlocks, this`inputChannels, inputChannels
    {
      |timeBlocks| >= 1 && dataPacketRate >= 0.0
      && forall j :: 0 <= j < |inputChannels| ==> |inputChannels[j].dataBlocks| >= 1 && inputChannels[j].Valid()
    }

    /** A channel's newest data block. */
    static function LastOf(c: Channels.DataChannelIn): Blocks.DataBlock
      requires |c.dataBlocks| >= 1
      reads c`dataBlocks
    {
      c.dataBlocks[|c.dataBlocks| - 1]
    }

    /** The list a time block keeps for a rate; none without a block. */
    static function SeriesOf(current: Option<Blocks.TimeBlock>, rate: real): Option<Blocks.TimestampSeries>
      reads if current.Some? then {current.value} else {}
    {
      if current.Some? then current.value.SeriesFor(rate) else None
    }

    /** The newest time block covering `now`, as `get_time_block()` finds it. */
    function CurrentBlock(now: real): Option<Blocks.TimeBlock>
      reads this`timeBlocks, timeBlocks
    {
      var i := LatestCovering(timeBlocks, now);
      if i >= 0 then Some(timeBlocks[i]) else None
    }

    /**
     * How `connect` leaves a channel's newest data block: the unstarted
     * block it had, started at `t`, or a new block started at `t` that holds
     * the very timestamp list the current time block keeps for its rate.
     */
    static predicate Opened(before: Blocks.DataBlock, after: Blocks.DataBlock,
                            series: Option<Blocks.TimestampSeries>, t: real)
    {
      (before.tZero == 0.0 && after == before.(tZero := t))
      || (series.Some? && after == Blocks.DataBlock(t, 0.0, [], series.value))
    }

    /**
     * The time blocks after `connect`: the ones there were, then at most one
     * more, the last of them starting at `t`.
     */
    predicate SessionBlocks(before: seq<Blocks.TimeBlock>, t: real)
      reads this`timeBlocks, timeBlocks
    {
      |timeBlocks| >= 1
      && (|timeBlocks| == |before| || |timeBlocks| == |before| + 1)
      && timeBlocks[..|before|] == before
      && timeBlocks[|timeBlocks| - 1].tZero == t
    }

    /**
     * After `connect`: each channel's newest data block, `before[j]` when it
     * began, starts at `t`, and `Opened` relates it to `before[j]` and to the
     * current time block's list for the channel's rate.
     */
    predicate ChannelsOpened(before: seq<Blocks.DataBlock>, t: real)
      reads this`timeBlocks, timeBlocks, this`inputChannels, inputChannels
    {
      |before| == |inputChannels|
      && forall j :: 0 <= j < |inputChannels| ==>
        |inputChannels[j].dataBlocks| >= 1 && LastOf(inputChannels[j]).tZero == t
        && Opened(before[j], LastOf(inputChannels[j]), SeriesOf(CurrentBlock(t), inputChannels[j].samplingRate), t)
    }

    /** `get_time_block`: the newest time block covering the timestamp, or None. */
    method GetTimeBlock(timestamp: Option<real>, now: real) returns (r: Option<Blocks.TimeBlock>)
      ensures var i := LatestCovering(timeBlocks, EffectiveTimestamp(timestamp, now));
        r == if i >= 0 then Some(timeBlocks[i]) else None
    {
      var ts := EffectiveTimestamp(timestamp, now);
      var n := |timeBlocks|;
      while n > 0
        invariant 0 <= n <= |timeBlocks|
        invariant LatestCovering(timeBlocks, ts) == LatestCovering(timeBlocks[..n], ts)
      {
        var block := timeBlocks[n - 1];
        if block.tZero != 0.0 && block.tZero <= ts && (block.tEnd == 0.0 || block.tEnd >= ts) {
          return Some(block);
        }
        assert timeBlocks[..n][..n - 1] == timeBlocks[..n - 1];
        n := n - 1;
      }
      return None;
    }

    /** `transmit` on the protocol: the packet goes out only if a port is attached. */
    method Transmit(packet: string)
      modifies this`portLog
      ensures portLog == old(portLog) + (if portAttached then [Transmitted(packet)] else [])
    {
      if portAttached {
        portLog := portLog + [Transmitted(packet)];
      }
    }

    /**
     * The first half of `add_input_channel`: the first time block's list for
     * `rate`, made (empty) and added last if the block has none.
     */
    method RateSeries(rate: real) returns (series: Blocks.TimestampSeries)
      requires |timeBlocks| >= 1
      modifies timeBlocks[0]
      ensures var first := timeBlocks[0];
        (rate in Seqs.KeysOf(old(first.seriesByRate)) ==> first.seriesByRate == old(first.seriesByRate))
        && (rate !in Seqs.KeysOf(old(first.seriesByRate)) ==>
              |first.seriesByRate| == |old(first.seriesByRate)| + 1
              && first.seriesByRate[..|old(first.seriesByRate)|] == old(first.seriesByRate)
              && first.seriesByRate[|old(first.seriesByRate)|].0 == rate
              && fresh(first.seriesByRate[|old(first.seriesByRate)|].1)
              && first.seriesByRate[|old(first.seriesByRate)|].1.stamps == [])
        && first.SeriesFor(rate) == Some(series)
    {
      var first := timeBlocks[0];
      if first.SeriesFor(rate).None? {
        var empty := new Blocks.TimestampSeries();
        first.seriesByRate := first.seriesByRate + [(rate, empty)];
        assert Seqs.KeysOf(first.seriesByRate)[|first.seriesByRate| - 1] == rate;
      }
      series := first.SeriesFor(rate).value;
    }

    /**
     * `add_input_channel`: the rate (10 Hz unless given) gets a timestamp list
     * in the first time block if it has none; the channel gets a new data
     * block referring to that list; then its sample width is set (KeyError
     * past 8 bytes, after the data block was added) and it is registered last.
     */
    method AddInputChannel(channel: Channels.DataChannelIn, samplingRate: Option<real>) returns (r: Result<()>)
      requires Valid() && channel.Valid()
      modifies this`inputChannels, timeBlocks[0], channel`dataBlocks, channel`sampleWidth
      ensures Valid()
      ensures var rate := if samplingRate.Some? then samplingRate.value else P.DEFAULT_DATA_PACKET_RATE;
        var first := timeBlocks[0];
        (rate in Seqs.KeysOf(old(first.seriesByRate)) ==> first.seriesByRate == old(first.seriesByRate))
        && (rate !in Seqs.KeysOf(old(first.seriesByRate)) ==>
              |first.seriesByRate| == |old(first.seriesByRate)| + 1
              && first.seriesByRate[..|old(first.seriesByRate)|] == old(first.seriesByRate)
              && first.seriesByRate[|old(first.seriesByRate)|].0 == rate
              && fresh(first.seriesByRate[|old(first.seriesByRate)|].1)
              && first.seriesByRate[|old(first.seriesByRate)|].1.stamps == [])
        && first.SeriesFor(rate).Some?
        && channel.dataBlocks == old(channel.dataBlocks) + [Blocks.DataBlock(0.0, 0.0, [], first.SeriesFor(rate).value)]
      ensures Channels.FittingWidth(channel.dataBytes as real).Err? ==>
        r == Err(KeyError) && inputChannels == old(inputChannels) && channel.sampleWidth == old(channel.sampleWidth)
      ensures Channels.FittingWidth(channel.dataBytes as real).Ok? ==>
        r == Ok(()) && inputChannels == old(inputChannels) + [channel]
        && channel.sampleWidth == Channels.FittingWidth(channel.dataBytes as real).value
    {
      var rate := if samplingRate.Some? then samplingRate.value else P.DEFAULT_DATA_PACKET_RATE;
      var series := RateSeries(rate);
      channel.dataBlocks := channel.dataBlocks + [Blocks.DataBlock(0.0, 0.0, [], series)];
      match Channels.FittingWidth(channel.dataBytes as real)
      case Err(_) =>
        return Err(KeyError);
      case Ok(width) =>
        channel.sampleWidth := width;
        inputChannels := inputChannels + [channel];
        return Ok(());
    }

    /**
     * `update_input_channels(packet)`: parse the Data packet, convert its
     * start from milliseconds to seconds, take the current time block, and
     * route every block. Returns the channel calls made and the exception
     * that ended the loop, if any.
     */
    method UpdateInputChannels(packet: seq<byte>, now: real, timestampUpdate: (nat, real, nat) -> int)
      returns (calls: seq<ChannelCall>, error: Option<Raised>)
      requires Valid()
      ensures P.ParseDataPacket(packet).Err? ==> calls == [] && error == Some(ConstructError)
      ensures P.ParseDataPacket(packet).Ok? && LatestCovering(timeBlocks, now) < 0 ==>
        calls == [] && error == Some(AttributeError)
      ensures P.ParseDataPacket(packet).Ok? && LatestCovering(timeBlocks, now) >= 0 ==>
        var p := P.ParseDataPacket(packet).value;
        var block := timeBlocks[LatestCovering(timeBlocks, now)];
        var ctx := Routing(RatesOf(inputChannels), WidthsOf(inputChannels), Seqs.KeysOf(block.seriesByRate),
                           p.relativeStartTimestamp as real / 1000.0);
        ctx.Valid() && Route(ctx, timestampUpdate, p.blocks, [], map[]).calls == calls
        && Route(ctx, timestampUpdate, p.blocks, [], map[]).error == error
    {
      var parsed := P.ParseDataPacket(packet);
      if parsed.Err? {
        return [], Some(ConstructError);
      }
      var p := parsed.value;
      var relativeStart := p.relativeStartTimestamp as real / 1000.0;
      var found := GetTimeBlock(None, now);
      if found.None? {
        return [], Some(AttributeError);
      }
      var keys := Seqs.KeysOf(found.value.seriesByRate);
      var rates := RatesOf(inputChannels);
      var widths := WidthsOf(inputChannels);
      var ctx := Routing(rates, widths, keys, relativeStart);
      assert ctx.Valid() by {
      }
      assert EffectiveTimestamp(None, now) == now;
      ghost var spec := Routing(RatesOf(inputChannels), WidthsOf(inputChannels),
                                Seqs.KeysOf(timeBlocks[LatestCovering(timeBlocks, now)].seriesByRate),
                                P.ParseDataPacket(packet).value.relativeStartTimestamp as real / 1000.0);
      assert spec == ctx;
      calls, error := RouteBlocks(ctx, timestampUpdate, p.blocks);
      assert Route(spec, timestampUpdate, p.blocks, [], map[]).calls == calls;
    }

    /**
     * `disconnect`: nothing without a port; otherwise the port is told to
     * disconnect and dropped, and the current time block gets `t_end = now`.
     * The loop that follows asks each input channel for `get_data_block()`,
     * which no channel class defines: with any input channel it raises
     * AttributeError before a data block is stamped.
     */
    method Disconnect(now: real) returns (raised: Option<Raised>)
      requires Valid()
      modifies this`portAttached, this`portLog, timeBlocks`tEnd
      ensures Valid()
      ensures forall b :: b in timeBlocks ==> b.tZero == old(b.tZero) && b.seriesByRate == old(b.seriesByRate)
      ensures raised == if old(portAttached) && |inputChannels| > 0 then Some(AttributeError) else None
      ensures !old(portAttached) ==>
        !portAttached && portLog == old(portLog) && forall b :: b in timeBlocks ==> b.tEnd == old(b.tEnd)
      ensures old(portAttached) ==> !portAttached && portLog == old(portLog) + [PortDisconnected]
      ensures var i := old(LatestCovering(timeBlocks, now));
        old(portAttached) && i >= 0 ==>
          timeBlocks[i].tEnd == now && timeBlocks[i].tZero == old(timeBlocks[i].tZero)
          && forall b :: b in timeBlocks && b != timeBlocks[i] ==> b.tEnd == old(b.tEnd)
      ensures var i := old(LatestCovering(timeBlocks, now));
        old(portAttached) && i < 0 ==> forall b :: b in timeBlocks ==> b.tEnd == old(b.tEnd)
    {
      if !portAttached {
        return None;
      }
      portLog := portLog + [PortDisconnected];
      portAttached := false;
      var current := GetTimeBlock(None, now);
      if current.Some? {
        current.value.tEnd := now;
      }
      if |inputChannels| > 0 {
        return Some(AttributeError);
      }
      return None;
    }

    /**
     * The session's time block: the last block takes t_zero in place if it has
     * not started, otherwise a copy of it starting at t_zero is appended.
     */
    method StartTimeBlock()
      requires |timeBlocks| >= 1
      modifies this`timeBlocks, timeBlocks[|timeBlocks| - 1]
      ensures old(timeBlocks[|timeBlocks| - 1].tZero) == 0.0 ==>
        timeBlocks == old(timeBlocks) && timeBlocks[|timeBlocks| - 1].tZero == tZero
      ensures old(timeBlocks[|timeBlocks| - 1].tZero) != 0.0 ==>
        |timeBlocks| == |old(timeBlocks)| + 1 && timeBlocks[..|old(timeBlocks)|] == old(timeBlocks)
        && fresh(timeBlocks[|timeBlocks| - 1]) && timeBlocks[|timeBlocks| - 1].tZero == tZero
        && timeBlocks[|timeBlocks| - 1].tEnd == 0.0
    {
      var last := timeBlocks[|timeBlocks| - 1];
      if last.tZero == 0.0 {
        last.tZero := tZero;
      } else {
        var next := last.Copy(tZero);
        timeBlocks := timeBlocks + [next];
      }
    }

    /**
     * One pass of `connect`'s loop over the input channels: the channel's last
     * data block takes t_zero in place if it has not started; otherwise a new
     * data block for the current time block's list of the channel's rate is
     * appended (KeyError if that block has no such list, AttributeError if
     * there is no current block).
     */
    method OpenDataBlock(channel: Channels.DataChannelIn, current: Option<Blocks.TimeBlock>) returns (error: Option<Raised>)
      requires |channel.dataBlocks| >= 1
      modifies channel`dataBlocks
      ensures var n := |old(channel.dataBlocks)|;
        var last := old(channel.dataBlocks[n - 1]);
        (last.tZero == 0.0 ==>
           error.None? && channel.dataBlocks == old(channel.dataBlocks)[n - 1 := last.(tZero := tZero)])
        && (last.tZero != 0.0 && current.None? ==>
              error == Some(AttributeError) && channel.dataBlocks == old(channel.dataBlocks))
        && (last.tZero != 0.0 && current.Some? && current.value.SeriesFor(channel.samplingRate).None? ==>
              error == Some(KeyError) && channel.dataBlocks == old(channel.dataBlocks))
        && (last.tZero != 0.0 && current.Some? && current.value.SeriesFor(channel.samplingRate).Some? ==>
              error.None? && channel.dataBlocks
                == old(channel.dataBlocks) + [Blocks.DataBlock(tZero, 0.0, [], current.value.SeriesFor(channel.samplingRate).value)])
      ensures error.None? ==>
        Opened(old(LastOf(channel)), LastOf(channel), SeriesOf(current, channel.samplingRate), tZero)
    {
      var n := |channel.dataBlocks|;
      var last := channel.dataBlocks[n - 1];
      if last.tZero == 0.0 {
        channel.dataBlocks := channel.dataBlocks[n - 1 := last.(tZero := tZero)];
        return None;
      }
      if current.None? {
        return Some(AttributeError);
      }
      var block := Blocks.NewDataBlock(current.value.SeriesFor(channel.samplingRate), tZero);
      if block.Err? {
        return Some(KeyError);
      }
      channel.dataBlocks := channel.dataBlocks + [block.value];
      return None;
    }

    /**
     * Channel i's data block opened, with the bookkeeping of `connect`'s
     * loop: `before` holds each channel's newest data block when the loop
     * began; a channel met again (the list holds it twice) already has a
     * started block and gets a new one.
     */
    method OpenTracked(i: nat, channel: Channels.DataChannelIn, current: Option<Blocks.TimeBlock>,
                       ghost before: seq<Blocks.DataBlock>)
      returns (error: Option<Raised>)
      requires Valid() && i < |inputChannels| && inputChannels[i] == channel && tZero != 0.0
      requires |before| == |inputChannels|
      requires forall j :: 0 <= j < i ==>
        Opened(before[j], LastOf(inputChannels[j]), SeriesOf(current, inputChannels[j].samplingRate), tZero)
      requires forall j :: i <= j < |inputChannels| && inputChannels[j] !in inputChannels[..i] ==>
        LastOf(inputChannels[j]) == before[j]
      modifies channel`dataBlocks
      ensures Valid()
      ensures error.Some? ==> error.value == KeyError || error.value == AttributeError
      ensures error.None? ==> forall j :: 0 <= j <= i ==>
        Opened(before[j], LastOf(inputChannels[j]), SeriesOf(current, inputChannels[j].samplingRate), tZero)
      ensures error.None? ==> forall j :: i + 1 <= j < |inputChannels| && inputChannels[j] !in inputChannels[..i + 1] ==>
        LastOf(inputChannels[j]) == before[j]
    {
      label start:
      error := OpenDataBlock(channel, current);
      if error.None? {
        var seen := inputChannels[..i];
        assert inputChannels[..i + 1] == seen + [channel];
        forall j | 0 <= j < |inputChannels| && inputChannels[j] != channel
          ensures inputChannels[j].dataBlocks == old(inputChannels[j].dataBlocks)
        {
        }
        forall j | 0 <= j <= i
          ensures Opened(before[j], LastOf(inputChannels[j]), SeriesOf(current, inputChannels[j].samplingRate), tZero)
        {
          if inputChannels[j] == channel {
            if channel in seen {
              var k :| 0 <= k < i && seen[k] == channel;
              assert old@start(LastOf(inputChannels[k])).tZero == tZero;
            }
          }
        }
      }
    }

    /**
     * One pass of `connect`'s loop: open channel i's data block and, if that
     * did not raise, send its CH:READ.
     */
    method OpenChannel(i: nat, channel: Channels.DataChannelIn, current: Option<Blocks.TimeBlock>, rateText: real -> string,
                       ghost before: seq<Blocks.DataBlock>)
      returns (error: Option<Raised>)
      requires Valid() && i < |inputChannels| && inputChannels[i] == channel && tZero != 0.0
      requires |before| == |inputChannels|
      requires forall j :: 0 <= j < i ==>
        Opened(before[j], LastOf(inputChannels[j]), SeriesOf(current, inputChannels[j].samplingRate), tZero)
      requires forall j :: i <= j < |inputChannels| && inputChannels[j] !in inputChannels[..i] ==>
        LastOf(inputChannels[j]) == before[j]
      modifies this`portLog, channel`dataBlocks
      ensures Valid()
      ensures error.Some? ==> error.value == KeyError || error.value == AttributeError
      ensures error.None? ==> portLog == old(portLog) + [RegisterEvent(inputChannels[i], rateText)]
      ensures error.None? ==> forall j :: 0 <= j <= i ==>
        Opened(before[j], LastOf(inputChannels[j]), SeriesOf(current, inputChannels[j].samplingRate), tZero)
      ensures error.None? ==> forall j :: i + 1 <= j < |inputChannels| && inputChannels[j] !in inputChannels[..i + 1] ==>
        LastOf(inputChannels[j]) == before[j]
    {
      error := OpenTracked(i, channel, current, before);
      if error.None? {
        portLog := portLog + [RegisterEvent(channel, rateText)];
      }
    }

    /** Each channel's newest data block. */
    static function LastsOf(chs: seq<Channels.DataChannelIn>): (r: seq<Blocks.DataBlock>)
      requires forall j :: 0 <= j < |chs| ==> |chs[j].dataBlocks| >= 1
      reads set j | 0 <= j < |chs| :: chs[j]`dataBlocks
      ensures |r| == |chs| && forall j :: 0 <= j < |chs| ==> r[j] == LastOf(chs[j])
    {
      if |chs| == 0 then [] else LastsOf(chs[..|chs| - 1]) + [LastOf(chs[|chs| - 1])]
    }

    /**
     * The loop of `connect` over the input channels: open each channel's data
     * block, then send its CH:READ; `before` holds each channel's newest
     * data block when the loop begins.
     */
    method OpenDataBlocks(current: Option<Blocks.TimeBlock>, rateText: real -> string, ghost before: seq<Blocks.DataBlock>)
      returns (r: Result<bool>)
      requires Valid() && tZero != 0.0
      requires |before| == |inputChannels| && forall j :: 0 <= j < |inputChannels| ==> before[j] == LastOf(inputChannels[j])
      modifies this`portLog, inputChannels
      ensures Valid()
      ensures r.Ok? ==> r == Ok(true)
      ensures r.Err? ==> r.raised == KeyError || r.raised == AttributeError
      ensures r.Ok? ==> forall j :: 0 <= j < |inputChannels| ==>
        Opened(before[j], LastOf(inputChannels[j]), SeriesOf(current, inputChannels[j].samplingRate), tZero)
      ensures r.Ok? ==> portLog == old(portLog) + RegisterEvents(inputChannels, rateText)
    {
      var channels := inputChannels;
      var i := 0;
      while i < |channels|
        invariant 0 <= i <= |channels| && inputChannels == channels
        invariant Valid()
        invariant forall j :: 0 <= j < i ==>
          Opened(before[j], LastOf(channels[j]), SeriesOf(current, channels[j].samplingRate), tZero)
        invariant forall j :: i <= j < |channels| && channels[j] !in channels[..i] ==> LastOf(channels[j]) == before[j]
        invariant portLog == old(portLog) + RegisterEvents(channels[..i], rateText)
      {
        var error := OpenChannel(i, channels[i], current, rateText, before);
        if error.Some? {
          return Err(error.value);
        }
        RegisterEventsPrefix(old(portLog), channels, i, rateText);
        i := i + 1;
      }
      assert channels[..i] == channels;
      return Ok(true);
    }

    /** t_zero becomes now, the time block is opened and the current one looked up. */
    method StartClock(now: real) returns (current: Option<Blocks.TimeBlock>)
      requires Valid() && now > 0.0
      modifies this`tZero, this`timeBlocks, timeBlocks[|timeBlocks| - 1]
      ensures Valid() && tZero == now && current == CurrentBlock(now)
      ensures SessionBlocks(old(timeBlocks), now)
    {
      tZero := now;
      StartTimeBlock();
      current := GetTimeBlock(None, now);
      assert EffectiveTimestamp(None, now) == now;
    }

    /**
     * The part of `connect` after a successful ping: t_zero becomes now, the
     * time block is opened, then every channel's data block is opened and
     * its CH:READ sent.
     */
    method StartSession(now: real, rateText: real -> string) returns (r: Result<bool>)
      requires Valid() && now > 0.0
      modifies this`tZero, this`timeBlocks, timeBlocks[|timeBlocks| - 1], this`portLog, inputChannels
      ensures Valid() && tZero == now
      ensures SessionBlocks(old(timeBlocks), now)
      ensures r.Err? ==> r.raised == KeyError || r.raised == AttributeError
      ensures r.Ok? ==> r == Ok(true)
      ensures r.Ok? ==> ChannelsOpened(old(LastsOf(inputChannels)), now)
      ensures r.Ok? ==> portLog == old(portLog) + RegisterEvents(inputChannels, rateText)
    {
      var current := StartClock(now);
      ghost var lasts := LastsOf(inputChannels);
      assert forall j :: 0 <= j < |inputChannels| ==> lasts[j] == old(LastsOf(inputChannels))[j];
      assert lasts == old(LastsOf(inputChannels));
      r := OpenDataBlocks(current, rateText, lasts);
      assert current == CurrentBlock(now);
      if r.Ok? {
        forall j | 0 <= j < |inputChannels|
          ensures LastOf(inputChannels[j]).tZero == now
          ensures Opened(lasts[j], LastOf(inputChannels[j]), SeriesOf(CurrentBlock(now), inputChannels[j].samplingRate), now)
        {
          assert Opened(lasts[j], LastOf(inputChannels[j]), SeriesOf(current, inputChannels[j].samplingRate), tZero);
        }
      }
    }

    /**
     * `connect(port)` as written: fails without a port or when the port
     * cannot connect; then the port is adopted and pinged (a failed ping
     * disconnects the port, which stays assigned). After a successful ping
     * t_zero becomes now and the next call, `start_acquiring_data`, is a
     * method `ControlinoProtocol` does not define: AttributeError, before any
     * time block or data block is touched and before any CH:READ goes out.
     */
    method Connect(portGiven: bool, portConnects: bool, pingReply: Option<seq<byte>>, now: real)
      returns (r: Result<bool>)
      requires Valid() && now > 0.0
      modifies this`portAttached, this`portLog, this`tZero
      ensures Valid()
      ensures !(portGiven && portConnects) ==>
        r == Ok(false) && portAttached == old(portAttached) && portLog == old(portLog) && tZero == old(tZero)
      ensures portGiven && portConnects ==> portAttached
      ensures portGiven && portConnects && P.PingResult(pingReply).Err? ==>
        r == P.PingResult(pingReply) && tZero == old(tZero) && portLog == old(portLog) + [Transmitted(P.CMD_PING + "\r")]
      ensures portGiven && portConnects && P.PingResult(pingReply) == Ok(false) ==>
        r == Ok(false) && tZero == old(tZero) && portLog == old(portLog) + [Transmitted(P.CMD_PING + "\r"), PortDisconnected]
      ensures portGiven && portConnects && P.PingResult(pingReply) == Ok(true) ==>
        r == Err(AttributeError) && tZero == now && portLog == old(portLog) + [Transmitted(P.CMD_PING + "\r")]
    {
      if !portGiven || !portConnects {
        return Ok(false);
      }
      portAttached := true;
      portLog := portLog + [Transmitted(P.BuildCommandPacket(P.CMD_PING, []))];
      P.PingPacket();
      var ping := P.PingResult(pingReply);
      if ping.Err? {
        return ping;
      }
      if !ping.value {
        portLog := portLog + [PortDisconnected];
        return Ok(false);
      }
      tZero := now;
      r := Err(AttributeError);
    }

    /**
     * The `connect` evidently intended, with `start_acquiring_data` taken as
     * a call that changes nothing modelled here: the same failures as
     * `Connect`; after a successful ping t_zero is now, the last time block
     * starts at t_zero, every channel's last data block starts at t_zero, and
     * one CH:READ goes out per channel, in list order. `pingReply` is what the
     * String queue held, `rateText` renders a rate as `str` does.
     */
    method ConnectIntended(portGiven: bool, portConnects: bool, pingReply: Option<seq<byte>>, now: real,
                           rateText: real -> string) returns (r: Result<bool>)
      requires Valid() && now > 0.0
      modifies this`portAttached, this`portLog, this`tZero, this`timeBlocks, timeBlocks[|timeBlocks| - 1],
        inputChannels
      ensures Valid() && inputChannels == old(inputChannels)
      ensures !(portGiven && portConnects) ==>
        r == Ok(false) && portAttached == old(portAttached) && portLog == old(portLog)
        && tZero == old(tZero) && timeBlocks == old(timeBlocks)
      ensures portGiven && portConnects ==> portAttached
      ensures portGiven && portConnects && P.PingResult(pingReply) != Ok(true) ==>
        tZero == old(tZero) && timeBlocks == old(timeBlocks)
        && (P.PingResult(pingReply).Err? ==>
              r == P.PingResult(pingReply) && portLog == old(portLog) + [Transmitted(P.CMD_PING + "\r")])
        && (P.PingResult(pingReply) == Ok(false) ==>
              r == Ok(false) && portLog == old(portLog) + [Transmitted(P.CMD_PING + "\r"), PortDisconnected])
      ensures portGiven && portConnects && P.PingResult(pingReply) == Ok(true) ==>
        tZero == now
        && SessionBlocks(old(timeBlocks), now)
        && (r.Err? ==> r.raised == KeyError || r.raised == AttributeError)
        && (r == Ok(true) ==>
              ChannelsOpened(old(LastsOf(inputChannels)), now)
              && portLog == old(portLog) + [Transmitted(P.CMD_PING + "\r")] + RegisterEvents(inputChannels, rateText))
      ensures r.Ok? ==> r == Ok(portGiven && portConnects && P.PingResult(pingReply) == Ok(true))
    {
      if !portGiven || !portConnects {
        return Ok(false);
      }
      portAttached := true;
      portLog := portLog + [Transmitted(P.BuildCommandPacket(P.CMD_PING, []))];
      P.PingPacket();
      var ping := P.PingResult(pingReply);
      if ping.Err? {
        return ping;
      }
      if !ping.value {
        portLog := portLog + [PortDisconnected];
        return Ok(false);
      }
      ghost var lasts := LastsOf(inputChannels);
      assert forall j :: 0 <= j < |inputChannels| ==> lasts[j] == old(LastsOf(inputChannels))[j];
      assert lasts == old(LastsOf(inputChannels));
      r := StartSession(now, rateText);
    }
  }
}
