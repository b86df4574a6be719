/**
 * Data channels between the PC and a controller
 * (instrumentino/channels/__init__.py): sample width, identifier, the
 * sampling-rate rule, scaling to percent and the per-channel data frame.
 */
module Channels {
  import opened Wrappers
  import opened PyNum
  import Bytes
  import Text
  import Seqs
  import AbsRatio
  import Blocks

  /**
   * `get_fitting_data_point_variable`: the byte width of the unsigned
   * big-endian integer that holds `bytesNum` bytes; outside (0, 8] the
   * dictionary has no True key and raises KeyError.
   */
  function FittingWidth(bytesNum: real): (r: Result<nat>)
    ensures r.Ok? <==> 0.0 < bytesNum <= 8.0
    ensures r.Err? ==> r.raised == KeyError
    ensures r.Ok? ==> r.value in {1, 2, 4, 8} && bytesNum <= r.value as real
    ensures r.Ok? && r.value > 1 ==> bytesNum > (r.value / 2) as real
  {
    if 0.0 < bytesNum <= 1.0 then Ok(1)
    else if 1.0 < bytesNum <= 2.0 then Ok(2)
    else if 2.0 < bytesNum <= 4.0 then Ok(4)
    else if 4.0 < bytesNum <= 8.0 then Ok(8)
    else Err(KeyError)
  }

  /** `ceil(data_bits/8)`: the fewest whole bytes that hold `dataBits` bits. */
  function DataBytes(dataBits: int): (r: int)
    requires dataBits >= 1
    ensures r >= 1 && (r - 1) * 8 < dataBits <= r * 8
  {
    Ceil(dataBits as real / 8.0)
  }

  /**
   * The checks `DataChannelIn.__init__` makes before a channel exists, giving
   * (data_bytes, sampling_period, sample width): `data_bits` and
   * `sampling_rate` are bounded properties, `abs_ratio` divides by the smaller
   * rate, and the ratio must be a whole number.
   */
  function ChannelSettings(dataBits: int, samplingRate: real, dataPacketRate: real): (r: Result<(int, real, nat)>)
    requires dataPacketRate >= 0.0
    ensures r.Ok? <==> (dataBits >= 1 && dataBits <= 64 && samplingRate > 0.0 && dataPacketRate > 0.0
                        && IsInteger(AbsRatio.AbsRatio(samplingRate, dataPacketRate).value))
    ensures r.Ok? ==> (r.value.0 == DataBytes(dataBits) && r.value.1 * samplingRate == 1.0
                       && r.value.2 == FittingWidth(r.value.0 as real).value)
    ensures r.Err? && (dataBits < 1 || samplingRate < 0.0) ==> r.raised == ValueError
    ensures r.Err? && dataBits >= 1 && samplingRate >= 0.0 && (samplingRate == 0.0 || dataPacketRate == 0.0)
      ==> r.raised == ZeroDivisionError
  {
    if dataBits < 1 || samplingRate < 0.0 then Err(ValueError)
    else
      match AbsRatio.AbsRatio(samplingRate, dataPacketRate)
      case Err(e) => Err(e)
      case Ok(ratio) =>
        if !IsInteger(ratio) then Err(ValueError)
        else
          var bytes := DataBytes(dataBits);
          match FittingWidth(bytes as real)
          case Err(e) => Err(e)
          case Ok(width) => Ok((bytes, 1.0 / samplingRate, width))
  }

  /** The examples of the controller's documentation: 20 Hz and 5 Hz fit a 10 Hz packet rate, 7 Hz does not. */
  lemma PacketRateExamples()
    ensures ChannelSettings(8, 20.0, 10.0).Ok? && ChannelSettings(8, 5.0, 10.0).Ok?
    ensures ChannelSettings(8, 7.0, 10.0) == Err(ValueError)
  {
    assert AbsRatio.AbsRatio(20.0, 10.0) == Ok(2.0);
    assert AbsRatio.AbsRatio(5.0, 10.0) == Ok(2.0);
    assert AbsRatio.AbsRatio(7.0, 10.0) == Ok(10.0 / 7.0);
    assert (10.0 / 7.0).Floor == 1;
  }

  /** A native reading as a percentage of the largest native value. */
  function Percent(x: real, maxValue: real): real
    requires maxValue > 0.0
  {
    x / maxValue * 100.0
  }

  /** `translate_incoming_data`: each reading as a percentage of the largest native value. */
  function TranslateIncomingData(data: seq<nat>, maxInputValue: real): (r: seq<real>)
    requires maxInputValue > 0.0
    ensures |r| == |data|
    ensures forall i :: 0 <= i < |data| ==> r[i] == Percent(data[i] as real, maxInputValue)
  {
    if |data| == 0 then []
    else [Percent(data[0] as real, maxInputValue)] + TranslateIncomingData(data[1..], maxInputValue)
  }

  /**
   * A percentage `p` of the native reading `x` scales back to `x`, and lies
   * within 0..100 when `x` is within the native range.
   */
  predicate ScalesBack(p: real, x: real, maxValue: real)
  {
    p * maxValue == x * 100.0 && (0.0 <= x <= maxValue ==> 0.0 <= p <= 100.0)
  }

  /** Every translated reading scales back to its native reading. */
  lemma TranslatedPercentages(data: seq<nat>, maxInputValue: real)
    requires maxInputValue > 0.0
    ensures forall i :: 0 <= i < |data| ==>
      ScalesBack(TranslateIncomingData(data, maxInputValue)[i], data[i] as real, maxInputValue)
  {
    var r := TranslateIncomingData(data, maxInputValue);
    forall i | 0 <= i < |data|
      ensures ScalesBack(r[i], data[i] as real, maxInputValue)
    {
      PercentBounds(data[i] as real, maxInputValue);
    }
  }

  lemma PercentBounds(x: real, maxValue: real)
    requires maxValue > 0.0 && x >= 0.0
    ensures ScalesBack(Percent(x, maxValue), x, maxValue)
  {
    assert (x / maxValue) * maxValue == x;
    if x <= maxValue {
      assert x / maxValue <= 1.0;
    }
  }

  /**
   * `DataChannelOut.write`: the single native value sent for a percentage,
   * truncated toward zero.
   */
  function WriteValues(percentageValue: real, maxOutputValue: real): (r: seq<int>)
    requires maxOutputValue >= 0.0
    ensures |r| == 1
    ensures 0.0 <= percentageValue <= 100.0 ==> 0 <= r[0] && r[0] as real <= maxOutputValue
    ensures percentageValue >= 0.0 ==>
      r[0] as real <= percentageValue / 100.0 * maxOutputValue < r[0] as real + 1.0
  {
    var scaled := percentageValue / 100.0 * maxOutputValue;
    if 0.0 <= percentageValue <= 100.0 then
      FractionOf(percentageValue / 100.0, maxOutputValue);
      assert 0.0 <= scaled <= maxOutputValue;
      assert Trunc(scaled) as real <= scaled;
      [Trunc(scaled)]
    else [Trunc(scaled)]
  }

  lemma FractionOf(f: real, m: real)
    requires 0.0 <= f <= 1.0 && m >= 0.0
    ensures 0.0 <= f * m <= m
  {
    assert m - f * m == (1.0 - f) * m;
  }

  /**
   * Big-endian samples of `width` bytes each, as GreedyRange(UBIntN) reads
   * them: it fails on fewer bytes than one sample, and otherwise reads as many
   * samples as whole chunks fit, ignoring a trailing partial chunk.
   */
  function DecodeSamples(bs: seq<Bytes.byte>, width: nat): (r: Result<seq<nat>>)
    requires width >= 1
    ensures r.Ok? <==> |bs| >= width
    ensures r.Err? ==> r.raised == ConstructError
    ensures r.Ok? ==> |r.value| * width <= |bs| < |r.value| * width + width
  {
    if |bs| < width then Err(ConstructError) else Ok(Chunks(bs, width))
  }

  /** Sample `i` of a successful decode is the big-endian value of the i-th chunk. */
  lemma DecodedSample(bs: seq<Bytes.byte>, width: nat, i: nat)
    requires width >= 1 && |bs| >= width && i < |DecodeSamples(bs, width).value|
    ensures 0 <= i * width && (i + 1) * width <= |bs|
    ensures DecodeSamples(bs, width).value[i] == Bytes.FromBE(bs[i * width..(i + 1) * width])
  {
    ChunkAt(bs, width, i);
  }

  /** Every whole `width`-byte chunk of `bs`, decoded; a trailing partial chunk is ignored. */
  function Chunks(bs: seq<Bytes.byte>, width: nat): (r: seq<nat>)
    requires width >= 1
    ensures |r| * width <= |bs| < |r| * width + width
    decreases |bs|
  {
    if |bs| < width then []
    else
      var rest := Chunks(bs[width..], width);
      assert (|rest| + 1) * width == |rest| * width + width;
      [Bytes.FromBE(bs[..width])] + rest
  }

  /** Chunk `i` is the big-endian value of bytes `i*width` up to `(i+1)*width`. */
  lemma {:induction false} ChunkAt(bs: seq<Bytes.byte>, width: nat, i: nat)
    requires width >= 1 && i < |Chunks(bs, width)|
    ensures 0 <= i * width && i * width + width == (i + 1) * width <= |bs|
    ensures Chunks(bs, width)[i] == Bytes.FromBE(bs[i * width..(i + 1) * width])
    decreases i
  {
    if i > 0 {
      var rest := bs[width..];
      ChunkAt(rest, width, i - 1);
      MulStep(i, width);
      SliceOfSuffix(bs, width, (i - 1) * width, width);
    }
  }

  /** A slice of a suffix is a slice of the whole sequence, shifted by the suffix's start. */
  lemma SliceOfSuffix(bs: seq<Bytes.byte>, k: nat, a: nat, n: nat)
    requires k + a + n <= |bs|
    ensures bs[k..][a..a + n] == bs[k + a..k + a + n]
  {
  }

  /** The offsets of neighbouring chunks differ by one chunk width. */
  lemma MulStep(i: nat, width: nat)
    requires i >= 1
    ensures 0 <= (i - 1) * width
    ensures (i - 1) * width + width == i * width
    ensures i * width + width == (i + 1) * width
  {
  }

  /** The bytes a controller sends for a list of samples. */
  function EncodeSamples(vs: seq<nat>, width: nat): (r: seq<Bytes.byte>)
    requires forall i :: 0 <= i < |vs| ==> vs[i] < Bytes.Pow256(width)
    ensures |r| == |vs| * width
  {
    if |vs| == 0 then [] else Bytes.ToBE(vs[0], width) + EncodeSamples(vs[1..], width)
  }

  /** Decoding what the controller encoded gives back the samples. */
  lemma {:induction false} SamplesRoundTrip(vs: seq<nat>, width: nat)
    requires width >= 1 && |vs| >= 1
    requires forall i :: 0 <= i < |vs| ==> vs[i] < Bytes.Pow256(width)
    ensures DecodeSamples(EncodeSamples(vs, width), width) == Ok(vs)
  {
    ChunksRoundTrip(vs, width);
  }

  lemma {:induction false} ChunksRoundTrip(vs: seq<nat>, width: nat)
    requires width >= 1
    requires forall i :: 0 <= i < |vs| ==> vs[i] < Bytes.Pow256(width)
    ensures Chunks(EncodeSamples(vs, width), width) == vs
  {
    if |vs| > 0 {
      var bs := EncodeSamples(vs, width);
      assert bs[..width] == Bytes.ToBE(vs[0], width);
      assert bs[width..] == EncodeSamples(vs[1..], width);
      Bytes.BERoundTrip(vs[0], width);
      ChunksRoundTrip(vs[1..], width);
    }
  }

  /** The time stamp of sample `i` of a packet: t_zero + packet offset + i sampling periods. */
  function SampleTimes(tZero: real, packetOffset: real, period: real, n: nat): (r: seq<real>)
    ensures |r| == n
    ensures forall i :: 0 <= i < n ==> r[i] == tZero + packetOffset + period * i as real
  {
    if n == 0 then [] else SampleTimes(tZero, packetOffset, period, n - 1) + [tZero + packetOffset + period * (n - 1) as real]
  }

  /** Row assignments in order: `data_frame.loc[time] = percent` for each pair. */
  function StoreRows(frame: seq<(real, real)>, times: seq<real>, values: seq<real>): (r: seq<(real, real)>)
    requires |times| == |values|
    decreases |times|
  {
    if |times| == 0 then frame
    else StoreRows(Seqs.Upsert(frame, times[0], values[0]), times[1..], values[1..])
  }

  /** Storing rows keeps the frame's earlier rows in place and never shrinks it. */
  lemma {:induction false} StoreRowsKeepsKeys(frame: seq<(real, real)>, times: seq<real>, values: seq<real>)
    requires |times| == |values|
    ensures |StoreRows(frame, times, values)| >= |frame|
    ensures forall k :: 0 <= k < |frame| ==> StoreRows(frame, times, values)[k].0 == frame[k].0
    decreases |times|
  {
    if |times| > 0 {
      var next := Seqs.Upsert(frame, times[0], values[0]);
      StoreRowsKeepsKeys(next, times[1..], values[1..]);
    }
  }

  /**
   * With distinct time stamps, each one of them ends up in the frame holding
   * its own value; a time stamp that was already a row is overwritten.
   */
  lemma {:induction false} StoreRowsStores(frame: seq<(real, real)>, times: seq<real>, values: seq<real>, i: nat)
    requires |times| == |values| && i < |times|
    requires forall a, b :: 0 <= a < b < |times| ==> times[a] != times[b]
    ensures var r := StoreRows(frame, times, values);
      Seqs.KeyIndex(r, times[i]) >= 0 && r[Seqs.KeyIndex(r, times[i])].1 == values[i]
    decreases |times|
  {
    var next := Seqs.Upsert(frame, times[0], values[0]);
    if i == 0 {
      Seqs.UpsertFinds(frame, times[0], values[0]);
      StoreRowsLeavesOthers(next, times[1..], values[1..], times[0]);
    } else {
      StoreRowsStores(next, times[1..], values[1..], i - 1);
    }
  }

  /** Rows for time stamps not among `times` are not touched. */
  lemma {:induction false} StoreRowsLeavesOthers(frame: seq<(real, real)>, times: seq<real>, values: seq<real>, t: real)
    requires |times| == |values|
    requires forall a :: 0 <= a < |times| ==> times[a] != t
    ensures Seqs.KeyIndex(StoreRows(frame, times, values), t) == Seqs.KeyIndex(frame, t)
    ensures Seqs.KeyIndex(frame, t) >= 0 ==>
      StoreRows(frame, times, values)[Seqs.KeyIndex(frame, t)] == frame[Seqs.KeyIndex(frame, t)]
    decreases |times|
  {
    if |times| > 0 {
      var next := Seqs.Upsert(frame, times[0], values[0]);
      UpsertOtherKey(frame, times[0], values[0], t);
      StoreRowsLeavesOthers(next, times[1..], values[1..], t);
    }
  }

  lemma UpsertOtherKey(frame: seq<(real, real)>, k: real, v: real, t: real)
    requires k != t
    ensures Seqs.KeyIndex(Seqs.Upsert(frame, k, v), t) == Seqs.KeyIndex(frame, t)
    ensures Seqs.KeyIndex(frame, t) >= 0 ==>
      Seqs.Upsert(frame, k, v)[Seqs.KeyIndex(frame, t)] == frame[Seqs.KeyIndex(frame, t)]
  {
    var r := Seqs.Upsert(frame, k, v);
    var i := Seqs.KeyIndex(frame, t);
    var j := Seqs.KeyIndex(r, t);
    assert forall m :: 0 <= m < |frame| ==> r[m].0 == frame[m].0;
    if i >= 0 {
      assert r[i].0 == t;
      assert j <= i;
    } else {
      assert |r| == |frame| || r[|frame|].0 == k;
    }
  }

  /** An input channel (DataChannelIn) with the fields the controller and the protocol use. */
  class DataChannelIn {
    const typeStr: string
    const number: nat
    const dataBits: int
    const dataBytes: int
    const samplingRate: real
    const samplingPeriod: real
    const maxInputValue: real
    /** Whether a variable is attached to be notified of new data. */
    const hasVariable: bool
    /** Byte width of one sample in incoming blocks (`data_points_serialized_format`). */
    var sampleWidth: nat
    var dataBlocks: seq<Blocks.DataBlock>
    /** The data frame: (time, percent) rows in insertion order, one row per time. */
    var dataFrame: seq<(real, real)>

    constructor (typeStr: string, number: nat, dataBits: int, dataBytes: int, samplingRate: real,
                 samplingPeriod: real, maxInputValue: real, hasVariable: bool, sampleWidth: nat)
      ensures this.typeStr == typeStr && this.number == number && this.dataBits == dataBits
      ensures this.dataBytes == dataBytes && this.samplingRate == samplingRate
      ensures this.samplingPeriod == samplingPeriod && this.maxInputValue == maxInputValue
      ensures this.hasVariable == hasVariable && this.sampleWidth == sampleWidth
      ensures dataBlocks == [] && dataFrame == []
    {
      this.typeStr := typeStr;
      this.number := number;
      this.dataBits := dataBits;
      this.dataBytes := dataBytes;
      this.samplingRate := samplingRate;
      this.samplingPeriod := samplingPeriod;
      this.maxInputValue := maxInputValue;
      this.hasVariable := hasVariable;
      this.sampleWidth := sampleWidth;
      dataBlocks := [];
      dataFrame := [];
    }

    /**
     * `DataChannelIn(**kwargs)`: the channel exists only if the settings pass
     * the checks of `__init__`, with the derived byte count, period and width.
     */
    static method Create(typeStr: string, number: nat, dataBits: int, samplingRate: real,
                         dataPacketRate: real, maxInputValue: real, hasVariable: bool)
      returns (r: Result<DataChannelIn>)
      requires dataPacketRate >= 0.0 && maxInputValue > 0.0
      ensures ChannelSettings(dataBits, samplingRate, dataPacketRate).Err? ==>
        r == Err(ChannelSettings(dataBits, samplingRate, dataPacketRate).raised)
      ensures ChannelSettings(dataBits, samplingRate, dataPacketRate).Ok? ==>
        (var s := ChannelSettings(dataBits, samplingRate, dataPacketRate).value;
         r.Ok? && fresh(r.value) && r.value.Valid()
         && r.value.typeStr == typeStr && r.value.number == number && r.value.dataBits == dataBits
         && r.value.dataBytes == s.0 && r.value.samplingPeriod == s.1 && r.value.sampleWidth == s.2
         && r.value.samplingRate == samplingRate && r.value.maxInputValue == maxInputValue
         && r.value.hasVariable == hasVariable && r.value.dataBlocks == [] && r.value.dataFrame == [])
    {
      match ChannelSettings(dataBits, samplingRate, dataPacketRate)
      case Err(e) => return Err(e);
      case Ok(s) =>
        var c := new DataChannelIn(typeStr, number, dataBits, s.0, samplingRate, s.1, maxInputValue, hasVariable, s.2);
        return Ok(c);
    }

    predicate Valid()
      reads this`sampleWidth
    {
      maxInputValue > 0.0 && samplingRate > 0.0 && samplingPeriod * samplingRate == 1.0 && sampleWidth >= 1
    }

    /** `get_identifier`: the type string followed by the decimal channel number. */
    function Identifier(): (r: string)
      ensures |r| > |typeStr| && r[..|typeStr|] == typeStr
      ensures Text.AllDigits(r[|typeStr|..]) && Text.DigitsValue(r[|typeStr|..]) == number
    {
      var digits := Text.NatToString(number);
      Text.DigitsOfNat(number);
      assert (typeStr + digits)[|typeStr|..] == digits;
      typeStr + digits
    }

    /** The loop of `update_data_series`: `data_frame.loc[time] = percent`, pair by pair. */
    method StoreSamples(times: seq<real>, percents: seq<real>)
      requires |times| == |percents|
      modifies this`dataFrame
      ensures dataFrame == StoreRows(old(dataFrame), times, percents)
    {
      var i := 0;
      while i < |times|
        invariant 0 <= i <= |times|
        invariant StoreRows(old(dataFrame), times, percents) == StoreRows(dataFrame, times[i..], percents[i..])
      {
        assert times[i..][1..] == times[i + 1..] && percents[i..][1..] == percents[i + 1..];
        dataFrame := Seqs.Upsert(dataFrame, times[i], percents[i]);
        i := i + 1;
      }
    }

    /**
     * `update_data_series(packet_timedelta, raw_data_points)` as written:
     * `controller.t_zero` is a number, so the first time stamp adds a number
     * to a `timedelta` and raises TypeError as soon as there is a reading,
     * before any row is stored. Without readings nothing is stored and the
     * attached variable is told the percent of the frame's last row, which
     * raises IndexError on an empty frame.
     */
    method UpdateDataSeries(controllerTZero: real, packetTimedelta: real, rawDataPoints: seq<nat>)
      returns (notified: Result<Option<real>>)
      requires Valid()
      ensures |rawDataPoints| > 0 ==> notified == Err(TypeError)
      ensures |rawDataPoints| == 0 && !hasVariable ==> notified == Ok(None)
      ensures |rawDataPoints| == 0 && hasVariable && |dataFrame| == 0 ==> notified == Err(IndexError)
      ensures |rawDataPoints| == 0 && hasVariable && |dataFrame| > 0 ==>
        notified == Ok(Some(dataFrame[|dataFrame| - 1].1))
    {
      if |rawDataPoints| > 0 {
        return Err(TypeError);
      }
      if !hasVariable {
        return Ok(None);
      }
      if |dataFrame| == 0 {
        return Err(IndexError);
      }
      return Ok(Some(dataFrame[|dataFrame| - 1].1));
    }

    /**
     * The `update_data_series` evidently intended, with the time stamps as
     * seconds: each reading, scaled to percent, is written at its sample
     * time; the attached variable is then told the percent of the frame's
     * last row.
     */
    method UpdateDataSeriesIntended(controllerTZero: real, packetTimedelta: real, rawDataPoints: seq<nat>)
      returns (notified: Result<Option<real>>)
      requires Valid()
      modifies this`dataFrame
      ensures var times := SampleTimes(controllerTZero, packetTimedelta, samplingPeriod, |rawDataPoints|);
        dataFrame == StoreRows(old(dataFrame), times, TranslateIncomingData(rawDataPoints, maxInputValue))
      ensures !hasVariable ==> notified == Ok(None)
      ensures hasVariable && |dataFrame| == 0 ==> notified == Err(IndexError)
      ensures hasVariable && |dataFrame| > 0 ==> notified == Ok(Some(dataFrame[|dataFrame| - 1].1))
    {
      var times := SampleTimes(controllerTZero, packetTimedelta, samplingPeriod, |rawDataPoints|);
      var percents := TranslateIncomingData(rawDataPoints, maxInputValue);
      StoreSamples(times, percents);
      if !hasVariable {
        return Ok(None);
      }
      if |dataFrame| == 0 {
        return Err(IndexError);
      }
      return Ok(Some(dataFrame[|dataFrame| - 1].1));
    }
  }

  /** Sample times of one packet are distinct when the sampling period is positive. */
  lemma SampleTimesDistinct(tZero: real, packetOffset: real, period: real, n: nat)
    requires period > 0.0
    ensures var ts := SampleTimes(tZero, packetOffset, period, n);
      forall a, b :: 0 <= a < b < n ==> ts[a] < ts[b]
  {
    var ts := SampleTimes(tZero, packetOffset, period, n);
    forall a, b | 0 <= a < b < n ensures ts[a] < ts[b] {
      ScaleIncreasing(period, a, b);
      assert ts[a] == tZero + packetOffset + period * a as real;
      assert ts[b] == tZero + packetOffset + period * b as real;
    }
  }

  /** A positive period times a larger count is larger. */
  lemma ScaleIncreasing(period: real, a: int, b: int)
    requires period > 0.0 && a < b
    ensures period * a as real < period * b as real
  {
    var d := (b - a) as real;
    assert d >= 1.0;
    assert period * d > 0.0;
    assert period * b as real == period * a as real + period * d;
  }
}
