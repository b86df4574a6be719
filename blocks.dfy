/**
 * Blocks of uninterrupted recording (instrumentino/channels/blocks.py). A
 * time block holds one timestamp list per sampling rate; a channel's data
 * block points at one of those lists, shared and not copied.
 */
module Blocks {
  import opened Wrappers
  import Seqs

  /** A Python list of timestamps that several data blocks may reference. */
  class TimestampSeries {
    var stamps: seq<real>

    constructor ()
      ensures stamps == []
    {
      stamps := [];
    }
  }

  /**
   * A time block; t_zero = 0 means "not started yet", t_end = 0 "not ended".
   * The rate-to-list dictionary is a list of (rate, list) entries with
   * distinct rates.
   */
  class TimeBlock {
    var tZero: real
    var tEnd: real
    var seriesByRate: seq<(real, TimestampSeries)>

    /** `TimeBlock(t_zero=...)`; a block made without arguments has t_zero = 0. */
    constructor (tZero: real)
      ensures this.tZero == tZero && tEnd == 0.0 && seriesByRate == []
    {
      this.tZero := tZero;
      tEnd := 0.0;
      seriesByRate := [];
    }

    /** The block is started, started no later than `ts`, and not ended before `ts`. */
    predicate Covers(ts: real)
      reads this
    {
      tZero != 0.0 && tZero <= ts && (tEnd == 0.0 || tEnd >= ts)
    }

    /** `timestamp_series_dict[rate]`, or None where the key is missing. */
    function SeriesFor(rate: real): Option<TimestampSeries>
      reads this
    {
      var i := Seqs.KeyIndex(seriesByRate, rate);
      if i >= 0 then Some(seriesByRate[i].1) else None
    }

    /** A list is found exactly for the rates that are keys of the block. */
    lemma SeriesForKeys(rate: real)
      ensures SeriesFor(rate).Some? <==> rate in Seqs.KeysOf(seriesByRate)
    {
      if Seqs.KeyIndex(seriesByRate, rate) < 0 {
        assert forall j :: 0 <= j < |seriesByRate| ==> Seqs.KeysOf(seriesByRate)[j] != rate;
      }
    }

    /** A fresh block starting at `timestamp` with the same rate keys, each with a new empty list. */
    method Copy(timestamp: real) returns (b: TimeBlock)
      ensures fresh(b) && b.tZero == timestamp && b.tEnd == 0.0
      ensures Seqs.KeysOf(b.seriesByRate) == Seqs.KeysOf(seriesByRate)
      ensures forall i :: 0 <= i < |b.seriesByRate| ==>
        fresh(b.seriesByRate[i].1) && b.seriesByRate[i].1.stamps == []
      ensures forall i, j :: 0 <= i < j < |b.seriesByRate| ==> b.seriesByRate[i].1 != b.seriesByRate[j].1
      ensures seriesByRate == old(seriesByRate)
      ensures forall i :: 0 <= i < |seriesByRate| ==>
        seriesByRate[i].1.stamps == old(seriesByRate[i].1.stamps)
    {
      b := new TimeBlock(timestamp);
      var n := 0;
      while n < |seriesByRate|
        invariant 0 <= n <= |seriesByRate|
        invariant fresh(b) && b.tZero == timestamp && b.tEnd == 0.0
        invariant |b.seriesByRate| == n
        invariant forall i :: 0 <= i < n ==> b.seriesByRate[i].0 == seriesByRate[i].0
        invariant forall i :: 0 <= i < n ==> fresh(b.seriesByRate[i].1) && b.seriesByRate[i].1.stamps == []
        invariant forall i, j :: 0 <= i < j < n ==> b.seriesByRate[i].1 != b.seriesByRate[j].1
      {
        var series := new TimestampSeries();
        b.seriesByRate := b.seriesByRate + [(seriesByRate[n].0, series)];
        n := n + 1;
      }
    }
  }

  /**
   * A channel's block of data; `timestampSeries` is the controller's list for
   * the channel's rate. A data block belongs to exactly one channel's list,
   * so it is kept as a value there.
   */
  datatype DataBlock = DataBlock(tZero: real, tEnd: real, dataSeries: seq<real>, timestampSeries: TimestampSeries)

  /**
   * `DataBlock(**kwargs)`: without a `timestamp_series` keyword it raises
   * TypeError; otherwise the block refers to the very list it was given and
   * starts empty and not ended.
   */
  function NewDataBlock(timestampSeries: Option<TimestampSeries>, tZero: real): (r: Result<DataBlock>)
    ensures r.Err? <==> timestampSeries.None?
    ensures r.Err? ==> r.raised == TypeError
    ensures r.Ok? ==>
      r.value.timestampSeries == timestampSeries.value && r.value.tZero == tZero
      && r.value.tEnd == 0.0 && r.value.dataSeries == []
  {
    match timestampSeries
    case None => Err(TypeError)
    case Some(series) => Ok(DataBlock(tZero, 0.0, [], series))
  }
}
