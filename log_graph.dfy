/**
 * The signal log of the wx front end (build/lib/instrumentino/log_graph.py):
 * one data list per variable and one list of sample times, kept the same
 * length by appending at most one value per variable per time tick, and the
 * schedule on which rows go to the signals file and the graph is redrawn.
 */
module LogGraph {
  import opened Wrappers

  /** `dataWriteBulk`: the rows written to the signals file at a time. */
  const DATA_WRITE_BULK: nat := 10

  /** A logged value: a number, or a digital variable's label. */
  datatype Sample = Number(x: real) | Label(s: string)

  /** The value actually logged: a missing value repeats the last one, or is 0 for an empty list. */
  function Filled(data: seq<Sample>, value: Option<Sample>): (r: Sample)
    ensures value.Some? ==> r == value.value
    ensures value.None? && |data| > 0 ==> r == data[|data| - 1]
    ensures value.None? && |data| == 0 ==> r == Number(0.0)
  {
    if value.Some? then value.value
    else if |data| > 0 then data[|data| - 1]
    else Number(0.0)
  }

  /** The indices of `[from, to)`, in order. */
  function Range(from: nat, to: nat): (r: seq<nat>)
    ensures |r| == (if from <= to then to - from else 0)
    ensures forall k :: 0 <= k < |r| ==> r[k] == from + k
    decreases if from <= to then to - from else 0
  {
    if from >= to then [] else [from] + Range(from + 1, to)
  }

  /** What `FinishUpdate` does after its append, given the new number of samples. */
  datatype Write = Header | Rows(rows: seq<nat>) | Redraw(firstTime: bool)

  /**
   * The header after the first sample, the last `dataWriteBulk` rows
   * whenever the count reaches a multiple of it, and a redraw from the
   * second sample on (the first one setting up the axes).
   */
  function FinishWrites(n: nat): seq<Write>
  {
    (if n == 1 then [Header] else [])
    + (if n % DATA_WRITE_BULK == 0 && n >= DATA_WRITE_BULK then [Rows(Range(n - DATA_WRITE_BULK, n))] else [])
    + (if n >= 2 then [Redraw(n == 2)] else [])
  }

  /** The rows `FinishUpdate` wrote while the sample count went from 1 to `n`. */
  function RowsWritten(n: nat): seq<nat>
  {
    if n == 0 then []
    else RowsWritten(n - 1)
         + (if n % DATA_WRITE_BULK == 0 then Range(n - DATA_WRITE_BULK, n) else [])
  }

  /** `StopUpdates`: the rows after the last full bulk. */
  function StopRows(n: nat): seq<nat>
  {
    Range(n - n % DATA_WRITE_BULK, n)
  }

  /**
   * Some data list holds fewer than `k` values, so reading the `k`-th value
   * from its end (`v[-k]`) raises IndexError.
   */
  predicate Short(data: map<string, seq<Sample>>, k: nat)
  {
    exists name :: name in data && |data[name]| < k
  }

  lemma {:induction false} RangeSplit(a: nat, b: nat, c: nat)
    requires a <= b <= c
    ensures Range(a, b) + Range(b, c) == Range(a, c)
  {
    assert forall k :: 0 <= k < |Range(a, b) + Range(b, c)| ==> (Range(a, b) + Range(b, c))[k] == a + k by {
      forall k | 0 <= k < |Range(a, b) + Range(b, c)|
        ensures (Range(a, b) + Range(b, c))[k] == a + k
      {
        if k >= b - a {
          assert (Range(a, b) + Range(b, c))[k] == Range(b, c)[k - (b - a)];
        }
      }
    }
  }

  /** The bulk writes cover every row up to the last multiple of `dataWriteBulk`, once and in order. */
  lemma {:induction false} BulksCoverRows(n: nat)
    ensures RowsWritten(n) == Range(0, n - n % DATA_WRITE_BULK)
  {
    if n > 0 {
      BulksCoverRows(n - 1);
      var m := n - 1;
      if n % DATA_WRITE_BULK == 0 {
        assert m - m % DATA_WRITE_BULK == n - DATA_WRITE_BULK;
        RangeSplit(0, n - DATA_WRITE_BULK, n);
      } else {
        assert m - m % DATA_WRITE_BULK == n - n % DATA_WRITE_BULK;
      }
    }
  }

  /** With the rows `StopUpdates` adds, every sample row reaches the signals file exactly once, in order. */
  lemma EveryRowWrittenOnce(n: nat)
    ensures RowsWritten(n) + StopRows(n) == Range(0, n)
  {
    BulksCoverRows(n);
    RangeSplit(0, n - n % DATA_WRITE_BULK, n);
  }

  /** `LogGraphPanel`'s data: the sample times and each variable's list of values. */
  class LogGraphPanel {
    var time: seq<real>
    var allData: map<string, seq<Sample>>

    /** Every data list is at most one value ahead of the time list. */
    ghost predicate Valid()
      reads this
    {
      forall name :: name in allData ==> |allData[name]| <= |time| + 1
    }

    /** `__init__`: an empty list for each analog and each digital variable, by full name. */
    constructor (analogNames: set<string>, digitalNames: set<string>)
      ensures time == [] && allData == map name | name in analogNames + digitalNames :: []
      ensures Valid()
    {
      time := [];
      allData := map name | name in analogNames + digitalNames :: [];
    }

    /**
     * `AddData`: the value is appended only while the list is not ahead of
     * the time list; KeyError for a name that has no list.
     */
    method AddData(name: string, value: Option<Sample>) returns (raised: Option<Raised>)
      requires Valid()
      modifies this`allData
      ensures Valid()
      ensures name !in old(allData) ==> raised == Some(KeyError) && allData == old(allData)
      ensures name in old(allData) ==> raised == None
      ensures name in old(allData) && |old(allData)[name]| <= |time| ==>
        allData == old(allData)[name := old(allData)[name] + [Filled(old(allData)[name], value)]]
      ensures name in old(allData) && |old(allData)[name]| > |time| ==> allData == old(allData)
    {
      if name !in allData {
        return Some(KeyError);
      }
      var data := allData[name];
      if |data| <= |time| {
        allData := allData[name := data + [Filled(data, value)]];
      }
      raised := None;
    }

    /**
     * `FinishUpdate`: one more sample time, and the writes due at the new
     * count. The bulk write reads the last `dataWriteBulk` values of every
     * list, so a list lagging below that raises IndexError before any row
     * is written.
     */
    method FinishUpdate(now: real) returns (writes: seq<Write>, raised: Option<Raised>)
      requires Valid()
      modifies this`time
      ensures Valid()
      ensures time == old(time) + [now]
      ensures forall name :: name in allData ==> |allData[name]| <= |time|
      ensures raised.Some? <==> |time| % DATA_WRITE_BULK == 0 && Short(allData, DATA_WRITE_BULK)
      ensures raised.Some? ==> raised == Some(IndexError) && writes == []
      ensures raised.None? ==> writes == FinishWrites(|time|)
    {
      time := time + [now];
      if |time| % DATA_WRITE_BULK == 0 && Short(allData, DATA_WRITE_BULK) {
        return [], Some(IndexError);
      }
      writes := FinishWrites(|time|);
      raised := None;
    }

    /**
     * `StopUpdates`: the rows after the last full bulk, IndexError when a
     * list holds fewer values than there are such rows.
     */
    function StopUpdates(): (r: Result<seq<nat>>)
      reads this
      ensures r.Err? <==> Short(allData, |time| % DATA_WRITE_BULK)
      ensures r.Err? ==> r.raised == IndexError
      ensures r.Ok? ==> r.value == StopRows(|time|) && forall k :: 0 <= k < |r.value| ==> r.value[k] < |time|
    {
      if Short(allData, |time| % DATA_WRITE_BULK) then Err(IndexError) else Ok(StopRows(|time|))
    }
  }
}
