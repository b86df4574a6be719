/**
 * The signal log of the later wx front end
 * (instrumentino/build/lib/instrumentino/log_graph.py): as in `LogGraph`, one
 * real data list per variable kept level with the time list, and besides it
 * the plotted series in percent, where a variable whose range crosses zero
 * is drawn as two unipolar series, `_POS` and `_NEG`.
 */
module LogGraphSplit {
  import opened Wrappers
  import opened PyNum
  import opened LogGraph

  /** `hasBipolarRange`: the product of the ends is negative. */
  predicate Bipolar(range: (real, real))
  {
    range.0 * range.1 < 0.0
  }

  /** A range is bipolar exactly when its ends have strictly opposite signs. */
  lemma BipolarIsOppositeSigns(range: (real, real))
    ensures Bipolar(range) <==> (range.0 < 0.0 < range.1) || (range.1 < 0.0 < range.0)
  {
    var a, b := range.0, range.1;
    if a < 0.0 && b < 0.0 {
      assert a * b == (-a) * (-b);
    } else if a >= 0.0 && b >= 0.0 {
      assert a * b >= 0.0;
    } else if a < 0.0 {
      assert (-a) * b > 0.0 || b == 0.0;
    } else {
      assert a * (-b) > 0.0 || a == 0.0;
    }
  }

  /** The distance of `value` from the edge, over the width. */
  function Percent(distance: real, width: real): real
    requires width != 0.0
  {
    distance / width * 100.0
  }

  /**
   * `NormalizePositiveValue`: the distance of the value from the first end
   * when that end is not negative, else from the second, as a percentage of
   * the range's width; ZeroDivisionError for a range of width 0.
   */
  function Normalize(value: real, range: (real, real)): (r: Result<real>)
    ensures r.Err? <==> range.0 == range.1
    ensures r.Err? ==> r.raised == ZeroDivisionError
    ensures r.Ok? ==> r.value >= 0.0
  {
    var edge := if range.0 >= 0.0 then range.0 else range.1;
    if Abs(range.1 - range.0) == 0.0 then Err(ZeroDivisionError)
    else Ok(Percent(Abs(value - edge), Abs(range.1 - range.0)))
  }

  lemma PercentBounds(distance: real, width: real)
    requires 0.0 <= distance <= width && width > 0.0
    ensures 0.0 <= Percent(distance, width) <= 100.0
    ensures distance == 0.0 ==> Percent(distance, width) == 0.0
    ensures distance == width ==> Percent(distance, width) == 100.0
  {
    var f := distance / width;
    assert f * width == distance;
  }

  /**
   * On an increasing range on one side of zero the end nearer zero maps to
   * 0, the other end to 100, and every value in between to a percentage.
   */
  lemma NormalizeEnds(range: (real, real), value: real)
    requires range.0 < range.1 && !Bipolar(range)
    requires range.0 <= value <= range.1
    ensures var near := if range.0 >= 0.0 then range.0 else range.1;
      var far := if range.0 >= 0.0 then range.1 else range.0;
      Normalize(near, range) == Ok(0.0) && Normalize(far, range) == Ok(100.0)
      && 0.0 <= Normalize(value, range).value <= 100.0
  {
    BipolarIsOppositeSigns(range);
    var w := range.1 - range.0;
    PercentBounds(0.0, w);
    PercentBounds(w, w);
    if range.0 >= 0.0 {
      PercentBounds(value - range.0, w);
    } else {
      PercentBounds(range.1 - value, w);
    }
  }

  /** A variable the log shows: analog with its range, or digital. */
  datatype LogVar = AnalogVar(name: string, range: (real, real)) | DigitalVar(name: string)

  function PosName(name: string): string { name + "_POS" }

  function NegName(name: string): string { name + "_NEG" }

  /** The two halves of a split variable have different names. */
  lemma HalvesDiffer(name: string)
    ensures PosName(name) != NegName(name)
  {
    assert PosName(name)[|name| + 1] == 'P';
    assert NegName(name)[|name| + 1] == 'N';
  }

  /** `realAnalogData`'s ranges, by name. */
  function AnalogRanges(vars: seq<LogVar>): map<string, (real, real)>
  {
    if |vars| == 0 then map[]
    else
      var m := AnalogRanges(vars[..|vars| - 1]);
      match vars[|vars| - 1]
      case AnalogVar(n, r) => m[n := r]
      case DigitalVar(_) => m
  }

  /** The plotted series' ranges: the range itself, or `[0, upper]` and `[lower, 0]` for a bipolar one. */
  function PlottedRanges(vars: seq<LogVar>): map<string, (real, real)>
  {
    if |vars| == 0 then map[]
    else
      var m := PlottedRanges(vars[..|vars| - 1]);
      match vars[|vars| - 1]
      case AnalogVar(n, r) =>
        if !Bipolar(r) then m[n := r] else m[PosName(n) := (0.0, r.1)][NegName(n) := (r.0, 0.0)]
      case DigitalVar(_) => m
  }

  function DigitalNames(vars: seq<LogVar>): set<string>
  {
    if |vars| == 0 then {}
    else DigitalNames(vars[..|vars| - 1]) + (if vars[|vars| - 1].DigitalVar? then {vars[|vars| - 1].name} else {})
  }

  /** What a bipolar value adds to its two series: its percentage on the side of its sign, `None` on the other. */
  function SplitSamples(value: real, pos: real, neg: real): (r: (Option<real>, Option<real>))
    ensures r.0.Some? <==> value >= 0.0
    ensures r.1.Some? <==> value < 0.0
    ensures r.0.Some? ==> r.0.value == pos
    ensures r.1.Some? ==> r.1.value == neg
  {
    (if value >= 0.0 then Some(pos) else None, if value < 0.0 then Some(neg) else None)
  }

  /** A bipolar variable's value goes to exactly one of its two series. */
  lemma SplitExactlyOne(value: real, pos: real, neg: real)
    ensures SplitSamples(value, pos, neg).0.Some? != SplitSamples(value, pos, neg).1.Some?
  {
  }

  /** A bipolar range's halves are unipolar with their real width, so every value has its percentage there. */
  lemma HalvesNormalize(range: (real, real), value: real)
    requires range.0 < 0.0 < range.1 && range.0 <= value <= range.1
    ensures value >= 0.0 ==> Normalize(value, (0.0, range.1)) == Ok(Percent(value, range.1))
    ensures value < 0.0 ==> Normalize(value, (range.0, 0.0)) == Ok(Percent(-value, -range.0))
    ensures value >= 0.0 ==> 0.0 <= Percent(value, range.1) <= 100.0
    ensures value < 0.0 ==> 0.0 <= Percent(-value, -range.0) <= 100.0
  {
    if value >= 0.0 {
      PercentBounds(value, range.1);
    } else {
      PercentBounds(-value, -range.0);
    }
  }

  /** The later `LogGraphPanel`'s data. */
  class SplitLogGraphPanel {
    var time: seq<real>
    /** `allRealData`: each shown variable's values as read. */
    var realData: map<string, seq<Sample>>
    /** The ranges of `realAnalogData`. */
    var analogRanges: map<string, (real, real)>
    /** `plottedAnalogData`: the percentages drawn, `None` where a half has no point. */
    var plotted: map<string, seq<Option<real>>>
    var plottedRanges: map<string, (real, real)>

    ghost predicate Valid()
      reads this
    {
      (forall name :: name in realData ==> |realData[name]| <= |time| + 1)
      && (forall name :: name in plottedRanges ==> name in plotted)
    }

    /** `__init__`: the data lists of the shown variables, splitting each bipolar variable in two. */
    constructor (vars: seq<LogVar>)
      ensures time == []
      ensures analogRanges == AnalogRanges(vars) && plottedRanges == PlottedRanges(vars)
      ensures plotted == map name | name in PlottedRanges(vars) :: []
      ensures realData == map name | name in AnalogRanges(vars).Keys + DigitalNames(vars) :: []
      ensures Valid()
    {
      time := [];
      var ranges: map<string, (real, real)> := map[];
      var plots: map<string, (real, real)> := map[];
      var digital: set<string> := {};
      var i := 0;
      while i < |vars|
        invariant 0 <= i <= |vars|
        invariant ranges == AnalogRanges(vars[..i])
        invariant plots == PlottedRanges(vars[..i])
        invariant digital == DigitalNames(vars[..i])
        decreases |vars| - i
      {
        assert vars[..i + 1][..i] == vars[..i];
        match vars[i] {
        case AnalogVar(n, r) =>
          ranges := ranges[n := r];
          if !Bipolar(r) {
            plots := plots[n := r];
          } else {
            plots := plots[PosName(n) := (0.0, r.1)][NegName(n) := (r.0, 0.0)];
          }
        case DigitalVar(n) =>
          digital := digital + {n};
        }
        i := i + 1;
      }
      assert vars[..i] == vars;
      analogRanges := ranges;
      plottedRanges := plots;
      plotted := map name | name in plots :: [];
      realData := map name | name in ranges.Keys + digital :: [];
    }

    /**
     * `AddData`: as in `LogGraph`, the filled value is appended while the
     * list is not ahead of the time list; an analog variable's value then
     * goes to its plotted series, or to the side of its sign for a bipolar
     * one. A label where a number belongs raises TypeError and a range of
     * width 0 ZeroDivisionError, after the real value was appended.
     */
    method AddData(name: string, value: Option<Sample>) returns (raised: Option<Raised>)
      requires Valid()
      modifies this`realData, this`plotted
      ensures Valid()
      ensures name !in old(realData) ==> raised == Some(KeyError) && realData == old(realData) && plotted == old(plotted)
      ensures name in old(realData) && |old(realData)[name]| > |time| ==>
        raised == None && realData == old(realData) && plotted == old(plotted)
      ensures name in old(realData) && |old(realData)[name]| <= |time| ==>
        realData == old(realData)[name := old(realData)[name] + [Filled(old(realData)[name], value)]]
      ensures name in old(realData) && |old(realData)[name]| <= |time| && name !in analogRanges ==>
        raised == None && plotted == old(plotted)
      ensures (name in old(realData) && |old(realData)[name]| <= |time| && name in analogRanges
               && Filled(old(realData)[name], value).Label?) ==> raised == Some(TypeError) && plotted == old(plotted)
      ensures (name in old(realData) && |old(realData)[name]| <= |time| && name in analogRanges
               && Filled(old(realData)[name], value).Number? && !Bipolar(analogRanges[name]) && name in plottedRanges)
        ==> var n := Normalize(Filled(old(realData)[name], value).x, plottedRanges[name]);
            (n.Err? ==> raised == Some(n.raised) && plotted == old(plotted))
            && (n.Ok? ==> raised == None && plotted == old(plotted)[name := old(plotted)[name] + [Some(n.value)]])
      ensures (name in old(realData) && |old(realData)[name]| <= |time| && name in analogRanges
               && Filled(old(realData)[name], value).Number? && Bipolar(analogRanges[name])
               && PosName(name) in plottedRanges && NegName(name) in plottedRanges)
        ==> var x := Filled(old(realData)[name], value).x;
            var pos := Normalize(x, plottedRanges[PosName(name)]);
            var neg := Normalize(x, plottedRanges[NegName(name)]);
            (pos.Err? ==> raised == Some(pos.raised) && plotted == old(plotted))
            && (pos.Ok? && neg.Err? ==> raised == Some(neg.raised) && plotted == old(plotted))
            && (pos.Ok? && neg.Ok? ==> raised == None)
            && (pos.Ok? && neg.Ok? ==>
                  var halves := SplitSamples(x, pos.value, neg.value);
                  plotted == old(plotted)[PosName(name) := old(plotted)[PosName(name)] + [halves.0]]
                                         [NegName(name) := old(plotted)[NegName(name)] + [halves.1]])
    {
      if name !in realData {
        return Some(KeyError);
      }
      var data := realData[name];
      if |data| > |time| {
        return None;
      }
      var v := Filled(data, value);
      realData := realData[name := data + [v]];
      if name !in analogRanges {
        return None;
      }
      if v.Label? {
        return Some(TypeError);
      }
      var x := v.x;
      if !Bipolar(analogRanges[name]) {
        if name !in plottedRanges {
          return Some(KeyError);
        }
        var n := Normalize(x, plottedRanges[name]);
        if n.Err? {
          return Some(n.raised);
        }
        plotted := plotted[name := plotted[name] + [Some(n.value)]];
      } else {
        if PosName(name) !in plottedRanges || NegName(name) !in plottedRanges {
          return Some(KeyError);
        }
        var pos := Normalize(x, plottedRanges[PosName(name)]);
        if pos.Err? {
          return Some(pos.raised);
        }
        var neg := Normalize(x, plottedRanges[NegName(name)]);
        if neg.Err? {
          return Some(neg.raised);
        }
        var halves := SplitSamples(x, pos.value, neg.value);
        HalvesDiffer(name);
        plotted := plotted[PosName(name) := plotted[PosName(name)] + [halves.0]];
        plotted := plotted[NegName(name) := plotted[NegName(name)] + [halves.1]];
      }
      raised := None;
    }

    /** `FinishUpdate`, as in `LogGraph`: the bulk write raises IndexError on a list lagging below it. */
    method FinishUpdate(now: real) returns (writes: seq<Write>, raised: Option<Raised>)
      requires Valid()
      modifies this`time
      ensures Valid()
      ensures time == old(time) + [now]
      ensures forall name :: name in realData ==> |realData[name]| <= |time|
      ensures raised.Some? <==> |time| % DATA_WRITE_BULK == 0 && Short(realData, DATA_WRITE_BULK)
      ensures raised.Some? ==> raised == Some(IndexError) && writes == []
      ensures raised.None? ==> writes == FinishWrites(|time|)
    {
      time := time + [now];
      if |time| % DATA_WRITE_BULK == 0 && Short(realData, DATA_WRITE_BULK) {
        return [], Some(IndexError);
      }
      writes := FinishWrites(|time|);
      raised := None;
    }

    /** `StopUpdates`, as in `LogGraph`: the rows after the last full bulk, or IndexError. */
    function StopUpdates(): (r: Result<seq<nat>>)
      reads this
      ensures r.Err? <==> Short(realData, |time| % DATA_WRITE_BULK)
      ensures r.Err? ==> r.raised == IndexError
      ensures r.Ok? ==> r.value == StopRows(|time|) && forall k :: 0 <= k < |r.value| ==> r.value[k] < |time|
    {
      if Short(realData, |time| % DATA_WRITE_BULK) then Err(IndexError) else Ok(StopRows(|time|))
    }
  }
}
