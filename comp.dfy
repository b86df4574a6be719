/**
 * System variables and components of the wx front end
 * (instrumentino/instrumentino/comp.py): a variable's reading and setting
 * through its subclass and hooks, its full name, the analog edit gate, and a
 * component's update of its variables. The subclass functions, the hooks and
 * the log graph are observed as the calls they receive.
 */
module Comp {
  import opened Wrappers
  import opened Seqs

  /** A value read from or written to the hardware; `NoValue` is `None`. */
  datatype Value = Number(x: real) | Label(s: string) | NoValue

  /** The calls a variable or component makes, in order. */
  datatype Call =
    | GetFunc
    | PostGetFunc(v: Value)
    | PreSetFunc(v: Value)
    | SetFunc(v: Value)
    | UpdatePanel(v: Value)
    | AddData(name: string, v: Value)
    | FirstTimeOnline
    | Skip

  /** An analog variable has a range and units; a digital one has neither. */
  datatype Kind = Analog(range: (real, real), units: string) | Digital(states: seq<string>)

  datatype SysVar = SysVar(name: string, compName: string, kind: Kind, editable: bool,
                           hasPreSet: bool, hasPostGet: bool)

  /** `Get`: the subclass' reading, passed unchanged to `PostGetFunc` when there is one. */
  function Get(v: SysVar, reading: Value): (r: (Value, seq<Call>))
    ensures r.0 == reading
    ensures |r.1| >= 1 && r.1[0] == GetFunc
    ensures v.hasPostGet <==> PostGetFunc(reading) in r.1
  {
    (reading, [GetFunc] + (if v.hasPostGet then [PostGetFunc(reading)] else []))
  }

  /** `Set`: nothing for a variable that is not editable; `PreSetFunc` first when present. */
  function Set(v: SysVar, value: Value): (calls: seq<Call>)
    ensures !v.editable <==> calls == []
    ensures v.editable ==> calls[|calls| - 1] == SetFunc(value)
    ensures v.editable && v.hasPreSet ==> calls == [PreSetFunc(value), SetFunc(value)]
    ensures forall c :: c in calls ==> c == PreSetFunc(value) || c == SetFunc(value)
  {
    if !v.editable then []
    else (if v.hasPreSet then [PreSetFunc(value)] else []) + [SetFunc(value)]
  }

  function CompPrefix(compName: string): string
  {
    if compName != "" then compName + ": " else ""
  }

  function UnitsSuffix(kind: Kind): string
  {
    if kind.Analog? then " (" + kind.units + ")" else ""
  }

  /** `FullName`: `comp: ` when the component is named, the name, and ` (units)` for an analog variable. */
  function FullName(v: SysVar): string
  {
    CompPrefix(v.compName) + v.name + UnitsSuffix(v.kind)
  }

  lemma {:induction false} Cancel(p: string, x: string, y: string, s: string)
    requires p + x + s == p + y + s
    ensures x == y
  {
    var a := p + x + s;
    assert |x| == |y|;
    assert a[|p|..|p| + |x|] == x;
    assert (p + y + s)[|p|..|p| + |y|] == y;
  }

  /**
   * Within one component and one kind of units, full names tell variables
   * apart exactly when their names do.
   */
  lemma FullNameDistinguishes(a: SysVar, b: SysVar)
    requires a.compName == b.compName && UnitsSuffix(a.kind) == UnitsSuffix(b.kind)
    ensures FullName(a) == FullName(b) <==> a.name == b.name
  {
    if FullName(a) == FullName(b) {
      Cancel(CompPrefix(a.compName), a.name, b.name, UnitsSuffix(a.kind));
    }
  }

  /** The key an edit event reports. */
  datatype Key = Return | NumpadEnter | OtherKey

  /**
   * `SysVarAnalog.OnEdit`: on Enter the control's text goes through
   * `float()` (its result `parsed`, whose ValueError propagates before
   * `event.Skip()`) and is set only within the range; the event is skipped on.
   */
  function AnalogOnEdit(v: SysVar, key: Key, parsed: Result<real>): (r: (seq<Call>, Option<Raised>))
    requires v.kind.Analog?
    ensures (key == Return || key == NumpadEnter) && parsed.Err? ==> r == ([], Some(parsed.raised))
    ensures r.1.None? ==> |r.0| >= 1 && r.0[|r.0| - 1] == Skip
    ensures (exists c :: c in r.0 && c.SetFunc?) <==>
      (key == Return || key == NumpadEnter) && parsed.Ok? && v.editable
      && v.kind.range.0 <= parsed.value <= v.kind.range.1
  {
    if key == Return || key == NumpadEnter then
      if parsed.Err? then ([], Some(parsed.raised))
      else if v.kind.range.0 <= parsed.value <= v.kind.range.1 then
        (Set(v, Number(parsed.value)) + [Skip], None)
      else ([Skip], None)
    else ([Skip], None)
  }

  /** `SysVarDigital.OnEdit`: sets the label of the chosen radio button. */
  function DigitalOnEdit(v: SysVar, chosen: string): (calls: seq<Call>)
    ensures v.editable <==> calls != []
    ensures v.editable ==> calls[|calls| - 1] == SetFunc(Label(chosen))
  {
    Set(v, Label(chosen))
  }

  /** `OrderedDict([(var.name, var) for var in vars])`. */
  function VarsByName(vars: seq<SysVar>): (r: seq<(string, SysVar)>)
  {
    if |vars| == 0 then [] else Upsert(VarsByName(vars[..|vars| - 1]), vars[|vars| - 1].name, vars[|vars| - 1])
  }

  /** Keys of the name dictionary are each variable's own name. */
  predicate WellKeyed(entries: seq<(string, SysVar)>)
  {
    forall i :: 0 <= i < |entries| ==> entries[i].0 == entries[i].1.name
  }

  /** The dictionary holds each name once, under that name, and every variable's name is in it. */
  lemma {:induction false} VarsByNameKeys(vars: seq<SysVar>)
    ensures var d := VarsByName(vars);
      WellKeyed(d)
      && (forall i, j :: 0 <= i < j < |d| ==> d[i].0 != d[j].0)
      && (forall k :: 0 <= k < |vars| ==> KeyIndex(d, vars[k].name) >= 0)
  {
    if |vars| > 0 {
      var front := vars[..|vars| - 1];
      var last := vars[|vars| - 1];
      VarsByNameKeys(front);
      var e := VarsByName(front);
      var d := VarsByName(vars);
      var i := KeyIndex(e, last.name);
      if i >= 0 {
        assert d == e[i := (last.name, last)];
        forall k | 0 <= k < |vars|
          ensures KeyIndex(d, vars[k].name) >= 0
        {
          if k < |front| {
            assert vars[k] == front[k];
            var ik := KeyIndex(e, vars[k].name);
            assert d[ik].0 == vars[k].name;
          } else {
            assert d[i].0 == vars[k].name;
          }
        }
      } else {
        assert d == e + [(last.name, last)];
        forall k | 0 <= k < |vars|
          ensures KeyIndex(d, vars[k].name) >= 0
        {
          if k < |front| {
            assert vars[k] == front[k];
            var ik := KeyIndex(e, vars[k].name);
            assert d[ik].0 == vars[k].name;
          } else {
            assert d[|e|].0 == vars[k].name;
          }
        }
      }
    }
  }

  /** Without repeated names the dictionary lists the variables in their order. */
  lemma {:induction false} VarsByNameDistinct(vars: seq<SysVar>)
    requires forall i, j :: 0 <= i < j < |vars| ==> vars[i].name != vars[j].name
    ensures var d := VarsByName(vars);
      |d| == |vars| && forall k :: 0 <= k < |vars| ==> d[k] == (vars[k].name, vars[k])
  {
    if |vars| > 0 {
      var front := vars[..|vars| - 1];
      var last := vars[|vars| - 1];
      VarsByNameDistinct(front);
      var e := VarsByName(front);
      assert forall k :: 0 <= k < |e| ==> e[k].0 != last.name by {
        forall k | 0 <= k < |e|
          ensures e[k].0 != last.name
        {
          assert e[k].0 == vars[k].name;
        }
      }
      assert KeyIndex(e, last.name) == -1;
      assert VarsByName(vars) == e + [(last.name, last)];
    }
  }

  /** What one variable's `Update` calls: `Get`, the panel, and the log graph under its full name. */
  function UpdateCalls(v: SysVar, reading: Value): (calls: seq<Call>)
    ensures |calls| >= 3 && calls[|calls| - 1] == AddData(FullName(v), reading)
  {
    Get(v, reading).1 + [UpdatePanel(reading), AddData(FullName(v), reading)]
  }

  /** The calls of updating the variables in order, each with its reading. */
  function VarUpdates(entries: seq<(string, SysVar)>, readings: seq<Value>): seq<Call>
    requires |entries| == |readings|
  {
    if |entries| == 0 then []
    else VarUpdates(entries[..|entries| - 1], readings[..|readings| - 1])
         + UpdateCalls(entries[|entries| - 1].1, readings[|readings| - 1])
  }

  /** `var.Update()` for each variable in order. */
  method UpdateVars(entries: seq<(string, SysVar)>, readings: seq<Value>) returns (calls: seq<Call>)
    requires |entries| == |readings|
    ensures calls == VarUpdates(entries, readings)
  {
    calls := [];
    var i := 0;
    while i < |entries|
      invariant 0 <= i <= |entries|
      invariant calls == VarUpdates(entries[..i], readings[..i])
    {
      assert entries[..i + 1][..i] == entries[..i];
      assert readings[..i + 1][..i] == readings[..i];
      calls := calls + UpdateCalls(entries[i].1, readings[i]);
      i := i + 1;
    }
    assert entries[..i] == entries && readings[..i] == readings;
  }

  /** A component: its variables by name, whether its panel exists, and whether it is online. */
  class SysComp {
    const name: string
    const vars: seq<(string, SysVar)>
    var hasPanel: bool
    var online: bool
    /** How many times `FirstTimeOnline` ran. */
    var firstTimeCalls: nat

    /** `FirstTimeOnline` has run once exactly when the component is online. */
    ghost predicate Valid()
      reads this
    {
      firstTimeCalls <= 1 && (online <==> firstTimeCalls == 1)
    }

    constructor (name: string, vars: seq<SysVar>)
      ensures this.name == name && this.vars == VarsByName(vars)
      ensures !hasPanel && !online && firstTimeCalls == 0 && Valid()
    {
      this.name := name;
      this.vars := VarsByName(vars);
      hasPanel := false;
      online := false;
      firstTimeCalls := 0;
    }

    /** `CreatePanel`: no panel for a component without variables. */
    method CreatePanel()
      modifies this`hasPanel
      ensures hasPanel <==> |vars| > 0
    {
      hasPanel := |vars| > 0;
    }

    /**
     * `Update`: the first update brings the component online and runs
     * `FirstTimeOnline`; with a panel, every variable is then updated in order.
     */
    method Update(readings: seq<Value>) returns (calls: seq<Call>)
      requires Valid() && |readings| == |vars|
      modifies this`online, this`firstTimeCalls
      ensures Valid() && online && firstTimeCalls == 1
      ensures calls == (if old(online) then [] else [FirstTimeOnline])
                       + (if hasPanel then VarUpdates(vars, readings) else [])
    {
      calls := [];
      if !online {
        online := true;
        firstTimeCalls := firstTimeCalls + 1;
        calls := [FirstTimeOnline];
      }
      if hasPanel {
        var updates := UpdateVars(vars, readings);
        calls := calls + updates;
      }
    }
  }
}
