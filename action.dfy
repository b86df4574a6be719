/**
 * System actions and their parameters (build/lib/instrumentino/action.py):
 * the text each parameter keeps, what `Get` makes of it, the state a
 * parameter pickles, an action's printed representation and the line its
 * `Run` logs before it calls the action's command.
 */
module Action {
  import opened Wrappers
  import opened Text

  /** The instance attributes shared by every parameter; `range` only for the numeric ones. */
  datatype Param = Param(name: string, units: string, value: string, range: Option<(real, real)>)

  /** The parts of an analog system variable a float parameter may borrow. */
  datatype AnalogVar = AnalogVar(name: string, range: (real, real), units: string)

  /** `SysActionParam(name, units, value)`. */
  function BaseParam(name: string, units: string, value: string): Param
  {
    Param(name, units, value, None)
  }

  /** `SysActionParamInt(name, theRange, units, value)`: the value is kept as `str(value)`. */
  function IntParam(name: string, theRange: (real, real), units: string, value: int): (p: Param)
    ensures p.name == name && p.units == units && p.range == Some(theRange)
    ensures p.value == IntToString(value)
  {
    Param(name, units, IntToString(value), Some(theRange))
  }

  /** `SysActionParamInt.Get`: `int(self.value)`. */
  function IntGet(p: Param): Result<int>
  {
    ParseInt(p.value)
  }

  /** An integer parameter gives back the integer it was made with. */
  lemma IntParamRoundTrip(name: string, theRange: (real, real), units: string, value: int)
    ensures IntGet(IntParam(name, theRange, units, value)) == Ok(value)
  {
    ParseIntOfIntToString(value);
  }

  /** The `range=[0,0]` default of the float parameter. */
  const NO_RANGE: (real, real) := (0.0, 0.0)

  /**
   * `SysActionParamFloat(sysVarAnalog, range, name, units, value)`, with
   * `valueText` being `str(value)`: an argument left at its default is taken
   * from the analog variable when there is one.
   */
  function FloatParam(analog: Option<AnalogVar>, range: (real, real), name: string, units: string,
                      valueText: string): (p: Param)
    ensures p.value == valueText && p.range.Some?
    ensures analog.None? ==> p.name == name && p.units == units && p.range == Some(range)
    ensures name != "" ==> p.name == name
    ensures units != "" ==> p.units == units
    ensures range != NO_RANGE ==> p.range == Some(range)
    ensures analog.Some? && name == "" ==> p.name == analog.value.name
    ensures analog.Some? && units == "" ==> p.units == analog.value.units
    ensures analog.Some? && range == NO_RANGE ==> p.range == Some(analog.value.range)
  {
    match analog
    case None => Param(name, units, valueText, Some(range))
    case Some(v) =>
      Param(if name != "" then name else v.name,
            if units != "" then units else v.units,
            valueText,
            Some(if range != NO_RANGE then range else v.range))
  }

  /** With every argument at its default, a float parameter mirrors its analog variable. */
  lemma FloatParamMirrorsVariable(v: AnalogVar, valueText: string)
    ensures var p := FloatParam(Some(v), NO_RANGE, "", "", valueText);
      p.name == v.name && p.units == v.units && p.range == Some(v.range)
  {
  }

  /** `SysActionParamTime`'s defaults. */
  const TIME_NAME: string := "Time"
  const TIME_UNITS: string := "h:m:s.ms"
  const TIME_DEFAULT: string := "00:00:00.000"

  function TimeParam(name: string, value: string): Param
  {
    BaseParam(name, TIME_UNITS, value)
  }

  /** The fields `time.strptime(_, '%H:%M:%S')` fills in. */
  datatype Clock = Clock(hour: nat, minute: nat, second: nat)

  /** One `%H`, `%M` or `%S` directive: one or two digits, at most `max`. */
  function ClockField(piece: string, max: nat): (r: Option<nat>)
    ensures r.Some? <==> 1 <= |piece| <= 2 && AllDigits(piece) && DigitsValue(piece) <= max
    ensures r.Some? ==> r.value == DigitsValue(piece)
  {
    if 1 <= |piece| <= 2 && AllDigits(piece) && DigitsValue(piece) <= max then Some(DigitsValue(piece)) else None
  }

  /**
   * `time.strptime(s, '%H:%M:%S')`: the whole text must match, hours up to
   * 23, minutes up to 59 and seconds up to 61 (leap seconds); otherwise
   * ValueError.
   */
  function StrpTime(s: string): (r: Result<Clock>)
    ensures r.Err? ==> r.raised == ValueError
    ensures r.Ok? ==> r.value.hour <= 23 && r.value.minute <= 59 && r.value.second <= 61
  {
    var parts := Split(s, ':');
    if |parts| != 3 then Err(ValueError)
    else
      match (ClockField(parts[0], 23), ClockField(parts[1], 59), ClockField(parts[2], 61))
      case (Some(h), Some(m), Some(sec)) => Ok(Clock(h, m, sec))
      case _ => Err(ValueError)
  }

  /** `timedelta(hours, minutes, seconds + millis / 1000).total_seconds()`, exactly. */
  function TotalSeconds(t: Clock, millis: int): real
  {
    (3600 * t.hour + 60 * t.minute + t.second) as real + millis as real / 1000.0
  }

  /**
   * `SysActionParamTime.Get`: the text before the first '.' is the clock,
   * the text between the first and a second '.' is read by `int()` as a
   * number of milliseconds.
   */
  function TimeGet(value: string): (r: Result<real>)
    ensures r.Err? ==> r.raised == ValueError
  {
    var pieces := Split(value, '.');
    match StrpTime(pieces[0])
    case Err(e) => Err(e)
    case Ok(t) =>
      if |pieces| < 2 then Ok(TotalSeconds(t, 0))
      else
        match ParseInt(pieces[1])
        case Err(e) => Err(e)
        case Ok(f) => Ok(TotalSeconds(t, f))
  }

  /** A clock and a fraction around one '.' split back into the two. */
  lemma SplitAtPoint(clock: string, fraction: string)
    requires '.' !in clock && '.' !in fraction
    ensures Split(clock + "." + fraction, '.') == [clock, fraction]
  {
    assert Join([clock, fraction], ['.']) == clock + "." + fraction by {
      assert [clock, fraction][1..] == [fraction];
    }
    SplitJoin([clock, fraction], '.');
  }

  /** A clock and a fraction around one '.': the clock's seconds plus `int(fraction)` milliseconds. */
  lemma TimeGetParts(clock: string, fraction: string, t: Clock, f: int)
    requires '.' !in clock && '.' !in fraction
    requires StrpTime(clock) == Ok(t) && ParseInt(fraction) == Ok(f)
    ensures TimeGet(clock + "." + fraction) == Ok(TotalSeconds(t, f))
  {
    SplitAtPoint(clock, fraction);
  }

  /** A clock `strptime` refuses fails the whole value, whatever follows the '.'. */
  lemma TimeGetBadClock(clock: string, fraction: string)
    requires '.' !in clock && '.' !in fraction
    requires StrpTime(clock).Err?
    ensures TimeGet(clock + "." + fraction) == Err(ValueError)
  {
    SplitAtPoint(clock, fraction);
  }

  /** Without a '.', the value is the clock alone. */
  lemma TimeGetWhole(clock: string)
    requires '.' !in clock
    ensures TimeGet(clock) == match StrpTime(clock) case Err(e) => Err(e) case Ok(t) => Ok(TotalSeconds(t, 0))
  {
    assert Join([clock], ['.']) == clock;
    SplitJoin([clock], '.');
  }

  /** Zero-padded decimal text, as the `##:##:##.###` mask of the time widget produces. */
  function Padded2(n: nat): (s: string)
    requires n < 100
    ensures |s| == 2 && AllDigits(s)
  {
    [DigitChar(n / 10), DigitChar(n % 10)]
  }

  function Padded3(n: nat): (s: string)
    requires n < 1000
    ensures |s| == 3 && AllDigits(s)
  {
    [DigitChar(n / 100), DigitChar(n / 10 % 10), DigitChar(n % 10)]
  }

  lemma Padded2Value(n: nat)
    requires n < 100
    ensures DigitsValue(Padded2(n)) == n
  {
    var s := Padded2(n);
    assert s[..1][..0] == "";
    assert DigitsValue(s[..1]) == n / 10;
  }

  lemma Padded3Value(n: nat)
    requires n < 1000
    ensures DigitsValue(Padded3(n)) == n
  {
    var s := Padded3(n);
    assert s[..2][..1][..0] == "";
    assert s[..2][..1] == [s[0]];
    assert DigitsValue(s[..2][..1]) == n / 100;
    assert s[..2] == [s[0], s[1]];
    assert DigitsValue(s[..2]) == n / 100 * 10 + n / 10 % 10;
    assert n / 100 * 10 + n / 10 % 10 == n / 10;
    assert DigitsValue(s) == DigitsValue(s[..2]) * 10 + n % 10;
  }

  lemma Join3(a: string, b: string, c: string, sep: char)
    ensures Join([a, b, c], [sep]) == a + [sep] + b + [sep] + c
  {
    assert [a, b, c][1..] == [b, c];
    assert [b, c][1..] == [c];
    assert Join([b, c], [sep]) == b + [sep] + c;
    assert Join([a, b, c], [sep]) == a + [sep] + (b + [sep] + c);
  }

  /** Three pieces without `sep` joined by it split back into them. */
  lemma SplitThree(a: string, b: string, c: string, sep: char)
    requires sep !in a && sep !in b && sep !in c
    ensures Split(a + [sep] + b + [sep] + c, sep) == [a, b, c]
  {
    Join3(a, b, c, sep);
    SplitJoin([a, b, c], sep);
  }

  lemma NoSeparatorIn(s: string, c: char)
    requires AllDigits(s) && !IsDigit(c)
    ensures c !in s
  {
  }

  function ClockText(h: nat, m: nat, s: nat): string
    requires h < 100 && m < 100 && s < 100
  {
    Padded2(h) + ":" + Padded2(m) + ":" + Padded2(s)
  }

  function TimeText(h: nat, m: nat, s: nat, ms: nat): string
    requires h < 100 && m < 100 && s < 100 && ms < 1000
  {
    ClockText(h, m, s) + "." + Padded3(ms)
  }

  /** `strptime` accepts a padded clock exactly when each field is in its range. */
  lemma StrpTimeOfClockText(h: nat, m: nat, s: nat)
    requires h < 100 && m < 100 && s < 100
    ensures StrpTime(ClockText(h, m, s)).Ok? <==> h <= 23 && m <= 59 && s <= 61
    ensures StrpTime(ClockText(h, m, s)).Ok? ==> StrpTime(ClockText(h, m, s)).value == Clock(h, m, s)
  {
    NoSeparatorIn(Padded2(h), ':');
    NoSeparatorIn(Padded2(m), ':');
    NoSeparatorIn(Padded2(s), ':');
    SplitThree(Padded2(h), Padded2(m), Padded2(s), ':');
    Padded2Value(h);
    Padded2Value(m);
    Padded2Value(s);
  }

  /** `int()` of three padded digits is their value. */
  lemma ParsePadded3(ms: nat)
    requires ms < 1000
    ensures ParseInt(Padded3(ms)) == Ok(ms)
  {
    var s := Padded3(ms);
    StripWithoutSpace(s);
    Padded3Value(ms);
  }

  lemma ClockTextHasNoPoint(h: nat, m: nat, s: nat)
    requires h < 100 && m < 100 && s < 100
    ensures '.' !in ClockText(h, m, s)
  {
    var clock := ClockText(h, m, s);
    forall i | 0 <= i < |clock| ensures clock[i] != '.' {
      assert clock[i] in Padded2(h) || clock[i] == ':' || clock[i] in Padded2(m) || clock[i] in Padded2(s);
    }
  }

  /**
   * The text the time widget holds parses to its hours, minutes, seconds and
   * milliseconds in seconds.
   */
  lemma TimeGetOfTimeText(h: nat, m: nat, s: nat, ms: nat)
    requires h <= 23 && m <= 59 && s <= 61 && ms < 1000
    ensures TimeGet(TimeText(h, m, s, ms)) == Ok(TotalSeconds(Clock(h, m, s), ms))
  {
    ClockTextHasNoPoint(h, m, s);
    NoSeparatorIn(Padded3(ms), '.');
    StrpTimeOfClockText(h, m, s);
    ParsePadded3(ms);
    TimeGetParts(ClockText(h, m, s), Padded3(ms), Clock(h, m, s), ms);
    var v := TimeText(h, m, s, ms);
    assert v == ClockText(h, m, s) + "." + Padded3(ms);

  }

  /** A time parameter left at its default lasts zero seconds. */
  lemma DefaultTimeIsZero()
    ensures TimeGet(TimeParam(TIME_NAME, TIME_DEFAULT).value) == Ok(0.0)
  {
    assert TimeText(0, 0, 0, 0) == TIME_DEFAULT;
    TimeGetOfTimeText(0, 0, 0, 0);
  }

  /**
   * The digits after the point count as milliseconds however many there
   * are: one digit `d` adds `d` ms, so ".5" is 5 ms and not half a second.
   */
  lemma OneDigitIsMilliseconds(h: nat, m: nat, s: nat, d: nat)
    requires h <= 23 && m <= 59 && s <= 61 && d < 10
    ensures TimeGet(ClockText(h, m, s) + "." + [DigitChar(d)]) == Ok(TotalSeconds(Clock(h, m, s), d))
    ensures TotalSeconds(Clock(h, m, s), d) == (3600 * h + 60 * m + s) as real + d as real / 1000.0
  {
    var digit := [DigitChar(d)];
    ClockTextHasNoPoint(h, m, s);
    StrpTimeOfClockText(h, m, s);
    StripWithoutSpace(digit);
    assert ParseInt(digit) == Ok(d) by {
      assert DigitsValue(digit) == DigitsValue(digit[..0]) * 10 + d;
    }
    TimeGetParts(ClockText(h, m, s), digit, Clock(h, m, s), d);
  }

  /** An hour of 24 is not a `%H` field. */
  lemma HourTwentyFourRejected(m: nat, s: nat, ms: nat)
    requires m <= 59 && s <= 61 && ms < 1000
    ensures TimeGet(TimeText(24, m, s, ms)) == Err(ValueError)
  {
    ClockTextHasNoPoint(24, m, s);
    NoSeparatorIn(Padded3(ms), '.');
    StrpTimeOfClockText(24, m, s);
    TimeGetBadClock(ClockText(24, m, s), Padded3(ms));
  }

  // ---------------------------------------------------------------------------
  // Pickled state

  /** What an instance attribute holds. */
  datatype Attr = Str(text: string) | Bounds(lo: real, hi: real) | Widget | NoneValue

  const MASKED_TEXT_CTRL: string := "maskedTextCtrl"

  /** The attributes a parameter keeps besides its widget. */
  function Fields(p: Param): map<string, Attr>
  {
    map["name" := Str(p.name), "units" := Str(p.units), "value" := Str(p.value)]
    + (if p.range.Some? then map["range" := Bounds(p.range.value.0, p.range.value.1)] else map[])
  }

  /** A parameter's `__dict__`, with `ctrl` in `maskedTextCtrl` (None until its widget is made). */
  function Dict(p: Param, ctrl: Attr): map<string, Attr>
  {
    Fields(p)[MASKED_TEXT_CTRL := ctrl]
  }

  /**
   * `__getstate__`: a copy of the attributes without the widget; the
   * attributes themselves are a value and stay as they were, so putting the
   * widget back gives them again.
   */
  function GetState(attrs: map<string, Attr>): (state: map<string, Attr>)
    ensures MASKED_TEXT_CTRL !in state
    ensures forall k :: k in state <==> k in attrs && k != MASKED_TEXT_CTRL
    ensures forall k :: k in state ==> state[k] == attrs[k]
    ensures MASKED_TEXT_CTRL in attrs ==> state[MASKED_TEXT_CTRL := attrs[MASKED_TEXT_CTRL]] == attrs
  {
    attrs - {MASKED_TEXT_CTRL}
  }

  /** The parameter an unpickled state describes. */
  function ParamOfState(state: map<string, Attr>): Option<Param>
  {
    if "name" in state && "units" in state && "value" in state
       && state["name"].Str? && state["units"].Str? && state["value"].Str?
    then
      var range := if "range" in state && state["range"].Bounds?
                   then Some((state["range"].lo, state["range"].hi)) else None;
      Some(Param(state["name"].text, state["units"].text, state["value"].text, range))
    else None
  }

  lemma FieldsWithoutWidget(p: Param)
    ensures MASKED_TEXT_CTRL !in Fields(p)
  {
    assert Fields(p).Keys <= {"name", "units", "value", "range"};
  }

  /** The fields describe the parameter they come from. */
  lemma ParamOfFields(p: Param)
    ensures ParamOfState(Fields(p)) == Some(p)
  {
    var f := Fields(p);
    assert f["name"] == Str(p.name) && f["units"] == Str(p.units) && f["value"] == Str(p.value);
    if p.range.Some? {
      assert f["range"] == Bounds(p.range.value.0, p.range.value.1);
    } else {
      assert "range" !in f;
    }
  }

  /** The pickled state keeps everything of the parameter and nothing of its widget. */
  lemma StateKeepsParam(p: Param, ctrl: Attr)
    ensures GetState(Dict(p, ctrl)) == Fields(p)
    ensures ParamOfState(GetState(Dict(p, ctrl))) == Some(p)
  {
    FieldsWithoutWidget(p);
    ParamOfFields(p);
    assert GetState(Dict(p, ctrl)) == Fields(p);
  }

  // ---------------------------------------------------------------------------
  // Actions

  /** A system action: its name and its parameters. */
  datatype SysAction = SysAction(name: string, params: seq<Param>)

  /** `param.name + '=' + str(param.value)`; the value is already text. */
  function Entry(p: Param): string
  {
    p.name + "=" + p.value
  }

  function Entries(params: seq<Param>): (r: seq<string>)
    ensures |r| == |params| && forall i :: 0 <= i < |params| ==> r[i] == Entry(params[i])
  {
    if |params| == 0 then [] else Entries(params[..|params| - 1]) + [Entry(params[|params| - 1])]
  }

  /** The text `__repr__`'s loop appends: a space before each entry. */
  function ParamsText(params: seq<Param>): string
  {
    if |params| == 0 then "" else ParamsText(params[..|params| - 1]) + " " + Entry(params[|params| - 1])
  }

  function ReprOf(a: SysAction): string
  {
    "sysAction:\r" + "name: " + a.name + "\rparams:" + ParamsText(a.params)
  }

  /** `SysAction.__repr__`. */
  method Repr(a: SysAction) returns (retVal: string)
    ensures retVal == ReprOf(a)
  {
    retVal := "sysAction:\r" + "name: " + a.name + "\rparams:";
    var i := 0;
    while i < |a.params|
      invariant 0 <= i <= |a.params|
      invariant retVal == "sysAction:\r" + "name: " + a.name + "\rparams:" + ParamsText(a.params[..i])
    {
      assert a.params[..i + 1][..i] == a.params[..i];
      retVal := retVal + " " + a.params[i].name + "=" + a.params[i].value;
      i := i + 1;
    }
    assert a.params[..i] == a.params;
  }

  lemma {:induction false} JoinSnoc(parts: seq<string>, sep: string, last: string)
    requires |parts| >= 1
    ensures Join(parts + [last], sep) == Join(parts, sep) + sep + last
    decreases |parts|
  {
    if |parts| == 1 {
      assert (parts + [last])[1..] == [last];
    } else {
      assert (parts + [last])[1..] == parts[1..] + [last];
      JoinSnoc(parts[1..], sep, last);
    }
  }

  /** The entries text is the entries joined by spaces after the "params:" header. */
  lemma {:induction false} ParamsTextJoin(header: string, params: seq<Param>)
    ensures header + ParamsText(params) == Join([header] + Entries(params), " ")
    decreases |params|
  {
    if |params| > 0 {
      var init := params[..|params| - 1];
      ParamsTextJoin(header, init);
      assert [header] + Entries(params) == ([header] + Entries(init)) + [Entry(params[|params| - 1])];
      JoinSnoc([header] + Entries(init), " ", Entry(params[|params| - 1]));
    } else {
      assert [header] + Entries(params) == [header];
    }
  }

  predicate Plain(s: string, c: char) { c !in s }

  /** The header and the entries around single spaces, as a list of pieces. */
  function ParamsPieces(params: seq<Param>): seq<string>
  {
    ["params:"] + Entries(params)
  }

  /** A text `c` is in none of the pieces of. */
  lemma PiecesWithout(params: seq<Param>, c: char)
    requires !IsPrint(c)
    requires forall i :: 0 <= i < |params| ==> Plain(Entry(params[i]), c)
    ensures forall i :: 0 <= i < |ParamsPieces(params)| ==> c !in ParamsPieces(params)[i]
  {
    var parts := ParamsPieces(params);
    forall i | 0 <= i < |parts| ensures c !in parts[i] {
      if i > 0 {
        assert parts[i] == Entry(params[i - 1]);
      } else {
        assert forall j :: 0 <= j < |parts[0]| ==> IsPrint(parts[0][j]);
      }
    }
  }

  lemma HeaderHasNoSpace()
    ensures ' ' !in "params:"
  {
  }

  /** The "params:" line splits at its spaces into the header and the entries. */
  lemma ParamsLineReadsBack(params: seq<Param>)
    requires forall i :: 0 <= i < |params| ==> Plain(Entry(params[i]), ' ')
    ensures Split("params:" + ParamsText(params), ' ') == ["params:"] + Entries(params)
  {
    ParamsTextJoin("params:", params);
    var parts := ParamsPieces(params);
    forall i | 0 <= i < |parts| ensures ' ' !in parts[i] {
      if i > 0 {
        assert parts[i] == Entry(params[i - 1]);
      } else {
        HeaderHasNoSpace();
      }
    }
    SplitJoin(parts, ' ');
  }

  /** The "params:" line holds no '\r' when no entry does. */
  lemma ParamsLineWithout(params: seq<Param>)
    requires forall i :: 0 <= i < |params| ==> Plain(Entry(params[i]), '\r')
    ensures '\r' !in "params:" + ParamsText(params)
  {
    ParamsTextJoin("params:", params);
    PiecesWithout(params, '\r');
    JoinWithout(ParamsPieces(params), " ", '\r');
  }

  /**
   * The representation reads back: three '\r'-separated lines, the last one
   * the header and the entries separated by spaces, when no name or value
   * holds '\r' or a space.
   */
  lemma ReprReadsBack(a: SysAction)
    requires Plain(a.name, '\r')
    requires forall i :: 0 <= i < |a.params| ==> Plain(Entry(a.params[i]), '\r') && Plain(Entry(a.params[i]), ' ')
    ensures Split(ReprOf(a), '\r') == ["sysAction:", "name: " + a.name, "params:" + ParamsText(a.params)]
    ensures Split("params:" + ParamsText(a.params), ' ') == ["params:"] + Entries(a.params)
  {
    ParamsLineReadsBack(a.params);
    ParamsLineWithout(a.params);
    var line2 := "name: " + a.name;
    assert '\r' !in line2 by {
      forall j | 0 <= j < |line2| ensures line2[j] != '\r' {
        if j >= 6 {
          assert line2[j] == a.name[j - 6];
        }
      }
    }
    var tail := "params:" + ParamsText(a.params);
    assert ReprOf(a) == "sysAction:" + "\r" + line2 + "\r" + tail;
    SplitThree("sysAction:", line2, tail, '\r');
  }

  /** Joining texts without `c` by a separator without `c` gives a text without `c`. */
  lemma {:induction false} JoinWithout(parts: seq<string>, sep: string, c: char)
    requires c !in sep
    requires forall i :: 0 <= i < |parts| ==> c !in parts[i]
    ensures c !in Join(parts, sep)
    decreases |parts|
  {
    if |parts| > 1 {
      JoinWithout(parts[1..], sep, c);
      assert Join(parts, sep) == parts[0] + sep + Join(parts[1..], sep);
    }
  }

  /** The line `Run` logs: the `%X ` clock text, the name, then ': ' and the entries joined by ', '. */
  function LogMessage(now: string, a: SysAction): string
  {
    now + " " + a.name + (if |a.params| == 0 then "" else ": " + Join(Entries(a.params), ", "))
  }

  /** What a run does, in order. */
  datatype Effect = Logged(message: string) | CommandCalled

  /** The logging loop of `SysAction.Run`. */
  method BuildLogMessage(now: string, a: SysAction) returns (logMsg: string)
    ensures logMsg == LogMessage(now, a)
  {
    logMsg := now + " ";
    logMsg := logMsg + a.name;
    var idx := 0;
    while idx < |a.params|
      invariant 0 <= idx <= |a.params|
      invariant logMsg == now + " " + a.name
                          + (if idx == 0 then "" else ": " + Join(Entries(a.params[..idx]), ", "))
    {
      var param := a.params[idx];
      ghost var before := Entries(a.params[..idx]);
      assert Entries(a.params[..idx + 1]) == before + [Entry(param)] by {
        assert a.params[..idx + 1][..idx] == a.params[..idx];
      }
      if idx == 0 {
        logMsg := logMsg + ": ";
        assert before + [Entry(param)] == [Entry(param)];
      } else {
        logMsg := logMsg + ", ";
        JoinSnoc(before, ", ", Entry(param));
      }
      logMsg := logMsg + (param.name + "=" + param.value);
      idx := idx + 1;
    }
    assert a.params[..idx] == a.params;
  }

  /** `SysAction.Run(Log)`: the log line when asked for, then the command exactly once. */
  method Run(a: SysAction, log: bool, now: string) returns (effects: seq<Effect>)
    ensures effects == (if log then [Logged(LogMessage(now, a))] else []) + [CommandCalled]
  {
    effects := [];
    if log {
      var logMsg := BuildLogMessage(now, a);
      effects := effects + [Logged(logMsg)];
    }
    effects := effects + [CommandCalled];
  }

  /** The entries after the first, each with the space that follows its ','. */
  function CommaPieces(es: seq<string>): (r: seq<string>)
    requires |es| >= 1
    ensures |r| == |es| && r[0] == es[0]
    ensures forall i :: 1 <= i < |es| ==> r[i] == " " + es[i]
  {
    [es[0]] + seq(|es| - 1, i requires 0 <= i < |es| - 1 => " " + es[i + 1])
  }

  lemma {:induction false} JoinCommaSpace(es: seq<string>)
    requires |es| >= 1
    ensures Join(es, ", ") == Join(CommaPieces(es), [','])
    decreases |es|
  {
    if |es| > 1 {
      JoinCommaSpace(es[1..]);
      var rest := CommaPieces(es[1..]);
      var pieces := CommaPieces(es);
      assert pieces[1..] == [" " + es[1]] + rest[1..];
      JoinHeadSpace(rest, " " + es[1]);
      assert Join(pieces, [',']) == es[0] + "," + Join(pieces[1..], [',']);
    }
  }

  /** Putting a space before the first piece puts it before the joined text. */
  lemma JoinHeadSpace(rest: seq<string>, first: string)
    requires |rest| >= 1 && first == " " + rest[0]
    ensures Join([first] + rest[1..], [',']) == " " + Join(rest, [','])
  {
    var pieces := [first] + rest[1..];
    if |rest| > 1 {
      assert pieces[1..] == rest[1..];
      var tail := Join(rest[1..], [',']);
      assert Join(pieces, [',']) == first + [','] + tail;
      assert Join(rest, [',']) == rest[0] + [','] + tail;
      assert first + [','] + tail == " " + (rest[0] + [','] + tail);
    } else {
      assert pieces == [first];
    }
  }

  /**
   * Every parameter can be read back from the log line: split at ',', the
   * pieces are the entries in order, each after the first with its leading
   * space, when no entry holds a ','.
   */
  lemma LogEntriesReadBack(now: string, a: SysAction)
    requires |a.params| >= 1
    requires forall i :: 0 <= i < |a.params| ==> Plain(Entry(a.params[i]), ',')
    ensures LogMessage(now, a) == now + " " + a.name + ": " + Join(Entries(a.params), ", ")
    ensures Split(Join(Entries(a.params), ", "), ',') == CommaPieces(Entries(a.params))
  {
    var es := Entries(a.params);
    JoinCommaSpace(es);
    var pieces := CommaPieces(es);
    assert forall i :: 0 <= i < |pieces| ==> ',' !in pieces[i] by {
      forall i | 0 <= i < |pieces| ensures ',' !in pieces[i] {
        if i > 0 {
          assert pieces[i] == " " + Entry(a.params[i]);
        }
      }
    }
    SplitJoin(pieces, ',');
  }
}
