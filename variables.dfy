/**
 * The on-screen variables (instrumentino/variables/__init__.py): the
 * percentage through which a variable talks to its channels, the digital
 * and analog conversions between that percentage and the variable's value,
 * the base behaviour when data arrives or the user types, and the duration
 * text input.
 */
module Variables {
  import opened Wrappers
  import opened PyNum
  import opened InputFilters
  import Text

  // ---------------------------------------------------------------------------
  // DigitalVariable

  /** Python's `s[i]`, negative indices counting from the end. */
  function PyIndex<T>(s: seq<T>, i: int): (r: Result<T>)
    ensures 0 <= i < |s| ==> r == Ok(s[i])
    ensures -|s| <= i < 0 ==> r == Ok(s[|s| + i])
    ensures (i < -|s| || |s| <= i) <==> r == Err(IndexError)
  {
    if 0 <= i < |s| then Ok(s[i])
    else if -|s| <= i < 0 then Ok(s[|s| + i])
    else Err(IndexError)
  }

  /** Python's `list.index`: the first position of `x`, ValueError when absent. */
  function ListIndex<T(==)>(s: seq<T>, x: T): (r: Result<nat>)
    ensures r.Ok? ==> r.value < |s| && s[r.value] == x && forall j :: 0 <= j < r.value ==> s[j] != x
    ensures r.Err? <==> x !in s
    ensures r.Err? ==> r.raised == ValueError
  {
    if |s| == 0 then Err(ValueError)
    else if s[0] == x then Ok(0)
    else
      match ListIndex(s[1..], x)
      case Ok(k) => Ok(k + 1)
      case Err(e) => Err(e)
  }

  /** The product `p / 100 * m` whose `int()` is the index of an option. */
  function SlotProduct(percentage: real, m: int): real
  {
    percentage / 100.0 * m as real
  }

  /** `DigitalVariable.percentage_to_text`: the option at `int(p / 100 * (n - 1))`. */
  function DigitalToText(options: seq<string>, percentage: real): Result<string>
  {
    PyIndex(options, Trunc(SlotProduct(percentage, |options| - 1)))
  }

  /** `DigitalVariable.text_to_percentage`: the option's index over `n - 1`, as a percentage. */
  function DigitalToPercentage(options: seq<string>, text: string): (r: Result<real>)
    ensures text !in options ==> r == Err(ValueError)
    ensures text in options && |options| == 1 ==> r == Err(ZeroDivisionError)
  {
    match ListIndex(options, text)
    case Err(e) => Err(e)
    case Ok(i) =>
      if |options| - 1 == 0 then Err(ZeroDivisionError)
      else Ok(GridPoint(i, |options| - 1))
  }

  /** The percentage `k / m * 100` of the `k`-th of `m + 1` options. */
  function GridPoint(k: int, m: nat): real
    requires m > 0
  {
    k as real / m as real * 100.0
  }

  /** `i / m * 100 / 100 * m` is `i` again. */
  lemma ScaleBack(i: nat, m: nat)
    requires m > 0
    ensures SlotProduct(GridPoint(i, m), m) == i as real
  {
    var x := i as real / m as real;
    assert x * m as real == i as real;
    assert x * 100.0 / 100.0 == x;
  }

  /** An index not above `m` over `m` lies in [0, 1]. */
  lemma FractionBounds(i: nat, m: nat)
    requires 0 < m && i <= m
    ensures 0.0 <= i as real / m as real <= 1.0
  {
    var x := i as real / m as real;
    assert x * m as real == i as real;
  }

  /** The grid point of an index not above `m` lies in [0, 100] and picks that index again. */
  lemma GridPointSlot(i: nat, m: nat)
    requires 0 < m && i <= m
    ensures 0.0 <= GridPoint(i, m) <= 100.0
    ensures Trunc(SlotProduct(GridPoint(i, m), m)) == i
  {
    ScaleBack(i, m);
    FractionBounds(i, m);
    TruncOfInteger(i as real);
  }

  /**
   * With two options or more, an option's percentage gives the option back:
   * the first option equal to it, which is the text itself.
   */
  lemma DigitalRoundTrip(options: seq<string>, text: string)
    requires |options| >= 2 && text in options
    ensures DigitalToPercentage(options, text).Ok?
    ensures DigitalToText(options, DigitalToPercentage(options, text).value) == Ok(text)
    ensures 0.0 <= DigitalToPercentage(options, text).value <= 100.0
  {
    var i := ListIndex(options, text).value;
    var m := |options| - 1;
    GridPointSlot(i, m);
    assert DigitalToPercentage(options, text) == Ok(GridPoint(i, m));
    assert DigitalToText(options, GridPoint(i, m)) == PyIndex(options, i);
  }

  /**
   * `percentage_to_text` on doubles: `int()` of the product the double
   * operations compute, which is the exact product plus their rounding
   * error `err`.
   */
  function DigitalToTextComputed(options: seq<string>, percentage: real, err: real): Result<string>
  {
    PyIndex(options, Trunc(SlotProduct(percentage, |options| - 1) + err))
  }

  /**
   * An option's percentage computed back to a product just below its index
   * (the doubles give `0.9999999999999998` for the option at index 1 of 4)
   * picks the option before it.
   */
  lemma TruncLosesOption(options: seq<string>, k: nat, err: real)
    requires 0 < k < |options| && -1.0 < err < 0.0
    ensures DigitalToTextComputed(options, GridPoint(k, |options| - 1), err) == Ok(options[k - 1])
  {
    var m := |options| - 1;
    ScaleBack(k, m);
    TruncJustBelow(k, err);
    var q := SlotProduct(GridPoint(k, m), m);
    assert q + err == k as real + err;
    assert Trunc(q + err) == k - 1;
    assert DigitalToTextComputed(options, GridPoint(k, m), err) == PyIndex(options, k - 1);
  }

  lemma TruncJustBelow(k: nat, err: real)
    requires 0 < k && -1.0 < err < 0.0
    ensures Trunc(k as real + err) == k - 1
  {
  }

  /** The instance: option "b" of four, whose percentage the doubles carry back to `1 - 2^-52`. */
  lemma FourOptionsLoseSecond(a: string, b: string, c: string, d: string)
    requires a != b
    ensures DigitalToPercentage([a, b, c, d], b) == Ok(GridPoint(1, 3))
    ensures DigitalToTextComputed([a, b, c, d], GridPoint(1, 3), -1.0 / 4503599627370496.0) == Ok(a)
  {
    assert ListIndex([a, b, c, d], b) == Ok(1) by {
      assert [a, b, c, d][1..] == [b, c, d];
    }
    TruncLosesOption([a, b, c, d], 1, -1.0 / 4503599627370496.0);
  }

  /** Nearest integer, halves rounding up. */
  function Round(x: real): (r: int)
    ensures r as real - 0.5 <= x < r as real + 0.5
  {
    (x + 0.5).Floor
  }

  /** `percentage_to_text` with `int(round(...))`, on the product the doubles compute. */
  function DigitalToTextRounded(options: seq<string>, percentage: real, err: real): Result<string>
  {
    PyIndex(options, Round(SlotProduct(percentage, |options| - 1) + err))
  }

  /** Rounding gives every option back from its percentage despite any error below one half. */
  lemma RoundedRoundTrip(options: seq<string>, text: string, err: real)
    requires |options| >= 2 && text in options && -0.5 <= err < 0.5
    ensures DigitalToPercentage(options, text).Ok?
    ensures DigitalToTextRounded(options, DigitalToPercentage(options, text).value, err) == Ok(text)
  {
    var i := ListIndex(options, text).value;
    var m := |options| - 1;
    ScaleBack(i, m);
    assert DigitalToPercentage(options, text) == Ok(GridPoint(i, m));
    assert Round(SlotProduct(GridPoint(i, m), m) + err) == i;
    assert DigitalToTextRounded(options, GridPoint(i, m), err) == PyIndex(options, i);
  }

  /** The option a percentage between 0 and 100 picks. */
  function DigitalSlot(options: seq<string>, percentage: real): int
  {
    Trunc(SlotProduct(percentage, |options| - 1))
  }

  lemma SlotBounds(p: real, m: nat)
    requires 0.0 <= p <= 100.0
    ensures 0.0 <= SlotProduct(p, m) <= m as real
  {
    var f := p / 100.0;
    assert 0.0 <= f <= 1.0;
    assert SlotProduct(p, m) == f * (m as real);
    ScaleWithin(f, m as real);
  }

  lemma ScaleWithin(f: real, x: real)
    requires 0.0 <= f <= 1.0 && 0.0 <= x
    ensures 0.0 <= f * x <= x
  {
    assert x - f * x == (1.0 - f) * x;
  }

  /** A percentage between 0 and 100 picks the option at a slot within the list. */
  lemma DigitalPicks(options: seq<string>, percentage: real)
    requires |options| >= 1 && 0.0 <= percentage <= 100.0
    ensures var k := DigitalSlot(options, percentage);
      0 <= k < |options| && DigitalToText(options, percentage) == Ok(options[k])
  {
    var m := |options| - 1;
    SlotBounds(percentage, m);
    var q := SlotProduct(percentage, m);
    assert Trunc(q) as real <= q <= m as real;
    assert Trunc(q) <= m;
  }

  /** In a list without repeats an element's first position is its position. */
  lemma IndexOfDistinct<T>(s: seq<T>, k: nat)
    requires k < |s| && forall i, j :: 0 <= i < j < |s| ==> s[i] != s[j]
    ensures ListIndex(s, s[k]) == Ok(k)
  {
    var r := ListIndex(s, s[k]);
    assert r.Ok? && s[r.value] == s[k];
  }

  /** The grid point of a slot is not above the percentage that picked it. */
  lemma SlotBelow(percentage: real, m: nat)
    requires m > 0 && 0.0 <= percentage <= 100.0
    ensures GridPoint(Trunc(SlotProduct(percentage, m)), m) <= percentage
  {
    var f := percentage / 100.0;
    var q := f * m as real;
    SlotBounds(percentage, m);
    var k := Trunc(q);
    assert k as real <= q;
    var g := k as real / m as real;
    assert g * m as real == k as real;
    assert g <= f;
    assert GridPoint(k, m) == g * 100.0;
  }

  /**
   * A percentage between 0 and 100 picks an option, the one at the largest
   * grid point `k / (n - 1) * 100` not above it; for distinct options that
   * option converts back to that grid point.
   */
  lemma DigitalQuantizes(options: seq<string>, percentage: real)
    requires |options| >= 2 && 0.0 <= percentage <= 100.0
    requires forall i, j :: 0 <= i < j < |options| ==> options[i] != options[j]
    ensures var k := DigitalSlot(options, percentage);
      0 <= k < |options| && DigitalToText(options, percentage) == Ok(options[k])
      && DigitalToPercentage(options, options[k]) == Ok(GridPoint(k, |options| - 1))
      && GridPoint(k, |options| - 1) <= percentage
  {
    DigitalPicks(options, percentage);
    var k := DigitalSlot(options, percentage);
    IndexOfDistinct(options, k);
    SlotBelow(percentage, |options| - 1);
  }

  /** `DigitalVariableOnOff`'s options. */
  const ON_OFF: seq<string> := ["off", "on"]

  lemma OnOffPercentages()
    ensures DigitalToPercentage(ON_OFF, "off") == Ok(0.0)
    ensures DigitalToPercentage(ON_OFF, "on") == Ok(100.0)
  {
    assert ListIndex(ON_OFF, "off") == Ok(0);
    assert ON_OFF[0] != "on";
    assert ListIndex(ON_OFF, "on") == Ok(1);
  }

  // ---------------------------------------------------------------------------
  // AnalogVariable

  datatype Limits = Limits(lower: real, upper: real)

  /**
   * `AnalogVariable.__init__` takes the limits from `range`;
   * `AnalogVariableUnipolar` then refuses a range whose ends have opposite signs.
   */
  function AnalogLimits(range: (real, real), unipolar: bool): (r: Result<Limits>)
    ensures r.Ok? ==> r.value == Limits(range.0, range.1)
    ensures r.Err? <==> unipolar && range.1 * range.0 < 0.0
    ensures r.Err? ==> r.raised == ValueError
  {
    if unipolar && range.1 * range.0 < 0.0 then Err(ValueError) else Ok(Limits(range.0, range.1))
  }

  /** An accepted unipolar range lies on one side of zero. */
  lemma UnipolarOneSign(range: (real, real))
    requires AnalogLimits(range, true).Ok?
    ensures (range.0 >= 0.0 && range.1 >= 0.0) || (range.0 <= 0.0 && range.1 <= 0.0)
  {
  }

  /** `AnalogVariable.get_value`: the percentage placed between the limits. */
  function AnalogValue(lim: Limits, percentage: real): real
  {
    lim.lower + percentage / 100.0 * (lim.upper - lim.lower)
  }

  /** `text_to_percentage` for a text whose `float()` is `x`. */
  function AnalogToPercentage(lim: Limits, x: real): (r: Result<real>)
    ensures r.Err? <==> lim.upper == lim.lower
    ensures r.Err? ==> r.raised == ZeroDivisionError
  {
    if lim.upper - lim.lower == 0.0 then Err(ZeroDivisionError)
    else Ok((x - lim.lower) / (lim.upper - lim.lower) * 100.0)
  }

  /** Value and percentage are inverse to each other for limits that differ. */
  lemma AnalogInverse(lim: Limits, x: real, percentage: real)
    requires lim.upper != lim.lower
    ensures AnalogValue(lim, AnalogToPercentage(lim, x).value) == x
    ensures AnalogToPercentage(lim, AnalogValue(lim, percentage)) == Ok(percentage)
  {
    var w := lim.upper - lim.lower;
    var f := (x - lim.lower) / w;
    assert f * w == x - lim.lower;
    assert f * 100.0 / 100.0 == f;
    var v := AnalogValue(lim, percentage);
    var g := percentage / 100.0;
    assert (v - lim.lower) == g * w;
    assert (g * w) / w == g;
    assert g * 100.0 == percentage;
  }

  /** `AnalogVariablePercentage` (range [0, 100]): the value is the percentage. */
  lemma PercentageVariable(percentage: real)
    ensures AnalogLimits((0.0, 100.0), true) == Ok(Limits(0.0, 100.0))
    ensures AnalogValue(Limits(0.0, 100.0), percentage) == percentage
  {
  }

  // ---------------------------------------------------------------------------
  // Variable: what arrives from a channel and what the user enters

  /**
   * A variable widget with its subclass' two conversions, whether a
   * `channel_out` is set, and the values written to that channel so far.
   */
  class Variable {
    const toText: real -> Result<string>
    const toPercentage: string -> Result<real>
    const hasChannelOut: bool
    var percentage: real
    var userIsEditing: bool
    /** `value_display.text`. */
    var display: string
    var written: seq<real>

    constructor (toText: real -> Result<string>, toPercentage: string -> Result<real>, hasChannelOut: bool)
      ensures this.toText == toText && this.toPercentage == toPercentage && this.hasChannelOut == hasChannelOut
      ensures percentage == 0.0 && !userIsEditing && display == "" && written == []
    {
      this.toText := toText;
      this.toPercentage := toPercentage;
      this.hasChannelOut := hasChannelOut;
      percentage := 0.0;
      userIsEditing := false;
      display := "";
      written := [];
    }

    /** The display shows the text of the current percentage. */
    ghost predicate ShowsValue()
      reads this
    {
      toText(percentage) == Ok(display)
    }

    /**
     * `user_entered_text`: the percentage of the text is stored and, with a
     * `channel_out`, written to it; a conversion that raises changes nothing.
     */
    method UserEnteredText(text: string) returns (raised: Option<Raised>)
      modifies this`percentage, this`written
      ensures toPercentage(text).Err? ==>
        raised == Some(toPercentage(text).raised) && percentage == old(percentage) && written == old(written)
      ensures toPercentage(text).Ok? ==>
        raised == None && percentage == toPercentage(text).value
        && written == old(written) + (if hasChannelOut then [percentage] else [])
    {
      var p := toPercentage(text);
      if p.Err? {
        return Some(p.raised);
      }
      percentage := p.value;
      if hasChannelOut {
        written := written + [percentage];
      }
      raised := None;
    }

    /**
     * `new_data_arrived`: the percentage is always stored; the display is
     * refreshed only while the user is not editing.
     */
    method NewDataArrived(p: real) returns (raised: Option<Raised>)
      modifies this`percentage, this`display
      ensures percentage == p
      ensures userIsEditing ==> display == old(display) && raised == None
      ensures !userIsEditing && toText(p).Ok? ==> display == toText(p).value && raised == None && ShowsValue()
      ensures !userIsEditing && toText(p).Err? ==> display == old(display) && raised == Some(toText(p).raised)
    {
      percentage := p;
      if !userIsEditing {
        var t := toText(percentage);
        if t.Err? {
          return Some(t.raised);
        }
        display := t.value;
      }
      raised := None;
    }
  }

  /** A digital variable's conversions. */
  method NewDigitalVariable(options: seq<string>, hasChannelOut: bool) returns (v: Variable)
    ensures fresh(v) && v.hasChannelOut == hasChannelOut
    ensures forall p :: v.toText(p) == DigitalToText(options, p)
    ensures forall t :: v.toPercentage(t) == DigitalToPercentage(options, t)
  {
    v := new Variable(p => DigitalToText(options, p), t => DigitalToPercentage(options, t), hasChannelOut);
  }

  // ---------------------------------------------------------------------------
  // DurationInput

  /** The duration input of the variables screen: its text and its cursor (column, row). */
  class DurationInput {
    var text: string
    var cursor: (int, int)

    constructor (text: string, cursor: (int, int))
      ensures this.text == text && this.cursor == cursor
    {
      this.text := text;
      this.cursor := cursor;
    }

    /** `cursor_advancement_in_real_text`, against the current text. */
    method CursorAdvancementInRealText(c: int, digitsAdded: nat) returns (r: int)
      ensures r == Min(CursorAfter(c, digitsAdded), |text| - 1)
    {
      r := CursorAdvancement(c, digitsAdded, |text|);
    }

    /**
     * `insert_text`: the typed digits overwrite those at the cursor, the
     * result is laid out as `hh:mm:ss.mmm` and the cursor moves past what
     * was typed.
     */
    method InsertText(substring: string)
      modifies this
      ensures text == InsertedText(old(text), old(cursor).0, substring)
      ensures cursor == (InsertedColumn(old(text), old(cursor).0, substring), old(cursor).1)
    {
      var stripped := Text.KeepDigits(substring);
      var cc, cr := cursor.0, cursor.1;
      cc := CursorAdvancementInRealText(cc, 0);
      var newDigits := InsertedDigits(text, cc, stripped);
      text := Layout(newDigits);
      cc := CursorAdvancementInRealText(cc, |stripped|);
      cursor := (cc, cr);
    }
  }
}
