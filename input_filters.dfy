/**
 * The text filters of the numeric and duration text inputs
 * (instrumentino/variables/__init__.py, instrumentino/screens/list_widgets.py):
 * the float filter applied to typed text, and the duration editor that
 * keeps the nine digits of `hh:mm:ss.mmm` and overwrites them at the cursor.
 */
module InputFilters {
  import opened Text
  import Seqs

  function Min(a: int, b: int): int { if a <= b then a else b }

  /** Where Python's slice bound `i` falls in a sequence of length `n`. */
  function SliceIndex(n: nat, i: int): (k: nat)
    ensures k <= n
    ensures 0 <= i ==> k == Min(i, n)
  {
    if i < 0 then (if n + i < 0 then 0 else n + i) else Min(i, n)
  }

  /** Python's `s[:i]`. */
  function PyTake(s: string, i: int): string
  {
    s[..SliceIndex(|s|, i)]
  }

  /** Python's `s[i:]`. */
  function PyDrop(s: string, i: int): string
  {
    s[SliceIndex(|s|, i)..]
  }

  lemma TakeDrop(s: string, i: int)
    ensures PyTake(s, i) + PyDrop(s, i) == s
  {
  }

  // ---------------------------------------------------------------------------
  // FloatInput.insert_text

  /**
   * The text `FloatInput.insert_text` (and `ListItemFloatInput.insert_text`)
   * passes on when `substring` is typed into `text`: only its digits when
   * `text` already has a point, otherwise the digits on either side of the
   * substring's first '.' around that one point.
   */
  function FloatFilter(text: string, substring: string): string
  {
    if '.' in text then KeepDigits(substring)
    else
      var i := Seqs.Find(substring, ['.']);
      if i == -1 then KeepDigits(substring)
      else KeepDigits(substring[..i]) + "." + KeepDigits(substring[i + 1..])
  }

  /** Every character is a digit or a point, and there is at most one point. */
  predicate DecimalText(s: string)
  {
    (forall i :: 0 <= i < |s| ==> IsDigit(s[i]) || s[i] == '.')
    && (forall i, j :: 0 <= i < j < |s| && s[i] == '.' ==> s[j] != '.')
  }

  lemma DigitsAroundPoint(a: string, b: string)
    requires AllDigits(a) && AllDigits(b)
    ensures DecimalText(a + "." + b) && '.' in a + "." + b
    ensures KeepDigits(a + "." + b) == a + b
  {
    PointBetweenDigits(a, b);
    DigitsAroundPointKept(a, b);
  }

  lemma PointBetweenDigits(a: string, b: string)
    requires AllDigits(a) && AllDigits(b)
    ensures DecimalText(a + "." + b) && '.' in a + "." + b
  {
    var s := a + "." + b;
    assert s[|a|] == '.';
    forall i | 0 <= i < |s| && i != |a|
      ensures IsDigit(s[i])
    {
      if i < |a| {
        assert s[i] == a[i];
      } else {
        assert s[i] == b[i - |a| - 1];
      }
    }
  }

  lemma DigitsAroundPointKept(a: string, b: string)
    requires AllDigits(a) && AllDigits(b)
    ensures KeepDigits(a + "." + b) == a + b
  {
    var point: string := ['.'];
    assert !IsDigit(point[0]) && point[1..] == [];
    assert KeepDigits(point) == [];
    var front := a + point;
    KeepDigitsAppend(a, point);
    KeepDigitsOfDigits(a);
    assert KeepDigits(front) == a;
    KeepDigitsAppend(front, b);
    KeepDigitsOfDigits(b);
    assert KeepDigits(front + b) == a + b;
    assert a + "." + b == front + b;
  }

  lemma DigitsOnly(s: string)
    requires AllDigits(s)
    ensures DecimalText(s) && '.' !in s
  {
    assert forall i :: 0 <= i < |s| ==> s[i] != '.';
  }

  /**
   * What passes the float filter is decimal text with every digit typed, in
   * order; it holds a point exactly when the typed text does and the field
   * does not.
   */
  lemma FloatFilterKeepsDigits(text: string, substring: string)
    ensures DecimalText(FloatFilter(text, substring))
    ensures KeepDigits(FloatFilter(text, substring)) == KeepDigits(substring)
    ensures '.' in FloatFilter(text, substring) <==> '.' !in text && '.' in substring
  {
    var r := FloatFilter(text, substring);
    var i := Seqs.Find(substring, ['.']);
    if '.' in text || i == -1 {
      assert r == KeepDigits(substring);
      DigitsOnly(r);
      KeepDigitsOfDigits(r);
      if i == -1 {
        CharAbsent(substring, '.', 0, |substring|);
      }
    } else {
      var a, b := substring[..i], substring[i + 1..];
      assert substring == a + ['.'] + b by {
        assert substring[i..i + 1] == ['.'];
      }
      DigitsAroundPoint(KeepDigits(a), KeepDigits(b));
      KeepDigitsAppend(a + ['.'], b);
      KeepDigitsAppend(a, ['.']);
      assert substring[i] == '.';
    }
  }

  // ---------------------------------------------------------------------------
  // DurationInput

  /** `total_seconds_digits`: two each for hours, minutes and seconds, three for milliseconds. */
  const TOTAL_SECONDS_DIGITS: nat := 9

  /** `separators_positions`: where the ':' and '.' of `hh:mm:ss.mmm` stand. */
  predicate IsSeparatorSlot(c: int) { c == 2 || c == 5 || c == 8 }

  /** A cursor on a separator moves past it. */
  function Skip(c: int): int { if IsSeparatorSlot(c) then c + 1 else c }

  /** `cursor_advancement_in_real_text` before the final `min`: `k` digits typed from `c`. */
  function CursorAfter(c: int, k: nat): int
    decreases k
  {
    if k == 0 then Skip(c) else CursorAfter(Skip(c) + 1, k - 1)
  }

  /** The positions in [lo, hi) that hold a digit of `hh:mm:ss.mmm`. */
  function DigitSlots(lo: int, hi: int): nat
    decreases hi - lo
  {
    if hi <= lo then 0 else DigitSlots(lo, hi - 1) + (if IsSeparatorSlot(hi - 1) then 0 else 1)
  }

  lemma {:induction false} DigitSlotsSplit(lo: int, mid: int, hi: int)
    requires lo <= mid <= hi
    ensures DigitSlots(lo, hi) == DigitSlots(lo, mid) + DigitSlots(mid, hi)
    decreases hi - mid
  {
    if hi > mid {
      DigitSlotsSplit(lo, mid, hi - 1);
    }
  }

  /**
   * Typing `k` digits from `c` lands the cursor after exactly `k` digit
   * positions, never on a separator, and at least `k` places further on.
   */
  lemma {:induction false} CursorLanding(c: int, k: nat)
    ensures var r := CursorAfter(c, k);
      c + k <= r && !IsSeparatorSlot(r) && DigitSlots(c, r) == k
    decreases k
  {
    if k == 0 {
      assert DigitSlots(c, Skip(c)) == 0 by {
        if IsSeparatorSlot(c) {
          assert DigitSlots(c, c) == 0;
        }
      }
    } else {
      var next := Skip(c) + 1;
      CursorLanding(next, k - 1);
      var r := CursorAfter(next, k - 1);
      assert DigitSlots(c, next) == 1 by {
        if IsSeparatorSlot(c) {
          assert DigitSlots(c, c + 1) == 0;
        } else {
          assert DigitSlots(c, c) == 0;
        }
      }
      DigitSlotsSplit(c, next, r);
    }
  }

  /** `cursor_advancement_in_real_text(cursor, digitsAdded)` for a text of `textLength` characters. */
  method CursorAdvancement(cursor: int, digitsAdded: int, textLength: nat) returns (r: int)
    ensures r == Min(CursorAfter(cursor, if digitsAdded < 0 then 0 else digitsAdded), textLength - 1)
  {
    var k: nat := if digitsAdded < 0 then 0 else digitsAdded;
    var c := cursor;
    var i := 0;
    while i < k
      invariant 0 <= i <= k
      invariant CursorAfter(c, k - i) == CursorAfter(cursor, k)
    {
      if IsSeparatorSlot(c) {
        c := c + 1;
      }
      c := c + 1;
      i := i + 1;
    }
    if IsSeparatorSlot(c) {
      c := c + 1;
    }
    r := Min(c, textLength - 1);
  }

  /** `re.findall('..', s)` on digit text: the successive pairs, an odd last digit dropped. */
  function Pairs(s: string): seq<string>
    decreases |s|
  {
    if |s| < 2 then [] else [s[..2]] + Pairs(s[2..])
  }

  /** The display text for the digits kept: pairs joined by ':', then '.' and the last three. */
  function Layout(d: string): string
  {
    var milliseconds := PyDrop(d, -3);
    var head := PyTake(d, -3);
    Join(Pairs(head), ":") + (if |milliseconds| > 0 then "." + milliseconds else "")
  }

  /**
   * The digits after `insert_text`: those before the cursor, then the typed
   * ones, then those after the cursor less as many as were typed, at most
   * TOTAL_SECONDS_DIGITS of them.
   */
  function InsertedDigits(text: string, cc: int, typed: string): string
  {
    PyTake(KeepDigits(PyTake(text, cc)) + typed + PyDrop(KeepDigits(PyDrop(text, cc)), |typed|),
           TOTAL_SECONDS_DIGITS)
  }

  /** The digits `d` with `typed` written over them from position `p`. */
  function Overwrite(d: string, p: nat, typed: string): string
    requires p <= |d|
  {
    d[..p] + typed + d[Min(p + |typed|, |d|)..]
  }

  /**
   * The typed digits overwrite the text's digits from the cursor on: the
   * digits before the cursor stay, the following ones give way one for one,
   * and the result is cut at TOTAL_SECONDS_DIGITS.
   */
  lemma InsertOverwrites(text: string, cc: int, typed: string)
    ensures var p := |KeepDigits(PyTake(text, cc))|;
      p <= |KeepDigits(text)|
      && InsertedDigits(text, cc, typed) == PyTake(Overwrite(KeepDigits(text), p, typed), TOTAL_SECONDS_DIGITS)
  {
    var before, after := PyTake(text, cc), PyDrop(text, cc);
    TakeDrop(text, cc);
    KeepDigitsAppend(before, after);
    var d := KeepDigits(text);
    var p := |KeepDigits(before)|;
    assert KeepDigits(before) == d[..p] && KeepDigits(after) == d[p..];
    assert PyDrop(d[p..], |typed|) == d[Min(p + |typed|, |d|)..];
  }

  /** The text of a duration field in its fixed shape `hh:mm:ss.mmm`. */
  predicate Shaped(text: string)
  {
    |KeepDigits(text)| == TOTAL_SECONDS_DIGITS && text == Layout(KeepDigits(text))
  }

  /** Nine digits lay out as `hh:mm:ss.mmm`. */
  lemma LayoutOfNine(d: string)
    requires |d| == TOTAL_SECONDS_DIGITS
    ensures Layout(d) == d[..2] + ":" + d[2..4] + ":" + d[4..6] + "." + d[6..]
  {
    var head := d[..6];
    assert PyTake(d, -3) == head && PyDrop(d, -3) == d[6..];
    var t := d[4..6];
    assert t[..2] == t && Pairs(t[2..]) == [];
    assert Pairs(t) == [t];
    var u := d[2..6];
    assert u[..2] == d[2..4] && u[2..] == t;
    assert Pairs(u) == [d[2..4], t];
    assert head[..2] == d[..2] && head[2..] == u;
    assert Pairs(head) == [d[..2], d[2..4], d[4..6]];
    Join3(d[..2], d[2..4], d[4..6], ":");
  }

  lemma Join3(a: string, b: string, c: string, sep: string)
    ensures Join([a, b, c], sep) == a + sep + b + sep + c
  {
    assert [a, b, c][1..] == [b, c];
    assert [b, c][1..] == [c];
    assert Join([b, c], sep) == b + sep + c;
    assert Join([a, b, c], sep) == a + sep + (b + sep + c);
  }

  /** Nine digits laid out give back those digits, in a text of twelve characters. */
  lemma NineDigitsShaped(d: string)
    requires |d| == TOTAL_SECONDS_DIGITS && AllDigits(d)
    ensures |Layout(d)| == 12 && KeepDigits(Layout(d)) == d && Shaped(Layout(d))
  {
    LayoutOfNine(d);
    var a, b, c, e := d[..2], d[2..4], d[4..6], d[6..];
    assert d == a + b + c + e;
    KeepDigitsOfDigits(a);
    KeepDigitsOfDigits(b);
    KeepDigitsOfDigits(c);
    KeepDigitsOfDigits(e);
    KeepDigitsAppend(a + ":" + b + ":" + c + ".", e);
    KeepDigitsAppend(a + ":" + b + ":" + c, ".");
    KeepDigitsAppend(a + ":" + b + ":", c);
    KeepDigitsAppend(a + ":" + b, ":");
    KeepDigitsAppend(a + ":", b);
    KeepDigitsAppend(a, ":");
    assert KeepDigits(Layout(d)) == a + b + c + e;
  }

  lemma DigitsConcat(x: string, y: string)
    requires AllDigits(x) && AllDigits(y)
    ensures AllDigits(x + y)
  {
    forall i | 0 <= i < |x + y| ensures IsDigit((x + y)[i]) {
      if i >= |x| {
        assert (x + y)[i] == y[i - |x|];
      }
    }
  }

  /** Digits written over digits leave digits. */
  lemma OverwriteDigits(d: string, p: nat, typed: string)
    requires p <= |d| && AllDigits(d) && AllDigits(typed)
    ensures AllDigits(Overwrite(d, p, typed))
  {
    var x, y := d[..p], d[Min(p + |typed|, |d|)..];
    assert AllDigits(x);
    assert AllDigits(y) by {
      forall i | 0 <= i < |y| ensures IsDigit(y[i]) {
        assert y[i] == d[Min(p + |typed|, |d|) + i];
      }
    }
    DigitsConcat(x, typed);
    DigitsConcat(x + typed, y);
  }

  /**
   * Typing into a field of shape `hh:mm:ss.mmm` leaves it in that shape:
   * nine digits come back, laid out as before.
   */
  lemma InsertKeepsShape(text: string, cc: int, typed: string)
    requires Shaped(text) && AllDigits(typed)
    ensures |InsertedDigits(text, cc, typed)| == TOTAL_SECONDS_DIGITS
    ensures Shaped(Layout(InsertedDigits(text, cc, typed))) && |Layout(InsertedDigits(text, cc, typed))| == 12
  {
    InsertOverwrites(text, cc, typed);
    var d := KeepDigits(text);
    var p := |KeepDigits(PyTake(text, cc))|;
    var w := Overwrite(d, p, typed);
    assert |w| >= TOTAL_SECONDS_DIGITS;
    OverwriteDigits(d, p, typed);
    var n := InsertedDigits(text, cc, typed);
    assert n == w[..TOTAL_SECONDS_DIGITS];
    assert AllDigits(n);
    NineDigitsShaped(n);
  }

  /** Where `insert_text` puts the cursor before typing: `cursor_advancement_in_real_text(cc, 0)`. */
  function InsertStart(text: string, column: int): int
  {
    Min(Skip(column), |text| - 1)
  }

  /** The text after `insert_text(substring)` with the cursor at `column`. */
  function InsertedText(text: string, column: int, substring: string): string
  {
    Layout(InsertedDigits(text, InsertStart(text, column), KeepDigits(substring)))
  }

  /** The cursor column after `insert_text(substring)`, measured against the new text. */
  function InsertedColumn(text: string, column: int, substring: string): int
  {
    Min(CursorAfter(InsertStart(text, column), |KeepDigits(substring)|), |InsertedText(text, column, substring)| - 1)
  }

  /**
   * A field of shape `hh:mm:ss.mmm` keeps that shape whatever is typed into
   * it, and a cursor that was in the text stays in it.
   */
  lemma InsertKeepsField(text: string, column: int, substring: string)
    requires Shaped(text)
    ensures Shaped(InsertedText(text, column, substring)) && |InsertedText(text, column, substring)| == 12
    ensures column >= 0 ==> 0 <= InsertedColumn(text, column, substring) < 12
  {
    var start := InsertStart(text, column);
    var typed := KeepDigits(substring);
    InsertKeepsShape(text, start, typed);
    CursorLanding(start, |typed|);
    assert |text| == 12 by {
      NineDigitsShaped(KeepDigits(text));
    }
  }
}
