/**
 * The C library string routines the firmware relies on: `strtok` over a
 * line of text, `strtol` and the AVR's 16-bit `int` and 32-bit
 * `unsigned long` conversions.
 */
module CStrings {
  import Text

  // ------------------------------------------------------------- strtok

  /** The text left after the leading delimiters (spaces). */
  function DropSpaces(s: string): (r: string)
    ensures |r| <= |s|
  {
    if |s| > 0 && s[0] == ' ' then DropSpaces(s[1..]) else s
  }

  /** What `DropSpaces` drops is spaces, and what it keeps is the suffix that starts with a non-space. */
  lemma {:induction false} DropSpacesFacts(s: string)
    ensures DropSpaces(s) == s[|s| - |DropSpaces(s)|..]
    ensures |DropSpaces(s)| > 0 ==> DropSpaces(s)[0] != ' '
    ensures forall i :: 0 <= i < |s| - |DropSpaces(s)| ==> s[i] == ' '
  {
    if |s| > 0 && s[0] == ' ' {
      DropSpacesFacts(s[1..]);
    }
  }

  /** How many characters precede the first space (all of them if there is none). */
  function WordLength(s: string): (n: nat)
    ensures n <= |s|
  {
    if |s| == 0 || s[0] == ' ' then 0 else 1 + WordLength(s[1..])
  }

  /** The word holds no space and ends at a space or at the end of the text. */
  lemma {:induction false} WordLengthFacts(s: string)
    ensures ' ' !in s[..WordLength(s)]
    ensures WordLength(s) < |s| ==> s[WordLength(s)] == ' '
  {
    if |s| > 0 && s[0] != ' ' {
      WordLengthFacts(s[1..]);
      var n := WordLength(s);
      assert s[..n] == [s[0]] + s[1..][..n - 1];
    }
  }

  /**
   * One call of `strtok` with the delimiter " ": the next token, or NULL
   * when only spaces are left, and the text where the next call
   * resumes, just past the delimiter that ended the token.
   */
  function Strtok(s: string): (r: (Token, string))
    ensures r.0.Str? ==> |r.0.text| >= 1 && ' ' !in r.0.text && |r.1| < |s|
    ensures r.0.Null? ==> r.1 == ""
  {
    var t := DropSpaces(s);
    if |t| == 0 then (Null, "")
    else
      var n := WordLength(t);
      DropSpacesFacts(s);
      WordLengthFacts(t);
      (Str(t[..n]), if n < |t| then t[n + 1..] else "")
  }

  /** strtok's result: a token (a C string) or NULL. */
  datatype Token = Null | Str(text: string)

  /** Every token `strtok` hands out, one call after another, until NULL. */
  function TokensOf(s: string): (r: seq<string>)
    decreases |s|
  {
    var st := Strtok(s);
    if st.0.Null? then [] else [st.0.text] + TokensOf(st.1)
  }

  /** Tokens are never empty and never hold a space; a line of spaces has none. */
  lemma {:induction false} TokensAreWords(s: string)
    ensures forall i :: 0 <= i < |TokensOf(s)| ==> |TokensOf(s)[i]| >= 1 && ' ' !in TokensOf(s)[i]
    ensures |TokensOf(s)| == 0 <==> forall i :: 0 <= i < |s| ==> s[i] == ' '
    decreases |s|
  {
    var st := Strtok(s);
    var t := DropSpaces(s);
    DropSpacesFacts(s);
    if st.0.Str? {
      TokensAreWords(st.1);
      assert TokensOf(s) == [st.0.text] + TokensOf(st.1);
      assert s[|s| - |t|] != ' ';
    } else {
      assert |t| == 0;
    }
  }

  /** A word followed by a space (or nothing) is as long as the word. */
  lemma {:induction false} WordFirst(w: string, tail: string)
    requires ' ' !in w && (|tail| == 0 || tail[0] == ' ')
    ensures WordLength(w + tail) == |w|
  {
    if |w| > 0 {
      assert (w + tail)[0] == w[0];
      assert (w + tail)[1..] == w[1..] + tail;
      WordFirst(w[1..], tail);
    }
  }

  /** `strtok` on a word alone gives the word and nothing after it. */
  lemma {:induction false} StrtokLastWord(w: string)
    requires |w| >= 1 && ' ' !in w
    ensures Strtok(w) == (Str(w), "")
  {
    WordFirst(w, "");
    assert w + "" == w;
    assert w[..|w|] == w;
  }

  /** `strtok` on a word and a space gives the word and resumes after the space. */
  lemma {:induction false} StrtokFirstWord(w: string, rest: string)
    requires |w| >= 1 && ' ' !in w
    ensures Strtok(w + (" " + rest)) == (Str(w), rest)
  {
    var s := w + (" " + rest);
    WordFirst(w, " " + rest);
    assert s[..|w|] == w && s[|w| + 1..] == rest;
  }

  /**
   * `strtok` gives back the words of a line made of non-empty, space-free
   * words joined by single spaces.
   */
  lemma {:induction false} TokensOfJoin(words: seq<string>)
    requires forall i :: 0 <= i < |words| ==> |words[i]| >= 1 && ' ' !in words[i]
    ensures TokensOf(Text.Join(words, " ")) == words
  {
    if |words| == 1 {
      StrtokLastWord(words[0]);
      assert TokensOf("") == [];
    } else if |words| > 1 {
      var w, rest := words[0], words[1..];
      var j := Text.Join(rest, " ");
      var s := Text.Join(words, " ");
      assert s == w + (" " + j);
      StrtokFirstWord(w, j);
      assert TokensOf(s) == [w] + TokensOf(j);
      TokensOfJoin(rest);
      assert words == [w] + rest;
    }
  }

  /** Runs of spaces separate tokens no differently from single ones. */
  lemma DoubleSpaceCollapsed()
    ensures TokensOf("Read  A0") == ["Read", "A0"]
  {
    assert "Read  A0" == "Read" + (" " + " A0");
    StrtokFirstWord("Read", " A0");
    assert " A0"[1..] == "A0";
    assert DropSpaces(" A0") == DropSpaces("A0");
    StrtokLastWord("A0");
    assert Strtok(" A0") == Strtok("A0");
    assert TokensOf("") == [];
  }

  // ------------------------------------------------------------- strtol

  const LONG_MIN: int := -0x8000_0000
  const LONG_MAX: int := 0x7FFF_FFFF

  /** The leading decimal digits of `s`. */
  function LeadingDigits(s: string): (r: string)
    ensures |r| <= |s|
  {
    if |s| > 0 && Text.IsDigit(s[0]) then [s[0]] + LeadingDigits(s[1..]) else ""
  }

  /** The leading digits are a prefix, all digits, and stop at a non-digit or the end. */
  lemma {:induction false} LeadingDigitsFacts(s: string)
    ensures Text.AllDigits(LeadingDigits(s)) && LeadingDigits(s) == s[..|LeadingDigits(s)|]
    ensures |LeadingDigits(s)| < |s| ==> !Text.IsDigit(s[|LeadingDigits(s)|])
  {
    if |s| > 0 && Text.IsDigit(s[0]) {
      LeadingDigitsFacts(s[1..]);
    }
  }

  /** Leading white space, as C's `isspace` (the same set as Python's). */
  function DropWhite(s: string): (r: string)
    ensures |r| <= |s|
  {
    if |s| > 0 && Text.IsSpace(s[0]) then DropWhite(s[1..]) else s
  }

  /** What `DropWhite` keeps is a suffix that starts with a non-space. */
  lemma {:induction false} DropWhiteFacts(s: string)
    ensures DropWhite(s) == s[|s| - |DropWhite(s)|..]
    ensures |DropWhite(s)| > 0 ==> !Text.IsSpace(DropWhite(s)[0])
  {
    if |s| > 0 && Text.IsSpace(s[0]) {
      DropWhiteFacts(s[1..]);
    }
  }

  /** Clamps to the range of a 32-bit `long`, as `strtol` does on overflow. */
  function ClampLong(x: int): (r: int)
    ensures LONG_MIN <= r <= LONG_MAX
    ensures LONG_MIN <= x <= LONG_MAX ==> r == x
    ensures x > LONG_MAX ==> r == LONG_MAX
    ensures x < LONG_MIN ==> r == LONG_MIN
  {
    if x > LONG_MAX then LONG_MAX else if x < LONG_MIN then LONG_MIN else x
  }

  /**
   * `strtol(s, NULL, 10)`: white space, an optional sign and the longest run
   * of digits that follows; no digits at all read as 0, and an out-of-range
   * value is clamped.
   */
  function StrToL(s: string): (r: int)
    ensures LONG_MIN <= r <= LONG_MAX
  {
    ClampLong(SignedValue(DropWhite(s)))
  }

  /** The value of an optional sign and the digits after it. */
  function SignedValue(t: string): int
  {
    if |t| > 0 && t[0] == '-' then -(Magnitude(t[1..]) as int)
    else if |t| > 0 && t[0] == '+' then Magnitude(t[1..])
    else Magnitude(t)
  }

  /** The value of the leading digits; none read as 0. */
  function Magnitude(t: string): nat
  {
    LeadingDigitsFacts(t);
    Text.DigitsValue(LeadingDigits(t))
  }

  lemma {:induction false} LeadingDigitsOf(d: string, tail: string)
    requires Text.AllDigits(d) && (|tail| == 0 || !Text.IsDigit(tail[0]))
    ensures LeadingDigits(d + tail) == d
  {
    if |d| > 0 {
      assert (d + tail)[0] == d[0];
      assert (d + tail)[1..] == d[1..] + tail;
      LeadingDigitsOf(d[1..], tail);
      assert d == [d[0]] + d[1..];
    }
  }

  /**
   * `strtol` reads back a number printed in decimal, whatever follows it as
   * long as that does not start with a digit; a number beyond a `long` is
   * clamped.
   */
  lemma {:induction false} StrToLOfIntToString(i: int, tail: string)
    requires |tail| == 0 || !Text.IsDigit(tail[0])
    ensures StrToL(Text.IntToString(i) + tail) == ClampLong(i)
  {
    if i >= 0 {
      NonNegativePrinted(i, tail);
    } else {
      NegativePrinted(i, tail);
    }
  }

  lemma {:induction false} NonNegativePrinted(i: nat, tail: string)
    requires |tail| == 0 || !Text.IsDigit(tail[0])
    ensures StrToL(Text.IntToString(i) + tail) == ClampLong(i)
  {
    var d := Text.NatToString(i);
    assert Text.DigitsValue(d) == i by { Text.DigitsOfNat(i); }
    assert Text.IntToString(i) == d;
    StrToLOfDigits(d, tail);
  }

  lemma {:induction false} NegativePrinted(i: int, tail: string)
    requires i < 0 && (|tail| == 0 || !Text.IsDigit(tail[0]))
    ensures StrToL(Text.IntToString(i) + tail) == ClampLong(i)
  {
    var d := Text.NatToString(-i);
    assert Text.DigitsValue(d) == -i by { Text.DigitsOfNat(-i); }
    assert Text.IntToString(i) + tail == "-" + (d + tail) by {
      assert Text.IntToString(i) == "-" + d;
    }
    StrToLOfNegatedDigits(d, tail);
  }

  lemma {:induction false} StrToLOfDigits(d: string, tail: string)
    requires |d| >= 1 && Text.AllDigits(d) && (|tail| == 0 || !Text.IsDigit(tail[0]))
    ensures StrToL(d + tail) == ClampLong(Text.DigitsValue(d))
  {
    var s := d + tail;
    assert s[0] == d[0];
    assert DropWhite(s) == s;
    LeadingDigitsOf(d, tail);
    assert Magnitude(s) == Text.DigitsValue(d);
  }

  lemma {:induction false} StrToLOfNegatedDigits(d: string, tail: string)
    requires |d| >= 1 && Text.AllDigits(d) && (|tail| == 0 || !Text.IsDigit(tail[0]))
    ensures StrToL("-" + (d + tail)) == ClampLong(-(Text.DigitsValue(d) as int))
  {
    NegatedValue(d, tail);
    NoLeadingWhite("-" + (d + tail));
    StrToLUnpadded("-" + (d + tail), -(Text.DigitsValue(d) as int));
  }

  lemma {:induction false} NegatedValue(d: string, tail: string)
    requires Text.AllDigits(d) && (|tail| == 0 || !Text.IsDigit(tail[0]))
    ensures SignedValue("-" + (d + tail)) == -(Text.DigitsValue(d) as int)
  {
    var t := d + tail;
    var s := "-" + t;
    assert SignedValue(s) == -(Magnitude(t) as int) by {
      assert s[0] == '-' && s[1..] == t;
    }
    assert Magnitude(t) == Text.DigitsValue(d) by {
      LeadingDigitsOf(d, tail);
    }
  }

  lemma NoLeadingWhite(s: string)
    requires |s| == 0 || !Text.IsSpace(s[0])
    ensures DropWhite(s) == s
  {
  }

  lemma StrToLUnpadded(s: string, v: int)
    requires DropWhite(s) == s && SignedValue(s) == v
    ensures StrToL(s) == ClampLong(v)
  {
  }

  /** A token with no digits after its sign, such as "in", reads as 0. */
  lemma StrToLWithoutDigits(s: string)
    requires |s| == 0 || (!Text.IsDigit(s[0]) && !Text.IsSpace(s[0]) && s[0] != '-' && s[0] != '+')
    ensures StrToL(s) == 0
  {
  }

  // --------------------------------------------------- AVR integer types

  /** Conversion to the AVR's 16-bit two's-complement `int`. */
  function AvrInt(x: int): (r: int)
    ensures -0x8000 <= r < 0x8000
    ensures (x - r) % 0x1_0000 == 0
    ensures -0x8000 <= x < 0x8000 ==> r == x
  {
    var m := x % 0x1_0000;
    if m >= 0x8000 then m - 0x1_0000 else m
  }

  /** Conversion to the AVR's 32-bit `unsigned long`. */
  function UnsignedLong(x: int): (r: nat)
    ensures r < 0x1_0000_0000 && (x - r) % 0x1_0000_0000 == 0
    ensures 0 <= x < 0x1_0000_0000 ==> r == x
  {
    x % 0x1_0000_0000
  }
}
