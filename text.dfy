/** Python and C string helpers used by the command formats. */
module Text {
  import opened Wrappers
  import Seqs

  predicate IsDigit(c: char) { '0' <= c <= '9' }

  predicate AllDigits(s: string) { forall i :: 0 <= i < |s| ==> IsDigit(s[i]) }

  /** Python's whitespace for `strip` and `int()`. */
  predicate IsSpace(c: char)
  {
    c == ' ' || c == '\t' || c == '\n' || c == '\r' || c as int == 11 || c as int == 12
  }

  /** C's `isprint` in the "C" locale: space through tilde. */
  predicate IsPrint(c: char) { ' ' <= c <= '~' }

  function DigitChar(d: nat): (c: char)
    requires d < 10
    ensures IsDigit(c) && c as int - '0' as int == d
  {
    (d + '0' as int) as char
  }

  function DigitValue(c: char): (d: nat)
    requires IsDigit(c)
    ensures d < 10 && DigitChar(d) == c
  {
    c as int - '0' as int
  }

  /** Python's `str(n)` for a natural number. */
  function NatToString(n: nat): (s: string)
    ensures |s| >= 1 && AllDigits(s)
    ensures |s| > 1 ==> s[0] != '0'
  {
    if n < 10 then [DigitChar(n)] else NatToString(n / 10) + [DigitChar(n % 10)]
  }

  /** Python's `str(i)` for an integer. */
  function IntToString(i: int): (s: string)
    ensures |s| >= 1
    ensures i >= 0 <==> s[0] != '-'
  {
    if i >= 0 then NatToString(i) else "-" + NatToString(-i)
  }

  /** The value of a string of decimal digits. */
  function DigitsValue(s: string): (n: nat)
    requires AllDigits(s)
  {
    if |s| == 0 then 0 else DigitsValue(s[..|s| - 1]) * 10 + DigitValue(s[|s| - 1])
  }

  lemma {:induction false} DigitsOfNat(n: nat)
    ensures DigitsValue(NatToString(n)) == n
  {
    if n >= 10 {
      DigitsOfNat(n / 10);
      var s := NatToString(n);
      assert s[..|s| - 1] == NatToString(n / 10);
    }
  }

  function StripLeft(s: string): (r: string)
    ensures |r| <= |s| && r == s[|s| - |r|..]
    ensures |r| > 0 ==> !IsSpace(r[0])
    ensures forall i :: 0 <= i < |s| - |r| ==> IsSpace(s[i])
  {
    if |s| > 0 && IsSpace(s[0]) then StripLeft(s[1..]) else s
  }

  function StripRight(s: string): (r: string)
    ensures |r| <= |s| && r == s[..|r|]
    ensures |r| > 0 ==> !IsSpace(r[|r| - 1])
    ensures forall i :: |r| <= i < |s| ==> IsSpace(s[i])
  {
    if |s| > 0 && IsSpace(s[|s| - 1]) then StripRight(s[..|s| - 1]) else s
  }

  /** Python's `strip()`: leading and trailing whitespace removed. */
  function Strip(s: string): (r: string)
    ensures |r| > 0 ==> !IsSpace(r[0]) && !IsSpace(r[|r| - 1])
  {
    StripRight(StripLeft(s))
  }

  /**
   * Python's `int(s)` for a string: surrounding whitespace, an optional sign,
   * then one or more decimal digits; anything else raises ValueError.
   */
  function ParseInt(s: string): (r: Result<int>)
  {
    var t := Strip(s);
    if |t| > 0 && (t[0] == '-' || t[0] == '+') then
      (if |t| > 1 && AllDigits(t[1..]) then
         var v: int := DigitsValue(t[1..]);
         Ok(if t[0] == '-' then -v else v)
       else Err(ValueError))
    else if |t| > 0 && AllDigits(t) then Ok(DigitsValue(t))
    else Err(ValueError)
  }

  lemma StripWithoutSpace(s: string)
    requires forall i :: 0 <= i < |s| ==> !IsSpace(s[i])
    ensures Strip(s) == s
  {
    assert StripLeft(s) == s;
  }

  lemma ParseIntOfIntToString(i: int)
    ensures ParseInt(IntToString(i)) == Ok(i)
  {
    if i >= 0 {
      ParseIntOfNatToString(i);
    } else {
      var digits := NatToString(-i);
      var s := "-" + digits;
      assert s[1..] == digits;
      DigitsOfNat(-i);
      assert forall j :: 0 <= j < |s| ==> !IsSpace(s[j]) by {
        forall j | 0 <= j < |s| ensures !IsSpace(s[j]) {
          if j > 0 { assert s[j] == digits[j - 1]; }
        }
      }
      StripWithoutSpace(s);
    }
  }

  lemma ParseIntOfNatToString(n: nat)
    ensures ParseInt(NatToString(n)) == Ok(n)
  {
    var s := NatToString(n);
    DigitsOfNat(n);
    assert forall j :: 0 <= j < |s| ==> !IsSpace(s[j]) by {
      forall j | 0 <= j < |s| ensures !IsSpace(s[j]) { assert IsDigit(s[j]); }
    }
    StripWithoutSpace(s);
    assert IsDigit(s[0]);
  }

  /** `re.sub('[^0-9]', '', s)`: the digits of `s`, in order. */
  function KeepDigits(s: string): (r: string)
    ensures AllDigits(r) && |r| <= |s|
  {
    if |s| == 0 then ""
    else if IsDigit(s[0]) then [s[0]] + KeepDigits(s[1..])
    else KeepDigits(s[1..])
  }

  lemma {:induction false} KeepDigitsOfDigits(s: string)
    requires AllDigits(s)
    ensures KeepDigits(s) == s
  {
    if |s| > 0 { KeepDigitsOfDigits(s[1..]); }
  }

  lemma {:induction false} KeepDigitsAppend(a: string, b: string)
    ensures KeepDigits(a + b) == KeepDigits(a) + KeepDigits(b)
  {
    if |a| > 0 {
      assert (a + b)[1..] == a[1..] + b;
      KeepDigitsAppend(a[1..], b);
    } else {
      assert a + b == b;
    }
  }

  /** Python's `sep.join(parts)`. */
  function Join(parts: seq<string>, sep: string): (r: string)
  {
    if |parts| == 0 then ""
    else if |parts| == 1 then parts[0]
    else parts[0] + sep + Join(parts[1..], sep)
  }

  lemma CharAbsent(s: string, c: char, lo: int, hi: int)
    requires 0 <= lo <= hi <= |s|
    requires forall j :: lo <= j < hi ==> !Seqs.OccursAt(s, [c], j)
    ensures forall j :: lo <= j < hi ==> s[j] != c
  {
    forall j | lo <= j < hi ensures s[j] != c {
      if s[j] == c { assert s[j..j + 1] == [c]; assert Seqs.OccursAt(s, [c], j); }
    }
  }

  /** Python's `s.split(c)` for a one-character separator: empty pieces are kept. */
  function Split(s: string, c: char): (r: seq<string>)
    ensures |r| >= 1
    ensures forall i :: 0 <= i < |r| ==> c !in r[i]
    decreases |s|
  {
    var i := Seqs.Find(s, [c]);
    if i == -1 then
      CharAbsent(s, c, 0, |s|);
      [s]
    else
      CharAbsent(s, c, 0, i);
      [s[..i]] + Split(s[i + 1..], c)
  }

  lemma {:induction false} JoinSplit(s: string, c: char)
    ensures Join(Split(s, c), [c]) == s
    decreases |s|
  {
    var i := Seqs.Find(s, [c]);
    if i != -1 {
      var rest := Split(s[i + 1..], c);
      JoinSplit(s[i + 1..], c);
      assert Split(s, c) == [s[..i]] + rest;
      assert ([s[..i]] + rest)[1..] == rest;
      assert Join(Split(s, c), [c]) == s[..i] + [c] + Join(rest, [c]);
      assert s[i..i + 1] == [c];
      assert s == s[..i] + [c] + s[i + 1..];
    }
  }

  lemma {:induction false} SplitJoin(parts: seq<string>, c: char)
    requires |parts| >= 1
    requires forall i :: 0 <= i < |parts| ==> c !in parts[i]
    ensures Split(Join(parts, [c]), c) == parts
  {
    var s := Join(parts, [c]);
    var p := parts[0];
    NoSeparatorInFirst(parts, c);
    if |parts| == 1 {
      assert Seqs.Find(s, [c]) == -1;
    } else {
      SplitJoin(parts[1..], c);
      assert s == p + [c] + Join(parts[1..], [c]);
      assert s[|p|..|p| + 1] == [c];
      assert Seqs.OccursAt(s, [c], |p|);
      assert Seqs.Find(s, [c]) == |p|;
      assert s[..|p|] == p;
      assert s[|p| + 1..] == Join(parts[1..], [c]);
      assert Split(s, c) == [p] + Split(Join(parts[1..], [c]), c);
      assert parts == [p] + parts[1..];
    }
  }

  /** The separator does not occur within the first part of a join. */
  lemma NoSeparatorInFirst(parts: seq<string>, c: char)
    requires |parts| >= 1 && c !in parts[0]
    ensures forall j :: 0 <= j < |parts[0]| ==> !Seqs.OccursAt(Join(parts, [c]), [c], j)
  {
    var s := Join(parts, [c]);
    var p := parts[0];
    assert s[..|p|] == p;
    forall j | 0 <= j < |p| ensures !Seqs.OccursAt(s, [c], j) {
      assert s[j] == p[j];
      assert j + 1 <= |s| ==> s[j..j + 1][0] == s[j];
    }
  }

  function LowerAscii(c: char): char
  {
    if 'A' <= c <= 'Z' then (c as int + 32) as char else c
  }

  /** C's `strcasecmp(a, b) == 0`: equal up to ASCII letter case. */
  predicate EqualsIgnoreCase(a: string, b: string)
  {
    |a| == |b| && forall i :: 0 <= i < |a| ==> LowerAscii(a[i]) == LowerAscii(b[i])
  }

  lemma EqualsIgnoreCaseSymmetric(a: string, b: string)
    ensures EqualsIgnoreCase(a, b) == EqualsIgnoreCase(b, a)
  {
  }

  lemma EqualsIgnoreCaseTransitive(a: string, b: string, c: string)
    requires EqualsIgnoreCase(a, b) && EqualsIgnoreCase(b, c)
    ensures EqualsIgnoreCase(a, c)
  {
  }
}
