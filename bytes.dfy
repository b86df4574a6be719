/** Byte strings and the fixed-width integer layouts of the wire formats. */
module Bytes {

  type byte = x: int | 0 <= x < 256

  /** 256 to the power `n`: one more than the largest `n`-byte unsigned value. */
  function Pow256(n: nat): (r: nat)
    ensures r >= 1
    ensures n >= 1 ==> r >= 256
  {
    if n == 0 then 1 else 256 * Pow256(n - 1)
  }

  /** Little-endian value of a byte string (construct's ULInt*). */
  function FromLE(bs: seq<byte>): (r: nat)
    ensures r < Pow256(|bs|)
  {
    if |bs| == 0 then 0 else bs[0] + 256 * FromLE(bs[1..])
  }

  /** Little-endian layout of `v` in `width` bytes. */
  function ToLE(v: nat, width: nat): (r: seq<byte>)
    requires v < Pow256(width)
    ensures |r| == width
  {
    if width == 0 then [] else [v % 256] + ToLE(v / 256, width - 1)
  }

  /** Big-endian value of a byte string (construct's UBInt*). */
  function FromBE(bs: seq<byte>): (r: nat)
    ensures r < Pow256(|bs|)
  {
    if |bs| == 0 then 0 else FromBE(bs[..|bs| - 1]) * 256 + bs[|bs| - 1]
  }

  /** Big-endian layout of `v` in `width` bytes. */
  function ToBE(v: nat, width: nat): (r: seq<byte>)
    requires v < Pow256(width)
    ensures |r| == width
  {
    if width == 0 then [] else ToBE(v / 256, width - 1) + [v % 256]
  }

  lemma {:induction false} LERoundTrip(v: nat, width: nat)
    requires v < Pow256(width)
    ensures FromLE(ToLE(v, width)) == v
  {
    if width > 0 {
      LERoundTrip(v / 256, width - 1);
      assert ToLE(v, width)[1..] == ToLE(v / 256, width - 1);
    }
  }

  lemma {:induction false} LEOfFromLE(bs: seq<byte>)
    ensures ToLE(FromLE(bs), |bs|) == bs
  {
    if |bs| > 0 {
      LEOfFromLE(bs[1..]);
      assert FromLE(bs) % 256 == bs[0];
      assert FromLE(bs) / 256 == FromLE(bs[1..]);
    }
  }

  lemma {:induction false} BERoundTrip(v: nat, width: nat)
    requires v < Pow256(width)
    ensures FromBE(ToBE(v, width)) == v
  {
    if width > 0 {
      BERoundTrip(v / 256, width - 1);
      var bs := ToBE(v, width);
      assert bs[..|bs| - 1] == ToBE(v / 256, width - 1);
    }
  }

  lemma {:induction false} BEOfFromBE(bs: seq<byte>)
    ensures ToBE(FromBE(bs), |bs|) == bs
  {
    if |bs| > 0 {
      var init := bs[..|bs| - 1];
      BEOfFromBE(init);
      DivModByte(FromBE(init), bs[|bs| - 1]);
      assert ToBE(FromBE(bs), |bs|) == ToBE(FromBE(init), |bs| - 1) + [bs[|bs| - 1]];
      assert bs == init + [bs[|bs| - 1]];
    }
  }

  /** Splitting off the low byte of `q * 256 + r`. */
  lemma DivModByte(q: nat, r: byte)
    ensures (q * 256 + r) / 256 == q && (q * 256 + r) % 256 == r
  {
  }

  /** A Python 2 byte string read as characters. */
  function ToChars(bs: seq<byte>): (r: string)
    ensures |r| == |bs|
    ensures forall i :: 0 <= i < |bs| ==> r[i] as int == bs[i]
  {
    if |bs| == 0 then [] else [bs[0] as char] + ToChars(bs[1..])
  }

  /** Characters of a Python 2 byte string as bytes; wider characters are not bytes. */
  predicate IsByteString(s: string)
  {
    forall i :: 0 <= i < |s| ==> s[i] as int < 256
  }

  function FromChars(s: string): (r: seq<byte>)
    requires IsByteString(s)
    ensures |r| == |s|
    ensures forall i :: 0 <= i < |s| ==> r[i] == s[i] as int
  {
    if |s| == 0 then [] else [s[0] as int] + FromChars(s[1..])
  }

  lemma CharsRoundTrip(s: string)
    requires IsByteString(s)
    ensures ToChars(FromChars(s)) == s
  {
  }

  /** A Python `bytearray` that several owners update in place. */
  class ByteArray {
    var contents: seq<byte>

    constructor (initial: seq<byte>)
      ensures contents == initial
    {
      contents := initial;
    }
  }
}
