/**
 * The Arduino-attached DACs (instrumentino/controllers/arduino/dac.py): the
 * full-scale value of an n-bit converter, the MAX517's I2C write and the
 * MCP4922's two-byte SPI command word (write-command register of the
 * MCP4922 datasheet: bit 15 selects the channel, bit 14 is BUF, bits 13
 * and 12 are GA and SHDN, bits 11..0 the value).
 */
module Dac {
  import opened PyNum

  function Pow2(n: nat): (r: nat)
    ensures r >= 1
  {
    if n == 0 then 1 else 2 * Pow2(n - 1)
  }

  /** `ArduinoDac.__init__`: `maxVal = 2**dacBits - 1`. */
  function MaxVal(bits: nat): (r: nat)
    ensures r + 1 == Pow2(bits)
  {
    Pow2(bits) - 1
  }

  const MAX517_BITS: nat := 8
  const MCP4922_BITS: nat := 12

  /** The two converters' full scales. */
  lemma {:induction false} FullScales()
    ensures MaxVal(MAX517_BITS) == 255 && MaxVal(MCP4922_BITS) == 4095
  {
    assert Pow2(4) == 16 by {
      assert Pow2(2) == 4;
    }
    assert Pow2(8) == 256 by {
      assert Pow2(6) == 64;
    }
    assert Pow2(12) == 4096 by {
      assert Pow2(10) == 1024;
    }
  }

  /** Python's `h | m` for a mask within the low byte, on any int (two's complement). */
  function OrLow(h: int, m: bv8): int
  {
    h - h % 256 + ((h % 256) as bv8 | m) as int
  }

  /** Python's `h & m` where `m` keeps every bit above the low byte (`~(1<<7)`). */
  function AndLow(h: int, m: bv8): int
  {
    h - h % 256 + ((h % 256) as bv8 & m) as int
  }

  /** What a DAC asks of its controller. */
  datatype DacWrite =
    | SpiWrite(csPin: int, byte1: int, byte2: int)
    | I2cWrite(address: int, control: int, value: real)

  datatype Converter =
    | Max517(address: int)
    | Mcp4922(csPin: int, channel: int)

  /** `value = (int)(self.maxVal * fraction)` of the MCP4922. */
  function Mcp4922Value(fraction: real): int
  {
    Trunc(MaxVal(MCP4922_BITS) as real * fraction)
  }

  /** The value back from the command word, `((byte1 & 0x0F) << 8) | byte2` for bytes. */
  function Decoded(byte1: int, byte2: int): int
  {
    byte1 % 16 * 256 + byte2
  }

  /** Bits 5 and 4 (GA and SHDN) of a byte. */
  predicate GainAndShutdownSet(byte1: int)
  {
    byte1 / 16 % 4 == 3
  }

  /**
   * `DacSpiMCP4922.WriteFraction`'s byte packing: the high bits of the value
   * with GA and SHDN set, then the low byte; channel 0 clears bit 7, channel
   * 1 sets it, any other channel leaves it alone.
   */
  function CommandWord(value: int, channel: int): (int, int)
  {
    var byte1 := OrLow(value / 256, 0x30);
    var byte2 := value % 256;
    var byte1 := if channel == 0 then AndLow(byte1, 0x7F)
                 else if channel == 1 then OrLow(byte1, 0x80)
                 else byte1;
    (byte1, byte2)
  }

  /** Setting GA and SHDN above a four-bit value adds 0x30. */
  lemma OrNibble(x: int)
    requires 0 <= x < 16
    ensures OrLow(x, 0x30) == x + 48
  {
    assert x % 256 == x;
  }

  /** Setting or clearing bit 7 of a byte below 0x80. */
  lemma TopBit(x: int)
    requires 0 <= x < 128
    ensures OrLow(x, 0x80) == x + 128 && AndLow(x, 0x7F) == x
  {
    assert x % 256 == x;
  }

  /** Bit 6 (BUF) of a byte. */
  predicate BufferedBit(byte1: int)
  {
    byte1 / 64 % 2 == 1
  }

  /** The fields of `high + 48 + top` for a four-bit `high` and `top` 0 or 128. */
  lemma ByteFields(high: int, top: int)
    requires 0 <= high < 16 && (top == 0 || top == 128)
    ensures var b := high + 48 + top;
      b % 16 == high && GainAndShutdownSet(b) && !BufferedBit(b) && (b >= 128 <==> top == 128)
  {
    var b := high + 48 + top;
    if top == 0 {
      assert b == 16 * 3 + high;
      assert b / 16 == 3 && b / 64 == 0;
    } else {
      assert b == 16 * 11 + high;
      assert b / 16 == 11 && b / 64 == 2;
    }
  }

  /**
   * A 12-bit value gives two bytes that decode back to it, with GA and SHDN
   * set, BUF clear and bit 7 set exactly for channel 1.
   */
  lemma CommandWordEncodes(value: int, channel: int)
    requires 0 <= value < 4096
    ensures var w := CommandWord(value, channel);
      0 <= w.0 < 256 && 0 <= w.1 < 256 && w.1 == value % 256
      && Decoded(w.0, w.1) == value && GainAndShutdownSet(w.0) && !BufferedBit(w.0)
      && (w.0 >= 128 <==> channel == 1)
  {
    var high := value / 256;
    assert 0 <= high < 16;
    OrNibble(high);
    TopBit(high + 48);
    var top := if channel == 1 then 128 else 0;
    var w := CommandWord(value, channel);
    assert w.0 == high + 48 + top;
    ByteFields(high, top);
    assert value == high * 256 + value % 256;
  }

  /** `WriteFraction` of either converter. */
  function WriteFraction(dac: Converter, fraction: real): (r: DacWrite)
    ensures dac.Max517? ==> r == I2cWrite(dac.address, 0, 255.0 * fraction)
    ensures dac.Mcp4922? ==>
      r.SpiWrite? && r.csPin == dac.csPin
      && (r.byte1, r.byte2) == CommandWord(Trunc(4095.0 * fraction), dac.channel)
  {
    FullScales();
    match dac
    case Max517(address) => I2cWrite(address, 0, MaxVal(MAX517_BITS) as real * fraction)
    case Mcp4922(cs, channel) =>
      var word := CommandWord(Mcp4922Value(fraction), channel);
      SpiWrite(cs, word.0, word.1)
  }

  /**
   * For a fraction between 0 and 1 the MCP4922 receives two bytes that
   * encode `int(4095 * fraction)` on the selected channel with GA and SHDN
   * set.
   */
  lemma Mcp4922Encodes(cs: int, channel: int, fraction: real)
    requires 0.0 <= fraction <= 1.0
    ensures var w := WriteFraction(Mcp4922(cs, channel), fraction);
      w.SpiWrite? && 0 <= w.byte1 < 256 && 0 <= w.byte2 < 256
      && Decoded(w.byte1, w.byte2) == Trunc(4095.0 * fraction)
      && GainAndShutdownSet(w.byte1) && !BufferedBit(w.byte1) && (w.byte1 >= 128 <==> channel == 1)
  {
    var v := Trunc(4095.0 * fraction);
    assert 0 <= v <= 4095 by {
      assert 4095.0 * fraction <= 4095.0;
    }
    CommandWordEncodes(v, channel);
  }
}
