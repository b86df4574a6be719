/**
 * The Tecan sequential-injection (SIA) syringe pump and multivalve of the
 * wx-era framework (instrumentino/build/lib/instrumentino/controllers/arduino/tecan.py): ASCII DT
 * commands framed as `/<address><body>R\r` and sent through the Arduino's
 * serial bridge, the volume-to-microstep conversion and the lookup of the
 * N1 speed table. A command body is a sequence of instructions, each a
 * letter with an optional decimal argument (`OS12M1000P4800`); `Decode` reads
 * a body back and is the reference the command builders are proved against.
 */
module Tecan {
  import opened Wrappers
  import opened Text
  import opened PyNum

  /**
   * `strokeToSeconds['N1']`: seconds per full stroke for speed codes 0..40.
   * The inner table is a dict with the small integer keys 0..40, which
   * Python 2 iterates in ascending key order; here key `i` is position `i`.
   */
  const N1: seq<real> := [
    1.25, 1.30, 1.39, 1.52, 1.71, 1.97, 2.37, 2.77, 3.03, 3.36,
    3.77, 4.30, 5.00, 6.00, 7.50, 10.00, 15.00, 30.00, 31.58, 33.33,
    35.29, 37.50, 40.00, 42.86, 46.15, 50.00, 54.55, 60.00, 66.67, 75.00,
    85.71, 100.00, 120.00, 150.00, 200.00, 300.00, 333.33, 375.00, 428.57, 500.00,
    600.00]

  const CMD_START: char := '/'
  const CMD_END: char := '\r'
  const CMD_EXECUTE: char := 'R'
  const SERIAL_BAUDRATE: int := 9600
  const PUMP_MAX_MICRO_STEPS: int := 48000

  /** The pump's configuration, as `TecanSia.__init__` stores it. */
  datatype Sia = Sia(
    volume: real,              // pumpVolumeMiliLit
    addressPump: string,
    addressMultivalve: string,
    pinRx: Option<int>,
    pinTx: Option<int>,
    serialPort: int)

  /** A `SerSend` call on the controller. */
  datatype Send = SerSend(text: string, wait: Option<real>, softSerial: bool, port: int)

  /** The serial connection `FirstTimeOnline` asks the controller for. */
  datatype Connection =
    | SoftSerConnect(rx: int, tx: int, baud: int, port: int)
    | HardSerConnect(baud: int, port: int)

  /** What a pump operation did: the commands sent, in order, then the exception if one was raised. */
  datatype Run = Run(sent: seq<Send>, raised: Option<Raised>)

  // ---------------------------------------------------------------------
  // The speed table
  // ---------------------------------------------------------------------

  predicate Ascending(s: seq<real>)
  {
    forall i :: 0 <= i < |s| - 1 ==> s[i] < s[i + 1]
  }

  predicate StrictlyIncreasing(s: seq<real>)
  {
    forall i, j :: 0 <= i < j < |s| ==> s[i] < s[j]
  }

  lemma N1Ascending()
    ensures |N1| == 41 && Ascending(N1)
  {
  }

  /** Each entry below the next makes every entry below every later one. */
  lemma {:induction false} AscendingIncreasing(s: seq<real>)
    requires Ascending(s)
    ensures StrictlyIncreasing(s)
    decreases |s|
  {
    if |s| >= 2 {
      var t := s[1..];
      assert Ascending(t) by {
        forall i | 0 <= i < |t| - 1 ensures t[i] < t[i + 1] {
          assert t[i] == s[i + 1] && t[i + 1] == s[i + 2];
        }
      }
      AscendingIncreasing(t);
      forall i, j | 0 <= i < j < |s| ensures s[i] < s[j] {
        if i == 0 {
          assert s[0] < s[1];
          if j > 1 { assert s[j] == t[j - 1] && s[1] == t[0]; }
        } else {
          assert s[i] == t[i - 1] && s[j] == t[j - 1];
        }
      }
    }
  }

  /** The N1 table strictly increases: faster speed codes have shorter strokes. */
  lemma N1Increasing()
    ensures |N1| == 41 && StrictlyIncreasing(N1)
  {
    N1Ascending();
    AscendingIncreasing(N1);
  }

  /** The scan of the table's items: the first entry above `x`. */
  function FirstAbove(table: seq<real>, x: real): (r: Option<nat>)
    ensures r.Some? ==> r.value < |table| && x < table[r.value]
    ensures r.Some? ==> forall j :: 0 <= j < r.value ==> table[j] <= x
    ensures r.None? <==> forall j :: 0 <= j < |table| ==> table[j] <= x
  {
    if |table| == 0 then None
    else if x < table[0] then Some(0)
    else
      match FirstAbove(table[1..], x)
      case None =>
        assert forall j :: 1 <= j < |table| ==> table[j] == table[1..][j - 1];
        None
      case Some(k) =>
        assert forall j :: 1 <= j <= k ==> table[j] == table[1..][j - 1];
        Some(k + 1)
  }

  /** `secPerStroke = 1 / (miliLitPerSec / pumpVolumeMiliLit)`, with Python's division errors. */
  function SecondsPerStroke(microLitPerSec: real, volume: real): (r: Result<real>)
    ensures r.Err? <==> volume == 0.0 || microLitPerSec == 0.0
    ensures r.Err? ==> r.raised == ZeroDivisionError
  {
    if volume == 0.0 then Err(ZeroDivisionError)
    else
      var perStroke := (microLitPerSec / 1000.0) / volume;
      if perStroke == 0.0 then Err(ZeroDivisionError)
      else Ok(1.0 / perStroke)
  }

  /** The stroke time of a speed in µL/s is the volume over the speed. */
  lemma SecondsPerStrokeValue(microLitPerSec: real, volume: real)
    requires volume != 0.0 && microLitPerSec != 0.0
    ensures SecondsPerStroke(microLitPerSec, volume) == Ok(1000.0 * volume / microLitPerSec)
  {
    var perStroke := (microLitPerSec / 1000.0) / volume;
    assert perStroke == microLitPerSec / (1000.0 * volume);
    assert 1.0 / perStroke == 1000.0 * volume / microLitPerSec;
  }

  /**
   * `speedToSecondsPerStrokeIndex`: the first speed code whose stroke is
   * slower than the requested one, else the last code; an empty table (the
   * N2 mode) has no last key.
   */
  function SpeedIndex(table: seq<real>, microLitPerSec: real, volume: real): (r: Result<nat>)
    ensures r.Err? <==> volume == 0.0 || microLitPerSec == 0.0 || |table| == 0
    ensures r.Ok? ==> r.value < |table|
    ensures r.Ok? ==> var s := SecondsPerStroke(microLitPerSec, volume).value;
      (forall j :: 0 <= j < r.value ==> table[j] <= s)
      && (s < table[r.value] || (r.value == |table| - 1 && table[r.value] <= s))
  {
    match SecondsPerStroke(microLitPerSec, volume)
    case Err(e) => Err(e)
    case Ok(s) =>
      match FirstAbove(table, s)
      case Some(i) => Ok(i)
      case None => if |table| == 0 then Err(IndexError) else Ok(|table| - 1)
  }

  /** `strokeToSeconds[microstepMode]`: N1 has the table, N2 an empty one, anything else is missing. */
  function StrokeTable(mode: string): (r: Result<seq<real>>)
    ensures r.Ok? <==> mode == "N1" || mode == "N2"
    ensures mode == "N1" ==> r == Ok(N1)
    ensures mode == "N2" ==> r == Ok([])
  {
    if mode == "N1" then Ok(N1) else if mode == "N2" then Ok([]) else Err(KeyError)
  }

  /** A faster speed never gets a slower speed code, on any table. */
  lemma SpeedIndexMonotone(table: seq<real>, slower: real, faster: real, volume: real)
    requires volume > 0.0 && 0.0 < slower <= faster && |table| > 0
    ensures SpeedIndex(table, faster, volume).value <= SpeedIndex(table, slower, volume).value
  {
    SecondsPerStrokeValue(slower, volume);
    SecondsPerStrokeValue(faster, volume);
    var a := 1000.0 * volume / slower;
    var b := 1000.0 * volume / faster;
    assert b <= a by {
      assert b * faster == a * slower;
    }
  }

  /**
   * On a strictly increasing table the code found is the boundary: every
   * later code is slower than requested, every earlier one is not.
   */
  lemma SpeedIndexBoundary(table: seq<real>, microLitPerSec: real, volume: real)
    requires StrictlyIncreasing(table)
    requires SpeedIndex(table, microLitPerSec, volume).Ok?
    ensures var i := SpeedIndex(table, microLitPerSec, volume).value;
      var s := SecondsPerStroke(microLitPerSec, volume).value;
      (forall j :: 0 <= j < i ==> table[j] <= s)
      && (forall j :: i < j < |table| ==> s < table[j])
  {
  }

  /** The N1 lookup: a code in 0..40, and for every pump a faster speed never gets a slower code. */
  lemma N1SpeedIndex(microLitPerSec: real, volume: real)
    requires volume != 0.0 && microLitPerSec != 0.0
    ensures SpeedIndex(N1, microLitPerSec, volume).Ok?
    ensures SpeedIndex(N1, microLitPerSec, volume).value <= 40
    ensures volume > 0.0 && microLitPerSec > 0.0 ==>
      forall faster :: microLitPerSec <= faster ==>
        SpeedIndex(N1, faster, volume).value <= SpeedIndex(N1, microLitPerSec, volume).value
  {
    N1Ascending();
    if volume > 0.0 && microLitPerSec > 0.0 {
      forall faster | microLitPerSec <= faster
        ensures SpeedIndex(N1, faster, volume).value <= SpeedIndex(N1, microLitPerSec, volume).value
      {
        SpeedIndexMonotone(N1, microLitPerSec, faster, volume);
      }
    }
  }

  // ---------------------------------------------------------------------
  // The DT command language
  // ---------------------------------------------------------------------

  /** One DT instruction: a letter and an optional decimal argument. */
  datatype Instruction = Instruction(letter: char, arg: Option<nat>)

  function InstructionText(i: Instruction): string
  {
    [i.letter] + (if i.arg.Some? then NatToString(i.arg.value) else "")
  }

  /** A command body written out. */
  function Encode(body: seq<Instruction>): string
  {
    if |body| == 0 then "" else InstructionText(body[0]) + Encode(body[1..])
  }

  /** The length of the run of digits `s` starts with. */
  function DigitRun(s: string): (n: nat)
    ensures n <= |s|
  {
    if |s| > 0 && IsDigit(s[0]) then 1 + DigitRun(s[1..]) else 0
  }

  /** The run is all digits and ends at a non-digit or at the end. */
  lemma {:induction false} DigitRunFacts(s: string)
    ensures AllDigits(s[..DigitRun(s)]) && (DigitRun(s) < |s| ==> !IsDigit(s[DigitRun(s)]))
  {
    if |s| > 0 && IsDigit(s[0]) {
      DigitRunFacts(s[1..]);
      var n := DigitRun(s);
      assert s[..n] == [s[0]] + s[1..][..n - 1];
    }
  }

  /** The first instruction of a non-empty body that starts with a letter, and the text after it. */
  function Head(s: string): (r: (Instruction, string))
    requires |s| > 0
    ensures |r.1| < |s|
  {
    var n := DigitRun(s[1..]);
    DigitRunFacts(s[1..]);
    var arg := if n == 0 then None else Some(DigitsValue(s[1..][..n]));
    (Instruction(s[0], arg), s[1 + n..])
  }

  /** Reading a body back: each letter takes the digits that follow it. */
  function Decode(s: string): (r: Result<seq<Instruction>>)
    decreases |s|
  {
    if |s| == 0 then Ok([])
    else if IsDigit(s[0]) then Err(ValueError)
    else
      var (instruction, tail) := Head(s);
      match Decode(tail)
      case Err(e) => Err(e)
      case Ok(rest) => Ok([instruction] + rest)
  }

  predicate LettersOnly(body: seq<Instruction>)
  {
    forall k :: 0 <= k < |body| ==> !IsDigit(body[k].letter)
  }

  /** A digit run ends where the digits do. */
  lemma {:induction false} DigitRunOf(a: string, b: string)
    requires AllDigits(a) && (|b| == 0 || !IsDigit(b[0]))
    ensures DigitRun(a + b) == |a|
    decreases |a|
  {
    if |a| > 0 {
      assert (a + b)[0] == a[0] && (a + b)[1..] == a[1..] + b;
      DigitRunOf(a[1..], b);
    } else {
      assert a + b == b;
    }
  }

  /** A letter, its digits, then text that does not start with a digit, reads as one instruction and the rest. */
  lemma HeadOf(letter: char, digits: string, rest: string)
    requires AllDigits(digits) && (|rest| == 0 || !IsDigit(rest[0]))
    ensures Head([letter] + digits + rest)
         == (Instruction(letter, if |digits| == 0 then None else Some(DigitsValue(digits))), rest)
  {
    var s := [letter] + digits + rest;
    DigitRunOf(digits, rest);
    assert s[0] == letter && s[1..] == digits + rest;
    assert s[1..][..|digits|] == digits;
    assert s[1 + |digits|..] == rest;
  }

  lemma EncodeFirst(body: seq<Instruction>)
    requires |body| > 0
    ensures Encode(body) == InstructionText(body[0]) + Encode(body[1..])
    ensures |Encode(body)| > 0 && Encode(body)[0] == body[0].letter
  {
  }

  /** Writing a body out and reading it back gives the same instructions. */
  lemma {:induction false} DecodeEncode(body: seq<Instruction>)
    requires LettersOnly(body)
    ensures Decode(Encode(body)) == Ok(body)
    decreases |body|
  {
    if |body| > 0 {
      var i := body[0];
      var digits := if i.arg.Some? then NatToString(i.arg.value) else "";
      var rest := Encode(body[1..]);
      EncodeFirst(body);
      assert Encode(body) == [i.letter] + digits + rest;
      assert LettersOnly(body[1..]) by {
        forall k | 0 <= k < |body| - 1 ensures !IsDigit(body[1..][k].letter) {
          assert body[1..][k] == body[k + 1];
        }
      }
      if |body| > 1 {
        EncodeFirst(body[1..]);
      }
      HeadOf(i.letter, digits, rest);
      DecodeEncode(body[1..]);
      if i.arg.Some? {
        DigitsOfNat(i.arg.value);
      }
      assert [Instruction(i.letter, i.arg)] + body[1..] == body;
    }
  }

  // ---------------------------------------------------------------------
  // Commands
  // ---------------------------------------------------------------------

  /** The frame of every command: start mark, address, body, execute mark, end mark. */
  function Framed(address: string, command: string): string
  {
    [CMD_START] + address + command + [CMD_EXECUTE, CMD_END]
  }

  /** The address and body back out of a frame. */
  function Unframe(text: string): (r: Option<string>)
    ensures r.Some? ==> |r.value| + 3 == |text|
  {
    if |text| >= 3 && text[0] == CMD_START && text[|text| - 2..] == [CMD_EXECUTE, CMD_END]
    then Some(text[1..|text| - 2])
    else None
  }

  lemma UnframeFramed(address: string, command: string)
    ensures Unframe(Framed(address, command)) == Some(address + command)
  {
    var t := Framed(address, command);
    assert t[|t| - 2..] == [CMD_EXECUTE, CMD_END];
    assert t[1..|t| - 2] == address + command;
  }

  /** `useSoftSer`: a software serial port exactly when both pins are given. */
  function UseSoftSer(sia: Sia): (r: bool)
    ensures r <==> sia.pinRx.Some? && sia.pinTx.Some?
  {
    sia.pinRx != None && sia.pinTx != None
  }

  /** `sendCommand`. */
  function SendCommand(sia: Sia, address: string, command: string, wait: Option<real>): (r: Send)
    ensures Unframe(r.text) == Some(address + command)
    ensures r.softSerial == UseSoftSer(sia) && r.port == sia.serialPort && r.wait == wait
  {
    UnframeFramed(address, command);
    SerSend(Framed(address, command), wait, UseSoftSer(sia), sia.serialPort)
  }

  /** The step count of a volume: `int(miliLit * pumpMaxMicroSteps / pumpVolumeMiliLit)`. */
  function MicroSteps(sia: Sia, miliLit: real): (r: Result<int>)
    ensures r.Err? <==> sia.volume == 0.0
  {
    if sia.volume == 0.0 then Err(ZeroDivisionError)
    else Ok(Trunc(miliLit * PUMP_MAX_MICRO_STEPS as real / sia.volume))
  }

  /** `miliLitToMicroSteps`: the step count as a decimal string. */
  function MiliLitToMicroSteps(sia: Sia, miliLit: real): (r: Result<string>)
    ensures r.Err? <==> sia.volume == 0.0
    ensures r.Ok? ==> ParseInt(r.value) == Ok(MicroSteps(sia, miliLit).value)
  {
    match MicroSteps(sia, miliLit)
    case Err(e) => Err(e)
    case Ok(n) =>
      ParseIntOfIntToString(n);
      Ok(IntToString(n))
  }

  /** Up to the full syringe the step count runs from 0 to 48000, and the full syringe is "48000". */
  lemma MicroStepsRange(sia: Sia, miliLit: real)
    requires sia.volume > 0.0 && 0.0 <= miliLit <= sia.volume
    ensures 0 <= MicroSteps(sia, miliLit).value <= PUMP_MAX_MICRO_STEPS
    ensures NatToString(MicroSteps(sia, miliLit).value) == MiliLitToMicroSteps(sia, miliLit).value
    ensures miliLit == sia.volume ==> MiliLitToMicroSteps(sia, miliLit) == Ok("48000")
  {
    ScaledFraction(miliLit, sia.volume);
    if miliLit == sia.volume {
      Steps48000();
    }
  }

  /** A share of the syringe scaled to 48000 steps stays within 0..48000, and the whole syringe is exactly 48000. */
  lemma ScaledFraction(miliLit: real, volume: real)
    requires volume > 0.0 && 0.0 <= miliLit <= volume
    ensures 0.0 <= miliLit * 48000.0 / volume <= 48000.0
    ensures miliLit == volume ==> miliLit * 48000.0 / volume == 48000.0
  {
    var x := miliLit * 48000.0 / volume;
    assert x * volume == miliLit * 48000.0;
  }

  lemma Steps48000()
    ensures IntToString(Trunc(48000.0)) == "48000"
  {
    TruncOfInteger(48000.0);
    assert NatToString(48) == "48";
    assert NatToString(480) == "480";
    assert NatToString(4800) == "4800";
  }

  /** `InitPumpAndMultivalve`: the pump's init command, then the valve's. */
  function InitPumpAndMultivalve(sia: Sia, pumpInitCmd: string, valveInitCmd: string): (r: seq<Send>)
    ensures |r| == 2
    ensures Unframe(r[0].text) == Some(sia.addressPump + pumpInitCmd) && r[0].wait == Some(3.0)
    ensures Unframe(r[1].text) == Some(sia.addressMultivalve + valveInitCmd) && r[1].wait == Some(1.0)
  {
    [SendCommand(sia, sia.addressPump, pumpInitCmd, Some(3.0)),
     SendCommand(sia, sia.addressMultivalve, valveInitCmd, Some(1.0))]
  }

  /** The defaults `InitPumpAndMultivalve` is called with. */
  const PUMP_INIT: string := "N1ZJ0"
  const VALVE_INIT: string := "ZJ0"

  /** `selectMultivalvePort`: the move direction and the port number, to the valve. */
  function SelectMultivalvePort(sia: Sia, port: int, moveDirection: string, wait: Option<real>): (r: Send)
    ensures Unframe(r.text) == Some(sia.addressMultivalve + moveDirection + IntToString(port))
    ensures r.wait == wait
  {
    assert sia.addressMultivalve + (moveDirection + IntToString(port))
        == sia.addressMultivalve + moveDirection + IntToString(port);
    SendCommand(sia, sia.addressMultivalve, moveDirection + IntToString(port), wait)
  }

  /** The answer wait of a stroke: its share of a full stroke's seconds, plus two seconds. */
  function StrokeWait(seconds: real, fraction: real): real
  {
    seconds * fraction + 2.0
  }

  /** The body of a stroke: which valve side, the speed code, `M1000`, then pull or dispense of a step count. */
  function StrokeBody(valve: string, speedIndex: nat, pullOrDispense: char, steps: string): string
  {
    valve + "S" + NatToString(speedIndex) + "M1000" + [pullOrDispense] + steps
  }

  /**
   * The pump command of a stroke on the valve side `valve` ("O" or "I"),
   * timed by `table` (the N1 table); `sent` went out first.
   */
  function Stroke(sia: Sia, table: seq<real>, sent: seq<Send>, valve: string, pullOrDispense: char,
                  miliLit: real, speed: real): (r: Run)
    requires |table| > 0
    ensures r.raised.None? <==> sia.volume != 0.0 && speed != 0.0
    ensures r.raised.Some? ==> r == Run(sent, Some(ZeroDivisionError))
    ensures r.raised.None? ==> |r.sent| == |sent| + 1 && r.sent[..|sent|] == sent
  {
    if sia.volume == 0.0 then Run(sent, Some(ZeroDivisionError))        // miliLit / pumpVolumeMiliLit
    else
      var volumeFraction := miliLit / sia.volume;
      match SpeedIndex(table, speed, sia.volume)
      case Err(e) => Run(sent, Some(e))
      case Ok(i) =>
        var body := StrokeBody(valve, i, pullOrDispense, MiliLitToMicroSteps(sia, miliLit).value);
        Run(sent + [SendCommand(sia, sia.addressPump, body, Some(StrokeWait(table[i], volumeFraction)))], None)
  }

  /** `_pullOrDispenseAtMultivalvePort`: move the valve, then stroke through the pump's output side. */
  function PullOrDispenseAtMultivalvePort(sia: Sia, pullOrDispense: char, port: int, miliLit: real,
                                          speed: real, moveDirection: string, wait: Option<real>): (r: Run)
    ensures |r.sent| >= 1 && r.sent[0] == SelectMultivalvePort(sia, port, moveDirection, wait)
    ensures r.raised.None? <==> sia.volume != 0.0 && speed != 0.0
  {
    var select := SelectMultivalvePort(sia, port, moveDirection, wait);
    Stroke(sia, N1, [select], "O", pullOrDispense, miliLit, speed)
  }

  /** `_pullOrDispenseAtPumpInputPort`: stroke through the pump's input side. */
  function PullOrDispenseAtPumpInputPort(sia: Sia, pullOrDispense: char, miliLit: real, speed: real): (r: Run)
    ensures r.raised.None? <==> sia.volume != 0.0 && speed != 0.0
    ensures r.raised.Some? ==> r.sent == []
  {
    Stroke(sia, N1, [], "I", pullOrDispense, miliLit, speed)
  }

  /**
   * `pullFromMultivalvePort` and `dispenseToMultivalvePort`: the valve moves
   * first, and the stroke fails exactly for a zero syringe volume or speed.
   */
  function PullFromMultivalvePort(sia: Sia, port: int, miliLit: real, speed: real, moveDirection: string, wait: Option<real>): (r: Run)
    ensures |r.sent| >= 1 && r.sent[0] == SelectMultivalvePort(sia, port, moveDirection, wait)
    ensures r.raised.None? <==> sia.volume != 0.0 && speed != 0.0
  {
    PullOrDispenseAtMultivalvePort(sia, 'P', port, miliLit, speed, moveDirection, wait)
  }

  function DispenseToMultivalvePort(sia: Sia, port: int, miliLit: real, speed: real, moveDirection: string, wait: Option<real>): (r: Run)
    ensures |r.sent| >= 1 && r.sent[0] == SelectMultivalvePort(sia, port, moveDirection, wait)
    ensures r.raised.None? <==> sia.volume != 0.0 && speed != 0.0
  {
    PullOrDispenseAtMultivalvePort(sia, 'D', port, miliLit, speed, moveDirection, wait)
  }

  /** `pullFromPumpInputPort` and `dispenseToPumpInputPort`: no valve move, nothing sent when the stroke fails. */
  function PullFromPumpInputPort(sia: Sia, miliLit: real, speed: real): (r: Run)
    ensures r.raised.None? <==> sia.volume != 0.0 && speed != 0.0
    ensures r.raised.Some? ==> r.sent == []
  {
    PullOrDispenseAtPumpInputPort(sia, 'P', miliLit, speed)
  }

  function DispenseToPumpInputPort(sia: Sia, miliLit: real, speed: real): (r: Run)
    ensures r.raised.None? <==> sia.volume != 0.0 && speed != 0.0
    ensures r.raised.Some? ==> r.sent == []
  {
    PullOrDispenseAtPumpInputPort(sia, 'D', miliLit, speed)
  }

  /**
   * `TransferFromInputToMultivalvePort`: move the valve, then one command
   * that pulls through the input side and dispenses the same steps
   * through the output side; the wait covers two strokes.
   */
  function TransferFromInputToMultivalvePort(sia: Sia, port: int, miliLit: real, speed: real,
                                             moveDirection: string, wait: Option<real>): (r: Run)
    ensures |r.sent| >= 1 && r.sent[0] == SelectMultivalvePort(sia, port, moveDirection, wait)
    ensures r.raised.None? <==> sia.volume != 0.0 && speed != 0.0
  {
    Transfer(sia, N1, SelectMultivalvePort(sia, port, moveDirection, wait), miliLit, speed)
  }

  /** The transfer after the valve move `select`, timed by `table`. */
  function Transfer(sia: Sia, table: seq<real>, select: Send, miliLit: real, speed: real): (r: Run)
    requires |table| > 0
    ensures |r.sent| >= 1 && r.sent[0] == select
    ensures r.raised.None? <==> sia.volume != 0.0 && speed != 0.0
  {
    if sia.volume == 0.0 then Run([select], Some(ZeroDivisionError))
    else
      var volumeFraction := (miliLit * 2.0) / sia.volume;
      match SpeedIndex(table, speed, sia.volume)
      case Err(e) => Run([select], Some(e))
      case Ok(i) =>
        var steps := MiliLitToMicroSteps(sia, miliLit).value;
        var body := "IS" + NatToString(i) + "M1000P" + steps + "OD" + steps;
        Run([select, SendCommand(sia, sia.addressPump, body, Some(StrokeWait(table[i], volumeFraction)))], None)
  }

  /** `FirstTimeOnline`: a software serial port on the two pins, else the hardware port, at 9600 baud. */
  function FirstTimeOnline(sia: Sia): (r: Connection)
    ensures r.SoftSerConnect? <==> UseSoftSer(sia)
    ensures r.SoftSerConnect? ==> r == SoftSerConnect(sia.pinRx.value, sia.pinTx.value, 9600, sia.serialPort)
    ensures r.HardSerConnect? ==> r == HardSerConnect(9600, sia.serialPort)
  {
    if UseSoftSer(sia) then SoftSerConnect(sia.pinRx.value, sia.pinTx.value, SERIAL_BAUDRATE, sia.serialPort)
    else HardSerConnect(SERIAL_BAUDRATE, sia.serialPort)
  }

  // ---------------------------------------------------------------------
  // What the pump receives
  // ---------------------------------------------------------------------

  /** The instructions of a stroke body. */
  function StrokeInstructions(valve: char, speedIndex: nat, pullOrDispense: char, steps: nat): seq<Instruction>
  {
    [Instruction(valve, None), Instruction('S', Some(speedIndex)), Instruction('M', Some(1000)),
     Instruction(pullOrDispense, Some(steps))]
  }

  lemma Thousand()
    ensures NatToString(1000) == "1000"
  {
    assert NatToString(10) == "10";
    assert NatToString(100) == "100";
  }

  lemma EncodeCons(i: Instruction, rest: seq<Instruction>)
    ensures Encode([i] + rest) == InstructionText(i) + Encode(rest)
  {
    assert ([i] + rest)[1..] == rest;
  }

  /** The stroke body is the encoding of its instructions. */
  lemma StrokeBodyIsEncoding(valve: char, speedIndex: nat, pullOrDispense: char, steps: nat)
    ensures StrokeBody([valve], speedIndex, pullOrDispense, NatToString(steps))
         == Encode(StrokeInstructions(valve, speedIndex, pullOrDispense, steps))
  {
    var v, sp := Instruction(valve, None), Instruction('S', Some(speedIndex));
    var m, pd := Instruction('M', Some(1000)), Instruction(pullOrDispense, Some(steps));
    var code, digits := NatToString(speedIndex), NatToString(steps);
    calc {
      StrokeBody([valve], speedIndex, pullOrDispense, digits);
      == { StrokeText([valve], code, pullOrDispense, digits); }
      [valve] + ("S" + code + ("M1000" + ([pullOrDispense] + digits)));
      == { StrokeTail(pullOrDispense, steps); }
      [valve] + ("S" + code + Encode([m, pd]));
      == { EncodeCons(sp, [m, pd]); assert [sp] + [m, pd] == [sp, m, pd]; }
      [valve] + Encode([sp, m, pd]);
      == { EncodeCons(v, [sp, m, pd]); assert [v] + [sp, m, pd] == [v, sp, m, pd]; }
      Encode([v, sp, m, pd]);
    }
  }

  /** The stroke body regrouped instruction by instruction. */
  lemma StrokeText(valve: string, code: string, pullOrDispense: char, digits: string)
    ensures valve + "S" + code + "M1000" + [pullOrDispense] + digits
         == valve + ("S" + code + ("M1000" + ([pullOrDispense] + digits)))
  {
  }

  /** `M1000` and the pull or dispense of the steps. */
  lemma StrokeTail(pullOrDispense: char, steps: nat)
    ensures Encode([Instruction('M', Some(1000)), Instruction(pullOrDispense, Some(steps))])
         == "M1000" + ([pullOrDispense] + NatToString(steps))
  {
    var m, pd := Instruction('M', Some(1000)), Instruction(pullOrDispense, Some(steps));
    EncodeCons(pd, []);
    Thousand();
    EncodeCons(m, [pd]);
    assert [m] + [pd] == [m, pd];
  }

  lemma StrokeBodyEncodes(valve: char, speedIndex: nat, pullOrDispense: char, steps: nat)
    requires !IsDigit(valve) && !IsDigit(pullOrDispense)
    ensures Decode(StrokeBody([valve], speedIndex, pullOrDispense, NatToString(steps)))
         == Ok(StrokeInstructions(valve, speedIndex, pullOrDispense, steps))
  {
    var body := StrokeInstructions(valve, speedIndex, pullOrDispense, steps);
    StrokeBodyIsEncoding(valve, speedIndex, pullOrDispense, steps);
    assert LettersOnly(body);
    DecodeEncode(body);
  }

  /** The address and the body are where the frame put them. */
  lemma AddressThenBody(sia: Sia, address: string, body: string, wait: Option<real>)
    ensures var t := Unframe(SendCommand(sia, address, body, wait).text);
      t.Some? && t.value[..|address|] == address && t.value[|address|..] == body
  {
    assert (address + body)[..|address|] == address;
    assert (address + body)[|address|..] == body;
  }

  /** What the pump reads out of a command: its address comes first, then the body decodes to these instructions. */
  ghost predicate PumpReads(sia: Sia, send: Send, instructions: seq<Instruction>)
  {
    var t := Unframe(send.text);
    t.Some? && |sia.addressPump| <= |t.value| && t.value[..|sia.addressPump|] == sia.addressPump
    && Decode(t.value[|sia.addressPump|..]) == Ok(instructions)
  }

  /** The stroke shared by the pull and dispense commands, on any table. */
  lemma StrokeCommand(sia: Sia, table: seq<real>, sent: seq<Send>, valve: char, pullOrDispense: char,
                      miliLit: real, speed: real)
    requires sia.volume > 0.0 && 0.0 <= miliLit <= sia.volume && speed != 0.0 && |table| > 0
    requires !IsDigit(valve) && !IsDigit(pullOrDispense)
    ensures var r := Stroke(sia, table, sent, [valve], pullOrDispense, miliLit, speed);
      var i := SpeedIndex(table, speed, sia.volume).value;
      var steps := MicroSteps(sia, miliLit).value;
      r.raised.None? && r.sent[..|sent|] == sent && |r.sent| == |sent| + 1 && steps >= 0
      && PumpReads(sia, r.sent[|sent|], StrokeInstructions(valve, i, pullOrDispense, steps))
      && r.sent[|sent|].wait == Some(StrokeWait(table[i], miliLit / sia.volume))
  {
    MicroStepsRange(sia, miliLit);
    var i := SpeedIndex(table, speed, sia.volume).value;
    var steps := MicroSteps(sia, miliLit).value;
    var body := StrokeBody([valve], i, pullOrDispense, NatToString(steps));
    var send := SendCommand(sia, sia.addressPump, body, Some(StrokeWait(table[i], miliLit / sia.volume)));
    assert SpeedIndex(table, speed, sia.volume) == Ok(i);
    assert MiliLitToMicroSteps(sia, miliLit) == Ok(NatToString(steps));
    assert Stroke(sia, table, sent, [valve], pullOrDispense, miliLit, speed) == Run(sent + [send], None);
    StrokeBodyEncodes(valve, i, pullOrDispense, steps);
    AddressThenBody(sia, sia.addressPump, body, send.wait);
    assert (sent + [send])[|sent|] == send && (sent + [send])[..|sent|] == sent;
  }

  /**
   * A pull or dispense of a volume within the syringe at a nonzero speed:
   * the valve moves, then the pump reads the output side, the N1 speed code
   * of the speed, M1000 and the pull (P) or dispense (D) of the volume's
   * step count, and is given the stroke time of that code for the fraction
   * of the syringe plus two seconds.
   */
  lemma PullOrDispenseCommand(sia: Sia, pullOrDispense: char, port: int, miliLit: real,
                              speed: real, moveDirection: string, wait: Option<real>)
    requires sia.volume > 0.0 && 0.0 <= miliLit <= sia.volume && speed != 0.0
    requires !IsDigit(pullOrDispense)
    ensures var r := PullOrDispenseAtMultivalvePort(sia, pullOrDispense, port, miliLit, speed, moveDirection, wait);
      var i := SpeedIndex(N1, speed, sia.volume).value;
      var steps := MicroSteps(sia, miliLit).value;
      r.raised.None? && |r.sent| == 2 && steps >= 0 && i <= 40
      && r.sent[0] == SelectMultivalvePort(sia, port, moveDirection, wait)
      && PumpReads(sia, r.sent[1], StrokeInstructions('O', i, pullOrDispense, steps))
      && r.sent[1].wait == Some(StrokeWait(N1[i], miliLit / sia.volume))
  {
    N1SpeedIndex(speed, sia.volume);
    var select := SelectMultivalvePort(sia, port, moveDirection, wait);
    StrokeCommand(sia, N1, [select], 'O', pullOrDispense, miliLit, speed);
  }

  /** The same stroke through the pump's own input port, with no valve move. */
  lemma PumpInputCommand(sia: Sia, pullOrDispense: char, miliLit: real, speed: real)
    requires sia.volume > 0.0 && 0.0 <= miliLit <= sia.volume && speed != 0.0
    requires !IsDigit(pullOrDispense)
    ensures var r := PullOrDispenseAtPumpInputPort(sia, pullOrDispense, miliLit, speed);
      var i := SpeedIndex(N1, speed, sia.volume).value;
      var steps := MicroSteps(sia, miliLit).value;
      r.raised.None? && |r.sent| == 1 && steps >= 0 && i <= 40
      && PumpReads(sia, r.sent[0], StrokeInstructions('I', i, pullOrDispense, steps))
      && r.sent[0].wait == Some(StrokeWait(N1[i], miliLit / sia.volume))
  {
    N1SpeedIndex(speed, sia.volume);
    StrokeCommand(sia, N1, [], 'I', pullOrDispense, miliLit, speed);
  }

  /** Pull and dispense differ only in the P or D of the stroke. */
  lemma PullAndDispenseLetters(sia: Sia, port: int, miliLit: real, speed: real, moveDirection: string, wait: Option<real>)
    ensures PullFromMultivalvePort(sia, port, miliLit, speed, moveDirection, wait)
         == PullOrDispenseAtMultivalvePort(sia, 'P', port, miliLit, speed, moveDirection, wait)
    ensures DispenseToMultivalvePort(sia, port, miliLit, speed, moveDirection, wait)
         == PullOrDispenseAtMultivalvePort(sia, 'D', port, miliLit, speed, moveDirection, wait)
    ensures PullFromPumpInputPort(sia, miliLit, speed) == PullOrDispenseAtPumpInputPort(sia, 'P', miliLit, speed)
    ensures DispenseToPumpInputPort(sia, miliLit, speed) == PullOrDispenseAtPumpInputPort(sia, 'D', miliLit, speed)
  {
  }

  /** The instructions of a transfer: pull through the input side, dispense the same steps through the output side. */
  function TransferInstructions(speedIndex: nat, steps: nat): seq<Instruction>
  {
    [Instruction('I', None), Instruction('S', Some(speedIndex)), Instruction('M', Some(1000)),
     Instruction('P', Some(steps)), Instruction('O', None), Instruction('D', Some(steps))]
  }

  lemma {:induction false} EncodeAppend(a: seq<Instruction>, b: seq<Instruction>)
    ensures Encode(a + b) == Encode(a) + Encode(b)
    decreases |a|
  {
    if |a| == 0 {
      assert a + b == b;
    } else {
      assert (a + b)[0] == a[0] && (a + b)[1..] == a[1..] + b;
      EncodeAppend(a[1..], b);
    }
  }

  /** A transfer is the input-side pull stroke followed by an output-side dispense. */
  lemma TransferBodyIsEncoding(speedIndex: nat, steps: nat)
    ensures "IS" + NatToString(speedIndex) + "M1000P" + NatToString(steps) + "OD" + NatToString(steps)
         == Encode(TransferInstructions(speedIndex, steps))
  {
    var o, d := Instruction('O', None), Instruction('D', Some(steps));
    var code, digits := NatToString(speedIndex), NatToString(steps);
    var pull := StrokeInstructions('I', speedIndex, 'P', steps);
    calc {
      "IS" + code + "M1000P" + digits + "OD" + digits;
      == { TransferText(code, digits); }
      StrokeBody("I", speedIndex, 'P', digits) + ("O" + ("D" + digits));
      == { StrokeBodyIsEncoding('I', speedIndex, 'P', steps); }
      Encode(pull) + ("O" + ("D" + digits));
      == { DispenseTail(steps); }
      Encode(pull) + Encode([o, d]);
      == { EncodeAppend(pull, [o, d]); }
      Encode(pull + [o, d]);
      == { assert pull + [o, d] == TransferInstructions(speedIndex, steps); }
      Encode(TransferInstructions(speedIndex, steps));
    }
  }

  /** `OD` and the steps. */
  lemma DispenseTail(steps: nat)
    ensures Encode([Instruction('O', None), Instruction('D', Some(steps))]) == "O" + ("D" + NatToString(steps))
  {
    var o, d := Instruction('O', None), Instruction('D', Some(steps));
    EncodeCons(d, []);
    EncodeCons(o, [d]);
    assert [o] + [d] == [o, d];
  }

  /** The transfer body regrouped as the stroke and its tail. */
  lemma TransferText(code: string, digits: string)
    ensures "IS" + code + "M1000P" + digits + "OD" + digits
         == ("I" + "S" + code + "M1000" + ['P'] + digits) + ("O" + ("D" + digits))
  {
  }

  lemma TransferBodyEncodes(speedIndex: nat, steps: nat)
    ensures Decode("IS" + NatToString(speedIndex) + "M1000P" + NatToString(steps) + "OD" + NatToString(steps))
         == Ok(TransferInstructions(speedIndex, steps))
  {
    var instr := TransferInstructions(speedIndex, steps);
    TransferBodyIsEncoding(speedIndex, steps);
    assert LettersOnly(instr);
    DecodeEncode(instr);
  }

  /**
   * A transfer of a volume within the syringe at a nonzero speed: the pump
   * reads `IS<i>M1000P<steps>OD<steps>` and waits two strokes' worth of
   * the volume's fraction plus two seconds.
   */
  lemma TransferCommand(sia: Sia, port: int, miliLit: real, speed: real, moveDirection: string, wait: Option<real>)
    requires sia.volume > 0.0 && 0.0 <= miliLit <= sia.volume && speed != 0.0
    ensures var r := TransferFromInputToMultivalvePort(sia, port, miliLit, speed, moveDirection, wait);
      var i := SpeedIndex(N1, speed, sia.volume).value;
      var steps := MicroSteps(sia, miliLit).value;
      r.raised.None? && |r.sent| == 2 && steps >= 0 && i <= 40
      && r.sent[0] == SelectMultivalvePort(sia, port, moveDirection, wait)
      && PumpReads(sia, r.sent[1], TransferInstructions(i, steps))
      && r.sent[1].wait == Some(StrokeWait(N1[i], (miliLit * 2.0) / sia.volume))
  {
    N1SpeedIndex(speed, sia.volume);
    TransferSteps(sia, N1, SelectMultivalvePort(sia, port, moveDirection, wait), miliLit, speed);
  }

  /** The transfer command on any table. */
  lemma TransferSteps(sia: Sia, table: seq<real>, select: Send, miliLit: real, speed: real)
    requires sia.volume > 0.0 && 0.0 <= miliLit <= sia.volume && speed != 0.0 && |table| > 0
    ensures var r := Transfer(sia, table, select, miliLit, speed);
      var i := SpeedIndex(table, speed, sia.volume).value;
      var steps := MicroSteps(sia, miliLit).value;
      r.raised.None? && |r.sent| == 2 && steps >= 0 && r.sent[0] == select
      && PumpReads(sia, r.sent[1], TransferInstructions(i, steps))
      && r.sent[1].wait == Some(StrokeWait(table[i], (miliLit * 2.0) / sia.volume))
  {
    MicroStepsRange(sia, miliLit);
    var i := SpeedIndex(table, speed, sia.volume).value;
    var steps := MicroSteps(sia, miliLit).value;
    var digits := NatToString(steps);
    var body := "IS" + NatToString(i) + "M1000P" + digits + "OD" + digits;
    var send := SendCommand(sia, sia.addressPump, body, Some(StrokeWait(table[i], (miliLit * 2.0) / sia.volume)));
    assert Transfer(sia, table, select, miliLit, speed) == Run([select, send], None);
    TransferBodyEncodes(i, steps);
    AddressThenBody(sia, sia.addressPump, body, send.wait);
  }

  /** With no syringe volume the valve has moved when the division fails; nothing reaches the pump. */
  lemma ZeroVolumeRaises(sia: Sia, pullOrDispense: char, port: int, miliLit: real,
                         speed: real, moveDirection: string, wait: Option<real>)
    requires sia.volume == 0.0
    ensures PullOrDispenseAtMultivalvePort(sia, pullOrDispense, port, miliLit, speed, moveDirection, wait)
         == Run([SelectMultivalvePort(sia, port, moveDirection, wait)], Some(ZeroDivisionError))
    ensures TransferFromInputToMultivalvePort(sia, port, miliLit, speed, moveDirection, wait)
         == Run([SelectMultivalvePort(sia, port, moveDirection, wait)], Some(ZeroDivisionError))
  {
  }
}
