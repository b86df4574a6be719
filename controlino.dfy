/**
 * The controlino firmware (controlino/controlino.cpp) for an Arduino Nano:
 * `loop()` assembles a command line one character at a time, splits it
 * into space-separated tokens with `strtok`, dispatches on the first token
 * ignoring case and acknowledges a recognised command with a `done` line.
 *
 * The Arduino core (pin modes, pin writes, PID and SoftwareSerial objects)
 * is recorded as a list of effects; pin readings and `millis()` are
 * parameters.
 */
module Controlino {
  import opened Wrappers
  import Text
  import C = CStrings

  const RX_BUFF_SIZE: nat := 200
  const ARGV_MAX: nat := 30
  const SOFT_SER_MSG_SIZE: nat := 100
  const SOFT_SER_MAX_PORTS: nat := 4
  /** The Nano has no hardware serial port besides the control port. */
  const HARD_SER_MAX_PORTS: nat := 0
  const DIGI_PINS: nat := 13
  const PID_RELAY_MAX_VARS: nat := 4
  const ANAL_OUT_VAL_MAX: int := 255

  /** What `Serial.println` appends after its argument. */
  const CRLF: string := "\r\n"
  const DONE_LINE: string := "done\r\n"

  // ------------------------------------------------------ line assembly

  /**
   * The default branch of `loop()`: a printable character joins the line
   * while the line is shorter than `cap`; anything else is dropped.
   */
  function Accept(line: string, c: char, cap: nat): (r: string)
    ensures Text.IsPrint(c) && |line| < cap ==> r == line + [c]
    ensures !(Text.IsPrint(c) && |line| < cap) ==> r == line
  {
    if Text.IsPrint(c) && |line| < cap then line + [c] else line
  }

  /** The printable characters of `cs`, in order. */
  function Printable(cs: seq<char>): (r: string)
    ensures |r| <= |cs|
    ensures forall i :: 0 <= i < |r| ==> Text.IsPrint(r[i])
  {
    if |cs| == 0 then []
    else Printable(cs[..|cs| - 1]) + (if Text.IsPrint(cs[|cs| - 1]) then [cs[|cs| - 1]] else [])
  }

  /** The line buffered after the characters `cs`, none of them `'\r'`. */
  function Assembled(cs: seq<char>, cap: nat): string
  {
    if |cs| == 0 then "" else Accept(Assembled(cs[..|cs| - 1], cap), cs[|cs| - 1], cap)
  }

  function Min(a: int, b: int): int { if a <= b then a else b }
  function Max(a: int, b: int): int { if a >= b then a else b }

  /** The buffered line is the printable characters received, cut off at `cap`. */
  lemma {:induction false} AssembledIsPrintablePrefix(cs: seq<char>, cap: nat)
    ensures Assembled(cs, cap) == Printable(cs)[..Min(|Printable(cs)|, cap)]
  {
    if |cs| > 0 {
      var init := cs[..|cs| - 1];
      var c := cs[|cs| - 1];
      AssembledIsPrintablePrefix(init, cap);
      var p := Printable(init);
      if Text.IsPrint(c) {
        assert Printable(cs) == p + [c];
        if |p| >= cap {
          assert (p + [c])[..cap] == p[..cap];
        }
      }
    }
  }

  lemma {:induction false} PrintableOfPrintable(cs: seq<char>)
    requires forall i :: 0 <= i < |cs| ==> Text.IsPrint(cs[i])
    ensures Printable(cs) == cs
  {
    if |cs| > 0 {
      PrintableOfPrintable(cs[..|cs| - 1]);
      assert cs == cs[..|cs| - 1] + [cs[|cs| - 1]];
    }
  }

  /**
   * As written, a character is stored while fewer than RX_BUFF_SIZE are
   * buffered, so after 200 printable characters the line fills `msg` and
   * `'\r'` writes its terminator at `msg[RX_BUFF_SIZE]`, one past the end.
   */
  lemma TerminatorPastBufferAsWritten(cs: seq<char>)
    requires |cs| >= RX_BUFF_SIZE
    requires forall i :: 0 <= i < |cs| ==> Text.IsPrint(cs[i])
    ensures |Assembled(cs, RX_BUFF_SIZE)| == RX_BUFF_SIZE
  {
    PrintableOfPrintable(cs);
    AssembledIsPrintablePrefix(cs, RX_BUFF_SIZE);
  }

  /** With room kept for the terminator, the terminator always lands inside `msg`. */
  lemma TerminatorInBuffer(cs: seq<char>)
    ensures |Assembled(cs, RX_BUFF_SIZE - 1)| < RX_BUFF_SIZE
  {
    AssembledIsPrintablePrefix(cs, RX_BUFF_SIZE - 1);
  }

  // ------------------------------------------------------- tokenizing

  /** Slot `k` of `argV` once `strtok` has been called for it: the k-th token, or NULL. */
  function Slot(tokens: seq<string>, k: nat): C.Token
  {
    if k < |tokens| then C.Str(tokens[k]) else C.Null
  }

  /**
   * The do-while of `loop()` on a line of `n` tokens: slot `i` has just
   * been filled, and another is filled while `i < bound` and slot `i` is
   * not NULL. The slot it stops at becomes `argC`.
   */
  function LastSlot(n: nat, i: nat, bound: nat): nat
    decreases bound - i
  {
    if i < bound && i < n then LastSlot(n, i + 1, bound) else i
  }

  lemma {:induction false} LastSlotValue(n: nat, i: nat, bound: nat)
    requires i <= bound
    ensures LastSlot(n, i, bound) == if i >= n then i else Min(n, bound)
    decreases bound - i
  {
    if i < bound && i < n {
      LastSlotValue(n, i + 1, bound);
    }
  }

  /**
   * As written the loop runs while `i < ARGV_MAX`: a line of 30 or more
   * tokens fills `argV[ARGV_MAX]`, one past the 30 slots of `argV`.
   */
  lemma ArgvOverrunAsWritten(n: nat)
    requires n >= ARGV_MAX
    ensures LastSlot(n, 1, ARGV_MAX) == ARGV_MAX
  {
    LastSlotValue(n, 1, ARGV_MAX);
  }

  /** `argC` with the loop bound one lower, so every filled slot lies in `argV`. */
  function ArgCount(n: nat): nat
  {
    LastSlot(n, 1, ARGV_MAX - 1)
  }

  /**
   * `argC` counts the command token: it is the number of tokens, at least
   * 1 and at most ARGV_MAX - 1, so `argV[argC]` always exists.
   */
  lemma ArgCountValue(n: nat)
    ensures ArgCount(n) == if n <= 1 then 1 else Min(n, ARGV_MAX - 1)
    ensures 1 <= ArgCount(n) < ARGV_MAX
  {
    LastSlotValue(n, 1, ARGV_MAX - 1);
  }

  /** A C string; a NULL `argV` slot reads as the empty string. */
  function AsText(t: C.Token): string
  {
    if t.Str? then t.text else ""
  }

  /** The `k`-th argument, empty past the end. */
  function Arg(args: seq<string>, k: nat): string
  {
    if k < |args| then args[k] else ""
  }

  /** The `argV` array a line produces, as strings. */
  function Argv(tokens: seq<string>): (r: seq<string>)
    ensures |r| == ARGV_MAX
    ensures forall k :: 0 <= k <= ArgCount(|tokens|) ==> Arg(r, k) == Arg(tokens, k)
  {
    ArgCountValue(|tokens|);
    seq(ARGV_MAX, k requires 0 <= k < ARGV_MAX => if k <= ArgCount(|tokens|) then Arg(tokens, k) else "")
  }

  /** `strtok` resumed on the text after `done` tokens hands out the rest. */
  lemma StrtokStep(rest: string, tokens: seq<string>, done: nat)
    requires done <= |tokens| && C.TokensOf(rest) == tokens[done..]
    ensures C.Strtok(rest).0 == Slot(tokens, done)
    ensures C.Strtok(rest).0.Str? ==> C.TokensOf(C.Strtok(rest).1) == tokens[done + 1..]
  {
    var st := C.Strtok(rest);
    if st.0.Str? {
      assert C.TokensOf(rest) == [st.0.text] + C.TokensOf(st.1);
      assert tokens[done] == C.TokensOf(rest)[0];
      assert tokens[done + 1..] == C.TokensOf(rest)[1..];
    }
  }

  /** `rest` is where `strtok` resumes once the first `done` tokens are handed out. */
  ghost predicate Resumes(rest: string, tokens: seq<string>, done: nat)
  {
    if done <= |tokens| then C.TokensOf(rest) == tokens[done..] else rest == ""
  }

  /** One `strtok(NULL, " ")` call. */
  method NextToken(rest: string, ghost tokens: seq<string>, ghost done: nat) returns (t: C.Token, next: string)
    requires Resumes(rest, tokens, done)
    ensures t == Slot(tokens, done)
    ensures Resumes(next, tokens, done + 1)
  {
    if done <= |tokens| {
      StrtokStep(rest, tokens, done);
      if C.Strtok(rest).0.Null? {
        assert C.TokensOf("") == [];
      }
    }
    var st := C.Strtok(rest);
    t, next := st.0, st.1;
  }

  /**
   * The tokenizing part of `loop()`: `argV[0]` from the line, then
   * `argV[++i]` while the previous slot was not NULL and `i` is below
   * ARGV_MAX - 1.
   */
  method Tokenize(line: string) returns (argv: array<C.Token>, argC: nat)
    ensures fresh(argv) && argv.Length == ARGV_MAX
    ensures argC == ArgCount(|C.TokensOf(line)|) && 1 <= argC < ARGV_MAX
    ensures forall k :: 0 <= k <= argC ==> argv[k] == Slot(C.TokensOf(line), k)
    ensures forall k :: argC < k < ARGV_MAX ==> argv[k] == C.Null
  {
    ghost var tokens := C.TokensOf(line);
    argv := new C.Token[ARGV_MAX](_ => C.Null);
    var t, rest := NextToken(line, tokens, 0);
    argv[0] := t;
    t, rest := NextToken(rest, tokens, 1);
    argv[1] := t;
    argC := FillSlots(argv, rest, tokens);
  }

  /** The do-while from slot 1 on: slots are filled while the last one was not NULL. */
  method FillSlots(argv: array<C.Token>, rest: string, ghost tokens: seq<string>) returns (argC: nat)
    requires argv.Length == ARGV_MAX
    requires argv[0] == Slot(tokens, 0) && argv[1] == Slot(tokens, 1)
    requires forall k :: 1 < k < ARGV_MAX ==> argv[k] == C.Null
    requires Resumes(rest, tokens, 2)
    modifies argv
    ensures argC == ArgCount(|tokens|) && 1 <= argC < ARGV_MAX
    ensures forall k :: 0 <= k <= argC ==> argv[k] == Slot(tokens, k)
    ensures forall k :: argC < k < ARGV_MAX ==> argv[k] == C.Null
  {
    var i := 1;
    var r := rest;
    while i < ARGV_MAX - 1 && argv[i].Str?
      invariant 1 <= i <= ARGV_MAX - 1
      invariant forall k :: 0 <= k <= i ==> argv[k] == Slot(tokens, k)
      invariant forall k :: i < k < ARGV_MAX ==> argv[k] == C.Null
      invariant Resumes(r, tokens, i + 1)
      invariant LastSlot(|tokens|, i, ARGV_MAX - 1) == ArgCount(|tokens|)
      decreases ARGV_MAX - i
    {
      var t;
      t, r := NextToken(r, tokens, i + 1);
      i := i + 1;
      argv[i] := t;
    }
    argC := i;
  }

  /** The strings of `argV`, NULL read as empty. */
  function Strings(slots: seq<C.Token>): (r: seq<string>)
    ensures |r| == |slots|
    ensures forall k :: 0 <= k < |slots| ==> r[k] == AsText(slots[k])
  {
    seq(|slots|, k requires 0 <= k < |slots| => AsText(slots[k]))
  }

  // --------------------------------------------------------- commands

  datatype Command =
    | Set | Reset | BlinkPin | Read | Write | SetPwmFreq
    | PidRelayCreate | PidRelaySet | PidRelayEnable
    | HardSerConnect | SoftSerConnect | SerSend | SerReceive

  function Name(c: Command): string
  {
    match c
    case Set => "Set"
    case Reset => "Reset"
    case BlinkPin => "BlinkPin"
    case Read => "Read"
    case Write => "Write"
    case SetPwmFreq => "SetPwmFreq"
    case PidRelayCreate => "PidRelayCreate"
    case PidRelaySet => "PidRelaySet"
    case PidRelayEnable => "PidRelayEnable"
    case HardSerConnect => "HardSerConnect"
    case SoftSerConnect => "SoftSerConnect"
    case SerSend => "SerSend"
    case SerReceive => "SerReceive"
  }

  /** The `strcasecmp` chain of `loop()`: the command the first token names, if any. */
  function CommandOf(name: string): (r: Option<Command>)
    ensures r.Some? ==> Text.EqualsIgnoreCase(name, Name(r.value))
    ensures r.None? ==> forall c :: !Text.EqualsIgnoreCase(name, Name(c))
  {
    if Text.EqualsIgnoreCase(name, "Set") then Some(Set)
    else if Text.EqualsIgnoreCase(name, "Reset") then Some(Reset)
    else if Text.EqualsIgnoreCase(name, "BlinkPin") then Some(BlinkPin)
    else if Text.EqualsIgnoreCase(name, "Read") then Some(Read)
    else if Text.EqualsIgnoreCase(name, "Write") then Some(Write)
    else if Text.EqualsIgnoreCase(name, "SetPwmFreq") then Some(SetPwmFreq)
    else if Text.EqualsIgnoreCase(name, "PidRelayCreate") then Some(PidRelayCreate)
    else if Text.EqualsIgnoreCase(name, "PidRelaySet") then Some(PidRelaySet)
    else if Text.EqualsIgnoreCase(name, "PidRelayEnable") then Some(PidRelayEnable)
    else if Text.EqualsIgnoreCase(name, "HardSerConnect") then Some(HardSerConnect)
    else if Text.EqualsIgnoreCase(name, "SoftSerConnect") then Some(SoftSerConnect)
    else if Text.EqualsIgnoreCase(name, "SerSend") then Some(SerSend)
    else if Text.EqualsIgnoreCase(name, "SerReceive") then Some(SerReceive)
    else None
  }

  /** Two spellings that differ only in letter case select the same command. */
  lemma CommandOfIgnoresCase(a: string, b: string)
    requires Text.EqualsIgnoreCase(a, b)
    ensures CommandOf(a) == CommandOf(b)
  {
    forall c: Command ensures Text.EqualsIgnoreCase(a, Name(c)) == Text.EqualsIgnoreCase(b, Name(c)) {
      Text.EqualsIgnoreCaseSymmetric(a, b);
      if Text.EqualsIgnoreCase(a, Name(c)) {
        Text.EqualsIgnoreCaseTransitive(b, a, Name(c));
      }
      if Text.EqualsIgnoreCase(b, Name(c)) {
        Text.EqualsIgnoreCaseTransitive(a, b, Name(c));
      }
    }
    assert Name(Set) == "Set" && Name(Reset) == "Reset" && Name(BlinkPin) == "BlinkPin";
    assert Name(Read) == "Read" && Name(Write) == "Write" && Name(SetPwmFreq) == "SetPwmFreq";
    assert Name(PidRelayCreate) == "PidRelayCreate" && Name(PidRelaySet) == "PidRelaySet";
    assert Name(PidRelayEnable) == "PidRelayEnable" && Name(HardSerConnect) == "HardSerConnect";
    assert Name(SoftSerConnect) == "SoftSerConnect" && Name(SerSend) == "SerSend";
    assert Name(SerReceive) == "SerReceive";
  }

  /** An argument read with `strtol` into a 16-bit `int`; a missing one reads as 0. */
  function IntArg(args: seq<string>, k: nat): int
  {
    C.AvrInt(C.StrToL(Arg(args, k)))
  }

  datatype Direction = Input | Output
  datatype Level = Low | High

  /** What the firmware asked of the Arduino core or its libraries. */
  datatype Effect =
    | PinModeSet(pin: int, direction: Direction)
    | DigitalWrite(pin: int, level: Level)
    | AnalogWrite(pin: int, value: int)
    | PidCreated(index: nat, outputLimit: nat)
    | PidModeSet(index: nat, automatic: bool)
    | SoftSerialBegin(port: nat, rxPin: int, txPin: int, baud: int)

  /** `cmdSet`'s mode word: `in` or `out` in any letter case, otherwise nothing. */
  function ModeOf(mode: string): (r: Option<Direction>)
    ensures r == Some(Input) <==> Text.EqualsIgnoreCase(mode, "in")
    ensures r == Some(Output) <==> Text.EqualsIgnoreCase(mode, "out")
  {
    if Text.EqualsIgnoreCase(mode, "in") then Some(Input)
    else if Text.EqualsIgnoreCase(mode, "out") then Some(Output)
    else None
  }

  lemma ModeOfIgnoresCase(a: string, b: string)
    requires Text.EqualsIgnoreCase(a, b)
    ensures ModeOf(a) == ModeOf(b)
  {
    Text.EqualsIgnoreCaseSymmetric(a, b);
    if Text.EqualsIgnoreCase(a, "in") { Text.EqualsIgnoreCaseTransitive(b, a, "in"); }
    if Text.EqualsIgnoreCase(b, "in") { Text.EqualsIgnoreCaseTransitive(a, b, "in"); }
    if Text.EqualsIgnoreCase(a, "out") { Text.EqualsIgnoreCaseTransitive(b, a, "out"); }
    if Text.EqualsIgnoreCase(b, "out") { Text.EqualsIgnoreCaseTransitive(a, b, "out"); }
  }

  /** `Set <pin> <mode>`: one pin-mode change for a known mode, nothing otherwise. */
  function SetEffects(args: seq<string>): (r: seq<Effect>)
    ensures ModeOf(Arg(args, 2)).None? ==> r == []
    ensures ModeOf(Arg(args, 2)).Some? ==>
      r == [PinModeSet(IntArg(args, 1), ModeOf(Arg(args, 2)).value)]
  {
    match ModeOf(Arg(args, 2))
    case None => []
    case Some(d) => [PinModeSet(IntArg(args, 1), d)]
  }

  /** `analogWrite`'s duty cycle: the value clamped to [0, ANAL_OUT_VAL_MAX]. */
  function Clamp(v: int): (r: int)
    ensures 0 <= r <= ANAL_OUT_VAL_MAX
    ensures 0 <= v <= ANAL_OUT_VAL_MAX ==> r == v
    ensures v < 0 ==> r == 0
    ensures v > ANAL_OUT_VAL_MAX ==> r == ANAL_OUT_VAL_MAX
  {
    Max(0, Min(ANAL_OUT_VAL_MAX, v))
  }

  /** `Write <pin> digi|anal <value>`. */
  function WriteEffects(args: seq<string>): (r: seq<Effect>)
    ensures |r| <= 1
    ensures r != [] <==> Text.EqualsIgnoreCase(Arg(args, 2), "digi") || Text.EqualsIgnoreCase(Arg(args, 2), "anal")
    ensures Text.EqualsIgnoreCase(Arg(args, 2), "digi") ==>
      r[0].DigitalWrite? && r[0].pin == IntArg(args, 1) && (r[0].level == High <==> IntArg(args, 3) != 0)
    ensures !Text.EqualsIgnoreCase(Arg(args, 2), "digi") && Text.EqualsIgnoreCase(Arg(args, 2), "anal") ==>
      r[0].AnalogWrite? && r[0].pin == IntArg(args, 1) && r[0].value == Clamp(IntArg(args, 3)) &&
      0 <= r[0].value <= ANAL_OUT_VAL_MAX
  {
    var pin := IntArg(args, 1);
    var value := IntArg(args, 3);
    if Text.EqualsIgnoreCase(Arg(args, 2), "digi") then
      [DigitalWrite(pin, if value == 0 then Low else High)]
    else if Text.EqualsIgnoreCase(Arg(args, 2), "anal") then
      [AnalogWrite(pin, Clamp(value))]
    else []
  }

  /** `Reset`: every digital pin back to input, in pin order. */
  function ResetEffects(): (r: seq<Effect>)
    ensures |r| == DIGI_PINS
    ensures forall i :: 0 <= i < DIGI_PINS ==> r[i] == PinModeSet(i, Input)
  {
    seq(DIGI_PINS, i requires 0 <= i < DIGI_PINS => PinModeSet(i, Input))
  }

  // ------------------------------------------------------------- Read

  /**
   * One `Read` token: `D<n>` reads digital pin n and `A<n>` analog pin n,
   * the prefix in either case; any other token, the empty one included,
   * reads nothing.
   */
  function PinRead(token: string, digital: int -> int, analog: int -> int): (r: Option<int>)
    ensures |token| == 0 ==> r.None?
    ensures r.Some? <==> |token| > 0 && Text.LowerAscii(token[0]) in {'d', 'a'}
    ensures r.Some? && Text.LowerAscii(token[0]) == 'd' ==> r.value == digital(C.AvrInt(C.StrToL(token[1..])))
    ensures r.Some? && Text.LowerAscii(token[0]) == 'a' ==> r.value == analog(C.AvrInt(C.StrToL(token[1..])))
  {
    if |token| == 0 then None
    else
      var pin := C.AvrInt(C.StrToL(token[1..]));
      if Text.LowerAscii(token[0]) == 'd' then Some(digital(pin))
      else if Text.LowerAscii(token[0]) == 'a' then Some(analog(pin))
      else None
  }

  /**
   * What `cmdRead` prints for tokens `i..last`: each value, followed by a
   * space while `i < sepBelow`; the first unreadable token ends the reply.
   */
  function ReplyFrom(args: seq<string>, i: nat, last: nat, sepBelow: nat,
                     digital: int -> int, analog: int -> int): string
    decreases last + 1 - i
  {
    if i > last then ""
    else
      match PinRead(Arg(args, i), digital, analog)
      case None => ""
      case Some(v) =>
        Text.IntToString(v) + (if i < sepBelow then " " else "")
        + ReplyFrom(args, i + 1, last, sepBelow, digital, analog)
  }

  /** One step of `ReplyFrom`, with the pin read left folded. */
  lemma ReplyFromStep(args: seq<string>, i: nat, last: nat, sepBelow: nat, digital: int -> int, analog: int -> int)
    requires i <= last
    ensures var read := PinRead(Arg(args, i), digital, analog);
      ReplyFrom(args, i, last, sepBelow, digital, analog)
      == if read.None? then ""
         else Text.IntToString(read.value) + (if i < sepBelow then " " else "")
              + ReplyFrom(args, i + 1, last, sepBelow, digital, analog)
  {
  }

  /**
   * As written: `for (i = 1; i <= argC; i++)` with a space while `i < argC`.
   * The last round dereferences the NULL `argV[argC]`, undefined behaviour
   * that `Arg` reads as the empty token.
   */
  function ReadReplyAsWritten(args: seq<string>, argC: nat, digital: int -> int, analog: int -> int): string
  {
    ReplyFrom(args, 1, argC, argC, digital, analog)
  }

  /** The pins are `argV[1..argC-1]`; a space goes only between two values. */
  function ReadReply(args: seq<string>, argC: nat, digital: int -> int, analog: int -> int): string
    requires argC >= 1
  {
    ReplyFrom(args, 1, argC - 1, argC - 1, digital, analog)
  }

  predicate AllReadable(args: seq<string>, lo: nat, hi: nat, digital: int -> int, analog: int -> int)
  {
    forall k :: lo <= k < hi ==> PinRead(Arg(args, k), digital, analog).Some?
  }

  /** The printed values of tokens `lo..hi-1`, all of them readable. */
  function Values(args: seq<string>, lo: nat, hi: nat, digital: int -> int, analog: int -> int): (r: seq<string>)
    requires AllReadable(args, lo, hi, digital, analog)
    ensures |r| == if lo <= hi then hi - lo else 0
    decreases hi - lo
  {
    if lo >= hi then []
    else [Text.IntToString(PinRead(Arg(args, lo), digital, analog).value)] + Values(args, lo + 1, hi, digital, analog)
  }

  lemma {:induction false} ReplyFromJoin(args: seq<string>, i: nat, last: nat, digital: int -> int, analog: int -> int)
    requires 1 <= i <= last + 1
    requires AllReadable(args, i, last + 1, digital, analog)
    ensures ReplyFrom(args, i, last, last, digital, analog) == Text.Join(Values(args, i, last + 1, digital, analog), " ")
    decreases last + 1 - i
  {
    if i <= last {
      var v := PinRead(Arg(args, i), digital, analog).value;
      var vs := Values(args, i, last + 1, digital, analog);
      var tail := Values(args, i + 1, last + 1, digital, analog);
      assert vs == [Text.IntToString(v)] + tail;
      ReplyFromJoin(args, i + 1, last, digital, analog);
      assert ReplyFrom(args, i, last, last, digital, analog)
        == Text.IntToString(v) + (if i < last then " " else "") + ReplyFrom(args, i + 1, last, last, digital, analog);
      var x := Text.IntToString(v);
      if i < last {
        assert vs[1..] == tail;
        assert Text.Join(vs, " ") == x + " " + Text.Join(tail, " ");
      } else {
        assert Text.Join(vs, " ") == x;
        assert x + "" + "" == x;
      }
    } else {
      assert Values(args, i, last + 1, digital, analog) == [];
    }
  }

  /**
   * When every pin token is readable, the reply is exactly the values
   * joined by single spaces: no trailing separator.
   */
  lemma ReadReplyJoinsValues(args: seq<string>, argC: nat, digital: int -> int, analog: int -> int)
    requires argC >= 1 && AllReadable(args, 1, argC, digital, analog)
    ensures ReadReply(args, argC, digital, analog) == Text.Join(Values(args, 1, argC, digital, analog), " ")
  {
    ReplyFromJoin(args, 1, argC - 1, digital, analog);
  }

  /** `A<n>` reads analog pin n. */
  lemma AnalogTokenReads(pin: int, digital: int -> int, analog: int -> int)
    requires -0x8000 <= pin < 0x8000
    ensures PinRead("A" + Text.IntToString(pin), digital, analog) == Some(analog(pin))
  {
    var t := "A" + Text.IntToString(pin);
    assert t[1..] == Text.IntToString(pin) + "";
    C.StrToLOfIntToString(pin, "");
  }

  /**
   * As written, `Read A<n>` (argC = 2) prints the value and then a space,
   * and the next round reads `argV[2][0]` through the NULL `argV[2]`, which
   * is undefined behaviour; the model takes that read as an empty token,
   * which ends the loop. The corrected reply is the value alone.
   */
  lemma ReadTrailingSpaceAsWritten(pin: int, digital: int -> int, analog: int -> int)
    requires -0x8000 <= pin < 0x8000
    ensures ReadReplyAsWritten(["Read", "A" + Text.IntToString(pin)], 2, digital, analog)
            == Text.IntToString(analog(pin)) + " "
    ensures ReadReply(["Read", "A" + Text.IntToString(pin)], 2, digital, analog)
            == Text.IntToString(analog(pin))
  {
    AnalogTokenReads(pin, digital, analog);
    var args := ["Read", "A" + Text.IntToString(pin)];
    assert Arg(args, 1) == "A" + Text.IntToString(pin);
    assert Arg(args, 2) == "";
  }

  // ------------------------------------------------------- SetPwmFreq

  datatype Timer = Timer0 | Timer1 | Timer2

  /**
   * `cmdSetPwmFreq`'s tables: the timer behind the pin and the clock-select
   * mode for the divider; other pins and dividers select nothing.
   */
  function PwmMode(pin: int, divider: int): (r: Option<(Timer, bv8)>)
    ensures r.Some? <==>
      ((pin == 5 || pin == 6 || pin == 9 || pin == 10) && divider in {1, 8, 64, 256, 1024})
      || ((pin == 3 || pin == 11) && divider in {1, 8, 32, 64, 128, 256, 1024})
    ensures r.Some? ==> 1 <= r.value.1 <= 7
    ensures r.Some? ==> r.value.0 == TimerOf(pin)
  {
    if pin == 5 || pin == 6 || pin == 9 || pin == 10 then
      var t := if pin == 5 || pin == 6 then Timer0 else Timer1;
      if divider == 1 then Some((t, 1))
      else if divider == 8 then Some((t, 2))
      else if divider == 64 then Some((t, 3))
      else if divider == 256 then Some((t, 4))
      else if divider == 1024 then Some((t, 5))
      else None
    else if pin == 3 || pin == 11 then
      if divider == 1 then Some((Timer2, 1))
      else if divider == 8 then Some((Timer2, 2))
      else if divider == 32 then Some((Timer2, 3))
      else if divider == 64 then Some((Timer2, 4))
      else if divider == 128 then Some((Timer2, 5))
      else if divider == 256 then Some((Timer2, 6))
      else if divider == 1024 then Some((Timer2, 7))
      else None
    else None
  }

  /** The timer that drives a PWM pin (pins 5 and 6 on Timer0, 9 and 10 on Timer1, the rest on Timer2). */
  function TimerOf(pin: int): Timer
  {
    if pin == 5 || pin == 6 then Timer0 else if pin == 9 || pin == 10 then Timer1 else Timer2
  }

  /** The clock divider a timer's mode selects (Timer2 has its own table). */
  function Divider(t: Timer, mode: bv8): int
  {
    if t == Timer2 then
      if mode == 1 then 1 else if mode == 2 then 8 else if mode == 3 then 32
      else if mode == 4 then 64 else if mode == 5 then 128 else if mode == 6 then 256
      else if mode == 7 then 1024 else 0
    else
      if mode == 1 then 1 else if mode == 2 then 8 else if mode == 3 then 64
      else if mode == 4 then 256 else if mode == 5 then 1024 else 0
  }

  /** The mode chosen for a divider selects that divider again, and every mode is reachable. */
  lemma PwmModeInvertible(pin: int, divider: int, mode: bv8)
    ensures PwmMode(pin, divider).Some? ==> Divider(TimerOf(pin), PwmMode(pin, divider).value.1) == divider
    ensures (pin == 5 || pin == 6 || pin == 9 || pin == 10) && 1 <= mode <= 5 ==>
      PwmMode(pin, Divider(TimerOf(pin), mode)) == Some((TimerOf(pin), mode))
    ensures (pin == 3 || pin == 11) && 1 <= mode <= 7 ==>
      PwmMode(pin, Divider(TimerOf(pin), mode)) == Some((Timer2, mode))
  {
  }

  /** `(TCCRnB & 0b11111000) | mode`: the low three bits become `mode`, the rest stay. */
  function WithMode(reg: bv8, mode: bv8): (r: bv8)
    requires mode < 8
    ensures r & 7 == mode
    ensures r & 0xF8 == reg & 0xF8
  {
    (reg & 0xF8) | mode
  }

  // ----------------------------------------------- PID and serial ports

  /** A one-based descriptor number within 1..count, as a zero-based index. */
  function DescriptorIndex(number: int, count: nat): (r: Option<nat>)
    ensures r.Some? <==> 1 <= number <= count
    ensures r.Some? ==> r.value < count && r.value + 1 == number
  {
    if number < 1 || number > count then None else Some(number - 1)
  }

  /**
   * As written, `currPort < 1 || currPort > (isSoftSerial) ? SOFT : HARD`
   * parses as `(currPort < 1 || currPort > isSoftSerial) ? 4 : 0`: only
   * soft port 1 is let through.
   */
  function PortRejectedAsWritten(port: int, soft: bool): (r: bool)
    ensures !r <==> soft && port == 1
  {
    var condition := port < 1 || port > (if soft then 1 else 0);
    (if condition then SOFT_SER_MAX_PORTS else HARD_SER_MAX_PORTS) != 0
  }

  /** The intended check: ports 1..4 for software serial, none for hardware on the Nano. */
  function PortRejected(port: int, soft: bool): (r: bool)
    ensures !r <==> soft && 1 <= port <= SOFT_SER_MAX_PORTS
  {
    port < 1 || port > (if soft then SOFT_SER_MAX_PORTS else HARD_SER_MAX_PORTS)
  }

  /** Soft port 2 is refused as written and accepted by the intended check. */
  lemma SecondSoftPortRefusedAsWritten()
    ensures PortRejectedAsWritten(2, true) && !PortRejected(2, true)
  {
  }

  /** A PID-relay descriptor; the PID gains are kept out of the model. */
  datatype PidRelay = PidRelay(
    created: bool, pinAnalIn: int, pinDigiOut: int,
    windowSize: nat, windowStartTime: nat, setPoint: int, isOn: bool)

  /** A software serial descriptor: whether it was connected and its two messages. */
  datatype SoftSerial = SoftSerial(connected: bool, txMsg: string, rxMsg: string)

  datatype Blink = Blink(active: bool, pin: int, delayMs: nat, lastChangeMs: nat)

  const NO_PID: PidRelay := PidRelay(false, 0, 0, 0, 0, 0, false)
  const NO_SOFT_SERIAL: SoftSerial := SoftSerial(false, "", "")

  /** `after` is `before` followed by a `done` line. */
  predicate Acknowledged(before: string, after: string)
  {
    |after| >= |before| + |DONE_LINE| && after[..|before|] == before && after[|after| - |DONE_LINE|..] == DONE_LINE
  }

  /** `PidRelayCreate <n> <analog in> <digital out> <window> ...`: the descriptor after it. */
  function Created(d: PidRelay, args: seq<string>): (r: PidRelay)
    ensures r.created && !r.isOn
    ensures r.setPoint == d.setPoint && r.windowStartTime == d.windowStartTime
  {
    d.(created := true, pinAnalIn := IntArg(args, 2), pinDigiOut := IntArg(args, 3),
       windowSize := C.UnsignedLong(IntArg(args, 4)), isOn := false)
  }

  /** What `SerReceive` copies out of a software port: at most SOFT_SER_MSG_SIZE characters. */
  function Received(d: SoftSerial): (r: string)
    ensures |r| <= SOFT_SER_MSG_SIZE && |r| <= |d.rxMsg| && r == d.rxMsg[..|r|]
  {
    d.rxMsg[..Min(|d.rxMsg|, SOFT_SER_MSG_SIZE)]
  }

  /**
   * The firmware's state apart from its line buffer: what went out on the
   * control port, what it asked of the board, the three timer registers, the
   * blinking pin and the PID and software-serial descriptors.
   */
  datatype Board = Board(serialOut: string, effects: seq<Effect>, tccr0b: bv8, tccr1b: bv8, tccr2b: bv8,
                         blink: Blink, pids: seq<PidRelay>, softs: seq<SoftSerial>)
  {
    predicate Sized()
    {
      |pids| == PID_RELAY_MAX_VARS && |softs| == SOFT_SER_MAX_PORTS
    }
  }

  /** `cmdSetPwmFreq` on the registers: only the pin's timer gets the divider's mode. */
  function PwmRegisters(b: Board, args: seq<string>): Board
  {
    match PwmMode(IntArg(args, 1), IntArg(args, 2))
    case None => b
    case Some((timer, mode)) =>
      if timer == Timer0 then b.(tccr0b := WithMode(b.tccr0b, mode))
      else if timer == Timer1 then b.(tccr1b := WithMode(b.tccr1b, mode))
      else b.(tccr2b := WithMode(b.tccr2b, mode))
  }

  /** The `cmd*` handler of one known command, before the dispatcher's `done`. */
  function Run(b: Board, c: Command, args: seq<string>, argC: nat, now: nat,
               digital: int -> int, analog: int -> int): Board
    requires b.Sized() && argC >= 1
  {
    match c
    case Set => b.(effects := b.effects + SetEffects(args))
    case Reset => b.(effects := b.effects + ResetEffects())
    case BlinkPin =>
      b.(blink := Blink(true, IntArg(args, 1), C.UnsignedLong(C.StrToL(Arg(args, 2))), now),
         effects := b.effects + [PinModeSet(IntArg(args, 1), Output)])
    case Read => b.(serialOut := b.serialOut + ReadReply(args, argC, digital, analog))
    case Write => b.(effects := b.effects + WriteEffects(args))
    case SetPwmFreq => PwmRegisters(b, args)
    case PidRelayCreate =>
      (match DescriptorIndex(IntArg(args, 1), PID_RELAY_MAX_VARS)
       case None => b
       case Some(k) =>
         var d := Created(b.pids[k], args);
         b.(pids := b.pids[k := d], effects := b.effects + [PidCreated(k + 1, d.windowSize)]))
    case PidRelaySet =>
      (match DescriptorIndex(IntArg(args, 1), PID_RELAY_MAX_VARS)
       case None => b
       case Some(k) => b.(pids := b.pids[k := b.pids[k].(setPoint := IntArg(args, 2))]))
    case PidRelayEnable =>
      (match DescriptorIndex(IntArg(args, 1), PID_RELAY_MAX_VARS)
       case None => b
       case Some(k) =>
         var on := IntArg(args, 2) != 0;
         b.(pids := b.pids[k := b.pids[k].(windowStartTime := now, isOn := on)],
            effects := b.effects + [PidModeSet(k + 1, on)] + (if on then [] else [DigitalWrite(b.pids[k].pinDigiOut, Low)])))
    case HardSerConnect => b
    case SoftSerConnect =>
      (match DescriptorIndex(IntArg(args, 4), SOFT_SER_MAX_PORTS)
       case None => b
       case Some(k) =>
         b.(softs := b.softs[k := SoftSerial(true, "", "")],
            effects := b.effects + [SoftSerialBegin(k + 1, IntArg(args, 1), IntArg(args, 2), IntArg(args, 3))]))
    case SerSend =>
      var port := IntArg(args, 2);
      var sent := b.(serialOut := b.serialOut + DONE_LINE);
      if PortRejected(port, Text.EqualsIgnoreCase(Arg(args, 1), "soft")) then sent
      else sent.(softs := b.softs[port - 1 := b.softs[port - 1].(txMsg := "")])
    case SerReceive =>
      var port := IntArg(args, 2);
      if PortRejected(port, Text.EqualsIgnoreCase(Arg(args, 1), "soft")) then b
      else b.(serialOut := b.serialOut + Received(b.softs[port - 1]))
  }

  /** One line's dispatch in `loop()`: an unknown command changes nothing, a known one runs and says `done`. */
  function Step(b: Board, args: seq<string>, argC: nat, now: nat, digital: int -> int, analog: int -> int): Board
    requires b.Sized() && argC >= 1
  {
    match CommandOf(Arg(args, 0))
    case None => b
    case Some(c) =>
      var r := Run(b, c, args, argC, now, digital, analog);
      r.(serialOut := r.serialOut + DONE_LINE)
  }

  /**
   * `SerSend` acknowledges twice: its own `done` ahead of the dispatcher's,
   * and it prints nothing else.
   */
  lemma SerSendAcknowledgedTwice(b: Board, args: seq<string>, argC: nat, now: nat, digital: int -> int, analog: int -> int)
    requires b.Sized() && argC >= 1 && CommandOf(Arg(args, 0)) == Some(SerSend)
    ensures Step(b, args, argC, now, digital, analog).serialOut == b.serialOut + DONE_LINE + DONE_LINE
    ensures Step(b, args, argC, now, digital, analog).effects == b.effects
  {
    var r := Run(b, SerSend, args, argC, now, digital, analog);
    assert r.serialOut == b.serialOut + DONE_LINE && r.effects == b.effects;
    assert Step(b, args, argC, now, digital, analog) == r.(serialOut := r.serialOut + DONE_LINE);
  }

  /** `Set`, `Reset`, `Read`, `Write`, the compiled-out `HardSerConnect` and an unknown command leave the timers, the blinking and the descriptors alone. */
  lemma StepKeepsOthers(b: Board, args: seq<string>, argC: nat, now: nat, digital: int -> int, analog: int -> int)
    requires b.Sized() && argC >= 1
    requires CommandOf(Arg(args, 0)) in {None, Some(Set), Some(Reset), Some(Read), Some(Write), Some(HardSerConnect)}
    ensures var r := Step(b, args, argC, now, digital, analog);
      r.tccr0b == b.tccr0b && r.tccr1b == b.tccr1b && r.tccr2b == b.tccr2b
      && r.blink == b.blink && r.pids == b.pids && r.softs == b.softs
  {
  }

  /** A handler only ever appends to the control port's output. */
  lemma RunExtendsOutput(b: Board, c: Command, args: seq<string>, argC: nat, now: nat,
                         digital: int -> int, analog: int -> int)
    requires b.Sized() && argC >= 1
    ensures var r := Run(b, c, args, argC, now, digital, analog);
      |r.serialOut| >= |b.serialOut| && r.serialOut[..|b.serialOut|] == b.serialOut
  {
    var r := Run(b, c, args, argC, now, digital, analog);
    match c
    case Read => Extends(b.serialOut, ReadReply(args, argC, digital, analog));
    case SerSend =>
      Extends(b.serialOut, DONE_LINE);
    case SerReceive =>
      var port := IntArg(args, 2);
      if !PortRejected(port, Text.EqualsIgnoreCase(Arg(args, 1), "soft")) {
        Extends(b.serialOut, Received(b.softs[port - 1]));
      }
    case _ =>
      assert r.serialOut == b.serialOut;
  }

  lemma Extends(s: string, t: string)
    ensures |s + t| >= |s| && (s + t)[..|s|] == s
  {
  }

  /**
   * The sketch's globals and what it has sent and asked of the board. This
   * is the firmware as evidently intended, with four corrections to the
   * code as written: a line keeps room for its terminator (`TerminatorInBuffer`
   * against `TerminatorPastBufferAsWritten`), the token loop stops one slot
   * earlier (`ArgCountValue` against `ArgvOverrunAsWritten`), `cmdRead` reads
   * `argV[1..argC-1]` (`ReadReply` against `ReadReplyAsWritten`), and the
   * serial commands check their port against the right bound (`PortRejected`
   * against `PortRejectedAsWritten`).
   */
  class Firmware {
    /** The line buffer and `pMsg`, as an index into it. */
    const msg: array<char>
    var pos: nat
    /** Everything written to the control serial port, oldest first. */
    var serialOut: string
    var effects: seq<Effect>
    var tccr0b: bv8
    var tccr1b: bv8
    var tccr2b: bv8
    const pidRelays: array<PidRelay>
    const softSerials: array<SoftSerial>
    var blink: Blink

    ghost predicate Valid()
      reads this
    {
      msg.Length == RX_BUFF_SIZE && pos < RX_BUFF_SIZE
      && pidRelays.Length == PID_RELAY_MAX_VARS && softSerials.Length == SOFT_SER_MAX_PORTS
    }

    /** The line buffered so far, `msg[..pMsg]`. */
    ghost function Line(): string
      reads this, msg
      requires Valid()
    {
      msg[..pos]
    }

    /** The state `Board` describes. */
    ghost function Snapshot(): (b: Board)
      reads this, pidRelays, softSerials
      requires Valid()
      ensures b.Sized()
    {
      Board(serialOut, effects, tccr0b, tccr1b, tccr2b, blink, pidRelays[..], softSerials[..])
    }

    /** `setup()`, with the timer registers as the board left them. */
    constructor (tccr0b: bv8, tccr1b: bv8, tccr2b: bv8)
      ensures Valid() && Line() == "" && serialOut == "" && effects == []
      ensures this.tccr0b == tccr0b && this.tccr1b == tccr1b && this.tccr2b == tccr2b
      ensures forall k :: 0 <= k < PID_RELAY_MAX_VARS ==> pidRelays[k] == NO_PID
      ensures forall k :: 0 <= k < SOFT_SER_MAX_PORTS ==> softSerials[k] == NO_SOFT_SERIAL
      ensures !blink.active
    {
      msg := new char[RX_BUFF_SIZE](_ => '\0');
      pos := 0;
      serialOut := "";
      effects := [];
      this.tccr0b, this.tccr1b, this.tccr2b := tccr0b, tccr1b, tccr2b;
      pidRelays := new PidRelay[PID_RELAY_MAX_VARS](_ => NO_PID);
      softSerials := new SoftSerial[SOFT_SER_MAX_PORTS](_ => NO_SOFT_SERIAL);
      blink := Blink(false, 0, 0, 0);
    }

    /**
     * One character from the control port. `'\n'` is ignored, `'\r'` ends
     * the line and runs it, and anything else goes through `Accept` with
     * room kept for the terminator.
     */
    method ReceiveChar(c: char, now: nat, digital: int -> int, analog: int -> int)
      requires Valid()
      modifies this`pos, msg, this`serialOut, this`effects, this`tccr0b, this`tccr1b, this`tccr2b,
        this`blink, pidRelays, softSerials
      ensures Valid()
      ensures c != '\r' ==>
        Line() == Accept(old(Line()), c, RX_BUFF_SIZE - 1)
        && serialOut == old(serialOut) && effects == old(effects)
        && unchanged(pidRelays, softSerials) && blink == old(blink)
        && tccr0b == old(tccr0b) && tccr1b == old(tccr1b) && tccr2b == old(tccr2b)
      ensures c == '\r' ==> Line() == ""
      ensures c == '\r' ==>
        var tokens := C.TokensOf(old(Line()));
        var command := CommandOf(Arg(tokens, 0));
        var argC := ArgCount(|tokens|);
        (command.None? ==> serialOut == old(serialOut) + CRLF && effects == old(effects))
        && (command.Some? ==> Acknowledged(old(serialOut) + CRLF, serialOut))
        && argC >= 1
        && (command == Some(Read) ==>
              serialOut == old(serialOut) + CRLF + ReadReply(Argv(tokens), argC, digital, analog) + DONE_LINE)
      ensures c != '\r' ==> Snapshot() == old(Snapshot())
      ensures c == '\r' ==>
        var tokens := C.TokensOf(old(Line()));
        Snapshot() == Step(old(Snapshot()).(serialOut := old(serialOut) + CRLF), Argv(tokens), ArgCount(|tokens|),
                           now, digital, analog)
    {
      if c == '\n' {
        return;
      } else if c == '\r' {
        var line := msg[..pos];
        serialOut := serialOut + CRLF;
        msg[pos] := '\0';
        pos := 0;
        var argv, argC := Tokenize(line);
        var args := Strings(argv[..]);
        ghost var tokens := C.TokensOf(line);
        assert args == Argv(tokens) by {
          forall k | 0 <= k < ARGV_MAX ensures args[k] == Argv(tokens)[k] {
            assert args[k] == AsText(argv[k]);
          }
        }
        assert Arg(args, 0) == Arg(tokens, 0);
        Execute(args, argC, now, digital, analog);
      } else if Text.IsPrint(c) && pos < RX_BUFF_SIZE - 1 {
        msg[pos] := c;
        pos := pos + 1;
        assert msg[..pos] == old(msg[..pos]) + [c];
      }
    }

    /** The command dispatch of `loop()` and its `done` acknowledgement. */
    method Execute(args: seq<string>, argC: nat, now: nat, digital: int -> int, analog: int -> int)
      requires Valid() && argC >= 1
      modifies this`serialOut, this`effects, this`tccr0b, this`tccr1b, this`tccr2b,
        this`blink, pidRelays, softSerials
      ensures Valid()
      ensures Snapshot() == Step(old(Snapshot()), args, argC, now, digital, analog)
      ensures CommandOf(Arg(args, 0)).None? ==>
        serialOut == old(serialOut) && effects == old(effects)
        && unchanged(pidRelays, softSerials) && blink == old(blink)
        && tccr0b == old(tccr0b) && tccr1b == old(tccr1b) && tccr2b == old(tccr2b)
      ensures CommandOf(Arg(args, 0)).Some? ==> Acknowledged(old(serialOut), serialOut)
      ensures CommandOf(Arg(args, 0)) == Some(Read) ==>
        serialOut == old(serialOut) + ReadReply(args, argC, digital, analog) + DONE_LINE
      ensures CommandOf(Arg(args, 0)) == Some(Set) ==> effects == old(effects) + SetEffects(args)
      ensures CommandOf(Arg(args, 0)) == Some(Write) ==> effects == old(effects) + WriteEffects(args)
      ensures CommandOf(Arg(args, 0)) == Some(Reset) ==> effects == old(effects) + ResetEffects()
    {
      var command := CommandOf(Arg(args, 0));
      if command.None? {
        return;
      }
      ghost var before := Snapshot();
      Dispatch(command.value, args, argC, now, digital, analog);
      ghost var ran := Snapshot();
      RunExtendsOutput(before, command.value, args, argC, now, digital, analog);
      serialOut := serialOut + DONE_LINE;
      assert Snapshot() == ran.(serialOut := ran.serialOut + DONE_LINE);
      assert serialOut[..|before.serialOut|] == ran.serialOut[..|before.serialOut|];
      assert serialOut[|serialOut| - |DONE_LINE|..] == DONE_LINE;
    }

    /** The `cmd*` handler of a known command. */
    method Dispatch(c: Command, args: seq<string>, argC: nat, now: nat, digital: int -> int, analog: int -> int)
      requires Valid() && argC >= 1
      modifies this`serialOut, this`effects, this`tccr0b, this`tccr1b, this`tccr2b,
        this`blink, pidRelays, softSerials
      ensures Valid()
      ensures Snapshot() == Run(old(Snapshot()), c, args, argC, now, digital, analog)
    {
      if c.PidRelayCreate? || c.PidRelaySet? || c.PidRelayEnable? {
        DispatchPid(c, args, argC, now, digital, analog);
      } else if c.SoftSerConnect? || c.SerSend? || c.SerReceive? {
        DispatchSerial(c, args, argC, now, digital, analog);
      } else {
        DispatchPins(c, args, argC, now, digital, analog);
      }
    }

    /** The handlers that touch pins, timers and the control port only. */
    method DispatchPins(c: Command, args: seq<string>, argC: nat, now: nat, digital: int -> int, analog: int -> int)
      requires Valid() && argC >= 1
      requires !(c.PidRelayCreate? || c.PidRelaySet? || c.PidRelayEnable? || c.SoftSerConnect? || c.SerSend? || c.SerReceive?)
      modifies this`serialOut, this`effects, this`tccr0b, this`tccr1b, this`tccr2b, this`blink
      ensures Valid()
      ensures Snapshot() == Run(old(Snapshot()), c, args, argC, now, digital, analog)
    {
      match c {
      case Set => CmdSet(args);
      case Reset => CmdReset();
      case BlinkPin => CmdBlinkPin(args, now);
      case Read => CmdRead(args, argC, digital, analog);
      case Write => CmdWrite(args);
      case SetPwmFreq => CmdSetPwmFreq(args);
      case HardSerConnect => // compiled out: the Nano has no hardware serial port
      }
    }

    /** The handlers of the PID descriptors. */
    method DispatchPid(c: Command, args: seq<string>, argC: nat, now: nat, digital: int -> int, analog: int -> int)
      requires Valid() && argC >= 1
      requires c.PidRelayCreate? || c.PidRelaySet? || c.PidRelayEnable?
      modifies this`effects, pidRelays
      ensures Valid()
      ensures Snapshot() == Run(old(Snapshot()), c, args, argC, now, digital, analog)
    {
      match c {
      case PidRelayCreate => CmdPidRelayCreate(args);
      case PidRelaySet => CmdPidRelaySet(args);
      case PidRelayEnable => CmdPidRelayEnable(args, now);
      }
    }

    /** The handlers of the software-serial descriptors. */
    method DispatchSerial(c: Command, args: seq<string>, argC: nat, now: nat, digital: int -> int, analog: int -> int)
      requires Valid() && argC >= 1
      requires c.SoftSerConnect? || c.SerSend? || c.SerReceive?
      modifies this`serialOut, this`effects, softSerials
      ensures Valid()
      ensures Snapshot() == Run(old(Snapshot()), c, args, argC, now, digital, analog)
    {
      match c {
      case SoftSerConnect => CmdSoftSerConnect(args);
      case SerSend => CmdSerSend(args);
      case SerReceive => CmdSerReceive(args);
      }
    }

    /** `Set <pin> in|out`. */
    method CmdSet(args: seq<string>)
      modifies this`effects
      ensures effects == old(effects) + SetEffects(args)
    {
      effects := effects + SetEffects(args);
    }

    /** `Write <pin> anal|digi <value>`. */
    method CmdWrite(args: seq<string>)
      modifies this`effects
      ensures effects == old(effects) + WriteEffects(args)
    {
      effects := effects + WriteEffects(args);
    }

    /** `Reset`: pins 0..DIGI_PINS-1 become inputs, in order. */
    method CmdReset()
      modifies this`effects
      ensures effects == old(effects) + ResetEffects()
    {
      var i := 0;
      while i < DIGI_PINS
        invariant 0 <= i <= DIGI_PINS
        invariant effects == old(effects) + ResetEffects()[..i]
      {
        assert ResetEffects()[..i + 1] == ResetEffects()[..i] + [PinModeSet(i, Input)];
        effects := effects + [PinModeSet(i, Input)];
        i := i + 1;
      }
      assert ResetEffects()[..DIGI_PINS] == ResetEffects();
    }

    /** `BlinkPin <pin> <delay>`: the pin becomes an output and blinking starts now. */
    method CmdBlinkPin(args: seq<string>, now: nat)
      modifies this`blink, this`effects
      ensures blink == Blink(true, IntArg(args, 1), C.UnsignedLong(C.StrToL(Arg(args, 2))), now)
      ensures effects == old(effects) + [PinModeSet(IntArg(args, 1), Output)]
    {
      var pin := IntArg(args, 1);
      blink := Blink(true, pin, C.UnsignedLong(C.StrToL(Arg(args, 2))), now);
      effects := effects + [PinModeSet(pin, Output)];
    }

    /** `Read <pin>...`, over `argV[1..argC-1]`. */
    method CmdRead(args: seq<string>, argC: nat, digital: int -> int, analog: int -> int)
      requires argC >= 1
      modifies this`serialOut
      ensures serialOut == old(serialOut) + ReadReply(args, argC, digital, analog)
    {
      var i := 1;
      while i < argC
        invariant 1 <= i <= argC
        invariant serialOut + ReplyFrom(args, i, argC - 1, argC - 1, digital, analog)
                  == old(serialOut) + ReadReply(args, argC, digital, analog)
        decreases argC - i
      {
        var read := PinRead(Arg(args, i), digital, analog);
        ReplyFromStep(args, i, argC - 1, argC - 1, digital, analog);
        if read.None? {
          assert serialOut == old(serialOut) + ReadReply(args, argC, digital, analog);
          return;
        }
        var sep := if i < argC - 1 then " " else "";
        ghost var tail := ReplyFrom(args, i + 1, argC - 1, argC - 1, digital, analog);
        assert serialOut + (Text.IntToString(read.value) + sep + tail)
               == (serialOut + Text.IntToString(read.value) + sep) + tail;
        serialOut := serialOut + Text.IntToString(read.value) + sep;
        i := i + 1;
      }
      assert ReplyFrom(args, i, argC - 1, argC - 1, digital, analog) == "";
      assert serialOut + "" == serialOut;
    }

    /** `SetPwmFreq <pin> <divider>`: only the selected timer's clock-select bits change. */
    method CmdSetPwmFreq(args: seq<string>)
      modifies this`tccr0b, this`tccr1b, this`tccr2b
      ensures var m := PwmMode(IntArg(args, 1), IntArg(args, 2));
        tccr0b == (if m.Some? && m.value.0 == Timer0 then WithMode(old(tccr0b), m.value.1) else old(tccr0b))
        && tccr1b == (if m.Some? && m.value.0 == Timer1 then WithMode(old(tccr1b), m.value.1) else old(tccr1b))
        && tccr2b == (if m.Some? && m.value.0 == Timer2 then WithMode(old(tccr2b), m.value.1) else old(tccr2b))
    {
      match PwmMode(IntArg(args, 1), IntArg(args, 2))
      case None =>
      case Some((timer, mode)) =>
        if timer == Timer0 {
          tccr0b := WithMode(tccr0b, mode);
        } else if timer == Timer1 {
          tccr1b := WithMode(tccr1b, mode);
        } else {
          tccr2b := WithMode(tccr2b, mode);
        }
    }

    /** `PidRelayCreate <n> ...`: descriptors 1..PID_RELAY_MAX_VARS only. */
    method CmdPidRelayCreate(args: seq<string>)
      requires pidRelays.Length == PID_RELAY_MAX_VARS
      modifies pidRelays, this`effects
      ensures var k := DescriptorIndex(IntArg(args, 1), PID_RELAY_MAX_VARS);
        (k.None? ==> unchanged(pidRelays) && effects == old(effects))
        && (k.Some? ==>
              pidRelays[..] == old(pidRelays[..])[k.value := Created(old(pidRelays[k.value]), args)]
              && effects == old(effects) + [PidCreated(k.value + 1, pidRelays[k.value].windowSize)])
    {
      match DescriptorIndex(IntArg(args, 1), PID_RELAY_MAX_VARS)
      case None =>
      case Some(k) =>
        pidRelays[k] := Created(pidRelays[k], args);
        effects := effects + [PidCreated(k + 1, pidRelays[k].windowSize)];
    }

    /** `PidRelaySet <n> <setpoint>`. */
    method CmdPidRelaySet(args: seq<string>)
      requires pidRelays.Length == PID_RELAY_MAX_VARS
      modifies pidRelays
      ensures var k := DescriptorIndex(IntArg(args, 1), PID_RELAY_MAX_VARS);
        (k.None? ==> unchanged(pidRelays))
        && (k.Some? ==>
              pidRelays[..] == old(pidRelays[..])[k.value := old(pidRelays[k.value]).(setPoint := IntArg(args, 2))])
    {
      match DescriptorIndex(IntArg(args, 1), PID_RELAY_MAX_VARS)
      case None =>
      case Some(k) =>
        pidRelays[k] := pidRelays[k].(setPoint := IntArg(args, 2));
    }

    /** `PidRelayEnable <n> <0|1>`: starts a new window now; turning off also drives the relay low. */
    method CmdPidRelayEnable(args: seq<string>, now: nat)
      requires pidRelays.Length == PID_RELAY_MAX_VARS
      modifies pidRelays, this`effects
      ensures var k := DescriptorIndex(IntArg(args, 1), PID_RELAY_MAX_VARS);
        var on := IntArg(args, 2) != 0;
        (k.None? ==> unchanged(pidRelays) && effects == old(effects))
        && (k.Some? ==>
              pidRelays[..] == old(pidRelays[..])[k.value := old(pidRelays[k.value]).(windowStartTime := now, isOn := on)]
              && effects == old(effects) + [PidModeSet(k.value + 1, on)]
                 + (if on then [] else [DigitalWrite(old(pidRelays[k.value]).pinDigiOut, Low)]))
    {
      match DescriptorIndex(IntArg(args, 1), PID_RELAY_MAX_VARS)
      case None =>
      case Some(k) =>
        var on := IntArg(args, 2) != 0;
        pidRelays[k] := pidRelays[k].(windowStartTime := now, isOn := on);
        effects := effects + [PidModeSet(k + 1, on)];
        if !on {
          effects := effects + [DigitalWrite(pidRelays[k].pinDigiOut, Low)];
        }
    }

    /** `SoftSerConnect <rx> <tx> <baud> <port>`: ports 1..SOFT_SER_MAX_PORTS only; both messages are emptied. */
    method CmdSoftSerConnect(args: seq<string>)
      requires softSerials.Length == SOFT_SER_MAX_PORTS
      modifies softSerials, this`effects
      ensures var k := DescriptorIndex(IntArg(args, 4), SOFT_SER_MAX_PORTS);
        (k.None? ==> unchanged(softSerials) && effects == old(effects))
        && (k.Some? ==>
              softSerials[..] == old(softSerials[..])[k.value := SoftSerial(true, "", "")]
              && effects == old(effects) + [SoftSerialBegin(k.value + 1, IntArg(args, 1), IntArg(args, 2), IntArg(args, 3))])
    {
      match DescriptorIndex(IntArg(args, 4), SOFT_SER_MAX_PORTS)
      case None =>
      case Some(k) =>
        softSerials[k] := SoftSerial(true, "", "");
        effects := effects + [SoftSerialBegin(k + 1, IntArg(args, 1), IntArg(args, 2), IntArg(args, 3))];
    }

    /**
     * `SerSend hard|soft <port>`: acknowledges at once and, for an accepted
     * software port, empties its transmit message.
     */
    method CmdSerSend(args: seq<string>)
      requires softSerials.Length == SOFT_SER_MAX_PORTS
      modifies softSerials, this`serialOut
      ensures serialOut == old(serialOut) + DONE_LINE
      ensures var soft := Text.EqualsIgnoreCase(Arg(args, 1), "soft");
        var port := IntArg(args, 2);
        (PortRejected(port, soft) ==> unchanged(softSerials))
        && (!PortRejected(port, soft) ==>
              softSerials[..] == old(softSerials[..])[port - 1 := old(softSerials[port - 1]).(txMsg := "")])
    {
      var soft := Text.EqualsIgnoreCase(Arg(args, 1), "soft");
      var port := IntArg(args, 2);
      serialOut := serialOut + DONE_LINE;
      if PortRejected(port, soft) {
        return;
      }
      softSerials[port - 1] := softSerials[port - 1].(txMsg := "");
    }

    /** `SerReceive hard|soft <port>`: an accepted software port's received message goes out. */
    method CmdSerReceive(args: seq<string>)
      requires softSerials.Length == SOFT_SER_MAX_PORTS
      modifies this`serialOut
      ensures var soft := Text.EqualsIgnoreCase(Arg(args, 1), "soft");
        var port := IntArg(args, 2);
        serialOut == old(serialOut) + (if PortRejected(port, soft) then "" else Received(softSerials[port - 1]))
    {
      var soft := Text.EqualsIgnoreCase(Arg(args, 1), "soft");
      var port := IntArg(args, 2);
      if PortRejected(port, soft) {
        return;
      }
      serialOut := serialOut + Received(softSerials[port - 1]);
    }
  }
}
