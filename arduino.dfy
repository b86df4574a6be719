/**
 * The wx-era driver for the Controlino firmware
 * (instrumentino/controllers/arduino/__init__.py): `_sendData`'s
 * `done`-terminated reply handling and its non-response counter, the pin
 * value cache and its refresh, the command strings, the digital state maps
 * and the unipolar/bipolar range helpers.
 */
module ArduinoDriver {
  import opened Wrappers
  import Text
  import Seqs
  import C = CStrings
  import Ctl = Controlino

  /** `maxNonResponseAllowed`. */
  const MAX_NON_RESPONSE: nat := 10
  const DONE: string := "done"

  /**
   * `rxData[0:rxData.rfind("done")].strip()`, or None when the reply holds
   * no `done` at all.
   */
  function Answer(rx: string): (r: Option<string>)
    ensures r.None? <==> forall i :: !Seqs.OccursAt(rx, DONE, i)
    ensures r.Some? ==> exists k :: Seqs.OccursAt(rx, DONE, k) && r.value == Text.Strip(rx[..k])
                                    && forall i :: k < i ==> !Seqs.OccursAt(rx, DONE, i)
  {
    var k := Seqs.RFind(rx, DONE);
    if k == -1 then None else Some(Text.Strip(rx[..k]))
  }

  /** The firmware's reply, anything followed by its `done` line, yields that thing stripped. */
  lemma AnswerOfAcknowledged(body: string)
    ensures Answer(body + Ctl.DONE_LINE) == Some(Text.Strip(body))
  {
    var rx := body + Ctl.DONE_LINE;
    var n := |body|;
    assert rx[n..n + 4] == DONE;
    assert Seqs.OccursAt(rx, DONE, n);
    forall i | n < i ensures !Seqs.OccursAt(rx, DONE, i) {
      if i + 4 <= |rx| {
        assert rx[i] == Ctl.DONE_LINE[i - n];
        assert rx[i..i + 4][0] == rx[i];
      }
    }
    var k := Seqs.RFind(rx, DONE);
    assert k == n;
    assert rx[..n] == body;
  }

  /** `'Set %d %s' % (pin, 'out' if modeOut else 'in')`. */
  function SetCommand(pin: int, modeOut: bool): string
  {
    "Set " + Text.IntToString(pin) + " " + (if modeOut then "out" else "in")
  }

  /** `'Write %d anal %d'` and `'Write %d digi %d'`. */
  function WriteCommand(pin: int, analog: bool, value: int): string
  {
    "Write " + Text.IntToString(pin) + " " + (if analog then "anal" else "digi") + " " + Text.IntToString(value)
  }

  /** `pins += k + ' '` over the keys. */
  function Spaced(keys: seq<string>): string
  {
    if |keys| == 0 then "" else keys[0] + " " + Spaced(keys[1..])
  }

  /** `'Read %s' % (pins.strip())`. */
  function ReadCommand(keys: seq<string>): string
  {
    "Read " + Text.Strip(Spaced(keys))
  }

  /** `_sendData` appends `'\r'` when `addLineBreak` is set. */
  function Framed(txData: string, addLineBreak: bool): (r: string)
    ensures addLineBreak ==> r == txData + "\r" && r[|r| - 1] == '\r'
    ensures !addLineBreak ==> r == txData
  {
    if addLineBreak then txData + "\r" else txData
  }

  /** The cache key of a pin: `'A' + str(pin)` or `'D' + str(pin)`. */
  function Key(analog: bool, pin: int): (r: string)
    ensures |r| >= 2 && r[0] == (if analog then 'A' else 'D') && r[1..] == Text.IntToString(pin)
  {
    (if analog then "A" else "D") + Text.IntToString(pin)
  }

  /** A decimal number is one token: no spaces, not empty. */
  lemma IntToStringWord(i: int)
    ensures |Text.IntToString(i)| >= 1 && ' ' !in Text.IntToString(i)
  {
    var s := Text.IntToString(i);
    if i >= 0 {
      assert Text.AllDigits(s);
    } else {
      assert s == "-" + Text.NatToString(-i);
      assert Text.AllDigits(s[1..]);
    }
  }

  /** The firmware takes a printed pin number back as that number. */
  lemma PinNumberRead(pin: int)
    requires -0x8000 <= pin < 0x8000
    ensures C.AvrInt(C.StrToL(Text.IntToString(pin))) == pin
  {
    assert Text.IntToString(pin) + "" == Text.IntToString(pin);
    C.StrToLOfIntToString(pin, "");
  }

  /** `Set <pin> out|in` as the firmware tokenizes it. */
  lemma SetCommandTokens(pin: int, modeOut: bool)
    ensures C.TokensOf(SetCommand(pin, modeOut)) == ["Set", Text.IntToString(pin), if modeOut then "out" else "in"]
  {
    var words := ["Set", Text.IntToString(pin), if modeOut then "out" else "in"];
    IntToStringWord(pin);
    assert Text.Join(words, " ") == SetCommand(pin, modeOut) by {
      assert Text.Join(words[2..], " ") == words[2];
      assert Text.Join(words[1..], " ") == words[1] + " " + words[2];
    }
    C.TokensOfJoin(words);
  }

  /**
   * What the driver sends as `Set` is what the firmware does: the named
   * pin becomes an output or an input.
   */
  lemma SetCommandUnderstood(pin: int, modeOut: bool)
    requires -0x8000 <= pin < 0x8000
    ensures var tokens := C.TokensOf(SetCommand(pin, modeOut));
      Ctl.CommandOf(Ctl.Arg(tokens, 0)) == Some(Ctl.Set)
      && Ctl.SetEffects(Ctl.Argv(tokens)) == [Ctl.PinModeSet(pin, if modeOut then Ctl.Output else Ctl.Input)]
  {
    var tokens := C.TokensOf(SetCommand(pin, modeOut));
    SetCommandTokens(pin, modeOut);
    var args := Ctl.Argv(tokens);
    Ctl.ArgCountValue(|tokens|);
    assert Ctl.Arg(args, 1) == Text.IntToString(pin);
    assert Ctl.Arg(args, 2) == if modeOut then "out" else "in";
    PinNumberRead(pin);
    assert Ctl.IntArg(args, 1) == pin;
  }

  /** `Write <pin> anal|digi <value>` as the firmware tokenizes it. */
  lemma WriteCommandTokens(pin: int, analog: bool, value: int)
    ensures C.TokensOf(WriteCommand(pin, analog, value))
            == ["Write", Text.IntToString(pin), if analog then "anal" else "digi", Text.IntToString(value)]
  {
    var words := ["Write", Text.IntToString(pin), if analog then "anal" else "digi", Text.IntToString(value)];
    IntToStringWord(pin);
    IntToStringWord(value);
    JoinFour(words[0], words[1], words[2], words[3]);
    assert "Write " == "Write" + " ";
    C.TokensOfJoin(words);
  }

  /** Four words joined by single spaces. */
  lemma JoinFour(a: string, b: string, c: string, d: string)
    ensures Text.Join([a, b, c, d], " ") == a + " " + b + " " + c + " " + d
  {
    var words := [a, b, c, d];
    assert Text.Join(words[3..], " ") == d;
    assert Text.Join(words[2..], " ") == c + " " + d;
    assert Text.Join(words[1..], " ") == b + " " + (c + " " + d);
  }

  /** The firmware's `Write` on arguments that hold the pin, the kind and the value. */
  lemma WriteEffectsOf(args: seq<string>, pin: int, analog: bool, value: int)
    requires Ctl.IntArg(args, 1) == pin && Ctl.IntArg(args, 3) == value
    requires Ctl.Arg(args, 2) == if analog then "anal" else "digi"
    ensures Ctl.WriteEffects(args)
            == if analog then [Ctl.AnalogWrite(pin, Ctl.Clamp(value))]
               else [Ctl.DigitalWrite(pin, if value == 0 then Ctl.Low else Ctl.High)]
  {
    if analog {
      assert !Text.EqualsIgnoreCase("anal", "digi") by {
        assert "anal"[0] == 'a' && "digi"[0] == 'd';
        assert Text.LowerAscii("anal"[0]) != Text.LowerAscii("digi"[0]);
      }
    }
  }

  /**
   * What the driver sends as `Write` is what the firmware does: a digital
   * write drives the pin high exactly when the value is nonzero, an analog
   * one writes the value clamped to 0..255.
   */
  lemma WriteCommandUnderstood(pin: int, analog: bool, value: int)
    requires -0x8000 <= pin < 0x8000 && -0x8000 <= value < 0x8000
    ensures var tokens := C.TokensOf(WriteCommand(pin, analog, value));
      Ctl.CommandOf(Ctl.Arg(tokens, 0)) == Some(Ctl.Write)
      && Ctl.WriteEffects(Ctl.Argv(tokens))
         == if analog then [Ctl.AnalogWrite(pin, Ctl.Clamp(value))]
            else [Ctl.DigitalWrite(pin, if value == 0 then Ctl.Low else Ctl.High)]
  {
    var tokens := C.TokensOf(WriteCommand(pin, analog, value));
    WriteCommandTokens(pin, analog, value);
    assert Ctl.CommandOf(Ctl.Arg(tokens, 0)) == Some(Ctl.Write) by {
      assert Ctl.Arg(tokens, 0) == "Write";
    }
    var args := Ctl.Argv(tokens);
    assert Ctl.IntArg(args, 1) == pin && Ctl.IntArg(args, 3) == value
           && Ctl.Arg(args, 2) == (if analog then "anal" else "digi") by {
      Ctl.ArgCountValue(|tokens|);
      assert Ctl.Arg(args, 1) == Text.IntToString(pin);
      assert Ctl.Arg(args, 3) == Text.IntToString(value);
      PinNumberRead(pin);
      PinNumberRead(value);
    }
    WriteEffectsOf(args, pin, analog, value);
  }

  /**
   * `for key, val in zip(keys, values): cache[key] = int(val)`; an `int()`
   * that raises ValueError ends the refresh with the keys before it updated.
   */
  function Assigned(cache: map<string, int>, keys: seq<string>, values: seq<string>): map<string, int>
    decreases |keys|
  {
    if |keys| == 0 || |values| == 0 then cache
    else
      match Text.ParseInt(values[0])
      case Err(_) => cache
      case Ok(v) => Assigned(cache[keys[0] := v], keys[1..], values[1..])
  }

  /** One pair of the refresh, with the rest left folded. */
  lemma AssignedStep(cache: map<string, int>, keys: seq<string>, values: seq<string>)
    requires |keys| > 0 && |values| > 0
    ensures Text.ParseInt(values[0]).Err? ==> Assigned(cache, keys, values) == cache
    ensures Text.ParseInt(values[0]).Ok? ==>
      Assigned(cache, keys, values) == Assigned(cache[keys[0] := Text.ParseInt(values[0]).value], keys[1..], values[1..])
  {
  }

  /** Whether one of the `int()` calls of the refresh raises ValueError. */
  predicate RefreshRaises(keys: seq<string>, values: seq<string>)
    decreases |keys|
  {
    if |keys| == 0 || |values| == 0 then false
    else Text.ParseInt(values[0]).Err? || RefreshRaises(keys[1..], values[1..])
  }

  predicate Distinct(keys: seq<string>)
  {
    forall i, j :: 0 <= i < j < |keys| ==> keys[i] != keys[j]
  }

  /** The keys after the first are distinct and do not include it. */
  lemma DistinctTail(keys: seq<string>)
    requires |keys| > 0 && Distinct(keys)
    ensures Distinct(keys[1..]) && keys[0] !in keys[1..]
  {
    forall i, j | 0 <= i < j < |keys| - 1 ensures keys[1..][i] != keys[1..][j] {
      assert keys[1..][i] == keys[i + 1] && keys[1..][j] == keys[j + 1];
    }
    forall j | 0 <= j < |keys| - 1 ensures keys[1..][j] != keys[0] {
      assert keys[1..][j] == keys[j + 1];
    }
  }

  /**
   * A reply with one printed number per key stores each number under its
   * key and adds no key.
   */
  lemma {:induction false} AssignedValues(cache: map<string, int>, keys: seq<string>, values: seq<string>, vs: seq<int>)
    requires Distinct(keys) && |vs| == |keys| == |values|
    requires forall i :: 0 <= i < |values| ==> values[i] == Text.IntToString(vs[i])
    requires forall k :: k in keys ==> k in cache
    ensures var r := Assigned(cache, keys, values);
      r.Keys == cache.Keys
      && (forall i :: 0 <= i < |keys| ==> r[keys[i]] == vs[i])
      && (forall k :: k in cache && k !in keys ==> r[k] == cache[k])
    decreases |keys|
  {
    AssignedKeys(cache, keys, values);
    var r := Assigned(cache, keys, values);
    forall k | k in cache && k !in keys ensures r[k] == cache[k] {
      AssignedOthers(cache, keys, values, k);
    }
    if |keys| > 0 {
      Text.ParseIntOfIntToString(vs[0]);
      var next := cache[keys[0] := vs[0]];
      DistinctTail(keys);
      assert forall i :: 0 <= i < |values[1..]| ==> values[1..][i] == Text.IntToString(vs[1..][i]);
      AssignedValues(next, keys[1..], values[1..], vs[1..]);
      AssignedOthers(next, keys[1..], values[1..], keys[0]);
      assert r == Assigned(next, keys[1..], values[1..]);
      forall i | 0 <= i < |keys| ensures r[keys[i]] == vs[i] {
        if i > 0 {
          assert keys[1..][i - 1] == keys[i] && vs[1..][i - 1] == vs[i];
        }
      }
    }
  }

  /** The refresh adds no key when every key is already cached. */
  lemma {:induction false} AssignedKeys(cache: map<string, int>, keys: seq<string>, values: seq<string>)
    requires forall k :: k in keys ==> k in cache
    ensures Assigned(cache, keys, values).Keys == cache.Keys
    decreases |keys|
  {
    if |keys| > 0 && |values| > 0 && Text.ParseInt(values[0]).Ok? {
      var next := cache[keys[0] := Text.ParseInt(values[0]).value];
      assert forall k :: k in keys[1..] ==> k in next;
      AssignedKeys(next, keys[1..], values[1..]);
    }
  }

  /** A key that is not refreshed keeps its entry, or its absence. */
  lemma {:induction false} AssignedOthers(cache: map<string, int>, keys: seq<string>, values: seq<string>, k: string)
    requires k !in keys
    ensures k in Assigned(cache, keys, values) <==> k in cache
    ensures k in cache ==> Assigned(cache, keys, values)[k] == cache[k]
    decreases |keys|
  {
    if |keys| > 0 && |values| > 0 && Text.ParseInt(values[0]).Ok? {
      assert k != keys[0] && k !in keys[1..];
      AssignedOthers(cache[keys[0] := Text.ParseInt(values[0]).value], keys[1..], values[1..], k);
    }
  }

  /** The shared class attribute `pinValuesCache`. */
  class PinCache {
    var values: map<string, int>

    constructor ()
      ensures values == map[]
    {
      values := map[];
    }
  }

  /** What `_sendData` ended in. `Blocked`: it spins on a lock that is held and the model stops there. */
  datatype Reply = Answered(text: string) | NoReply | Blocked

  /**
   * The driver object. `locked` is whether `accessSemaphore` is held;
   * `written` is what went to the serial port and `logged` the counts of
   * the "did not respond" messages.
   */
  class Arduino {
    var connected: bool
    var locked: bool
    var timerRunning: bool
    var nonResponsiveCounter: nat
    var written: seq<string>
    var logged: seq<nat>
    /** How many times "Arduino did not respond" was logged for a port that could not be opened. */
    var openFailures: nat
    const cache: PinCache

    constructor (cache: PinCache)
      ensures this.cache == cache
      ensures !connected && !locked && !timerRunning && nonResponsiveCounter == 0 && written == [] && logged == []
      ensures openFailures == 0
    {
      openFailures := 0;
      this.cache := cache;
      connected := false;
      locked := false;
      timerRunning := false;
      nonResponsiveCounter := 0;
      written := [];
      logged := [];
    }

    /**
     * The part of `_sendData` after the lock: write, read `rx` (what the
     * port returned, `''` when either call raised) and look for `done`.
     */
    method Exchange(tx: string, wait: bool, rx: string) returns (r: Reply)
      modifies this`written, this`nonResponsiveCounter, this`logged
      ensures written == old(written) + [tx]
      ensures r.Blocked? == false
      ensures Answer(rx).Some? ==> r == Answered(Answer(rx).value) && nonResponsiveCounter == 0 && logged == old(logged)
      ensures Answer(rx).None? ==>
        r == NoReply && nonResponsiveCounter == old(nonResponsiveCounter) + 1
        && logged == old(logged) + (if wait || nonResponsiveCounter > MAX_NON_RESPONSE then [nonResponsiveCounter] else [])
    {
      written := written + [tx];
      var answer := Answer(rx);
      if answer.None? {
        nonResponsiveCounter := nonResponsiveCounter + 1;
        if wait || nonResponsiveCounter > MAX_NON_RESPONSE {
          logged := logged + [nonResponsiveCounter];
        }
        return NoReply;
      }
      nonResponsiveCounter := 0;
      return Answered(answer.value);
    }

    /**
     * `_sendData` as written: without a port nothing is sent; a held lock
     * refuses the call unless `wait`; the lock taken is released only when
     * an answer came.
     */
    method SendData(txData: string, addLineBreak: bool, lock: bool, wait: bool, rx: string) returns (r: Reply)
      modifies this`locked, this`written, this`nonResponsiveCounter, this`logged
      ensures !connected ==> r == NoReply && written == old(written) && locked == old(locked)
      ensures connected && lock && old(locked) ==>
        written == old(written) && locked && r == (if wait then Blocked else NoReply)
      ensures connected && !(lock && old(locked)) ==>
        written == old(written) + [Framed(txData, addLineBreak)]
        && (Answer(rx).Some? ==> r == Answered(Answer(rx).value) && nonResponsiveCounter == 0)
        && (Answer(rx).None? ==> r == NoReply && nonResponsiveCounter == old(nonResponsiveCounter) + 1)
        && locked == (if lock then Answer(rx).None? else old(locked))
    {
      if !connected {
        return NoReply;
      }
      if lock {
        if locked {
          return if wait then Blocked else NoReply;
        }
        locked := true;
      }
      r := Exchange(Framed(txData, addLineBreak), wait, rx);
      if r.Answered? && lock {
        locked := false;
      }
    }

    /** `_sendData` with the lock it took released on every path. */
    method SendDataReleasing(txData: string, addLineBreak: bool, lock: bool, wait: bool, rx: string) returns (r: Reply)
      modifies this`locked, this`written, this`nonResponsiveCounter, this`logged
      ensures !connected ==> r == NoReply && written == old(written) && locked == old(locked)
      ensures connected && lock && old(locked) ==>
        written == old(written) && locked && r == (if wait then Blocked else NoReply)
      ensures connected && !(lock && old(locked)) ==>
        written == old(written) + [Framed(txData, addLineBreak)]
        && (Answer(rx).Some? ==> r == Answered(Answer(rx).value) && nonResponsiveCounter == 0)
        && (Answer(rx).None? ==> r == NoReply && nonResponsiveCounter == old(nonResponsiveCounter) + 1)
        && locked == old(locked)
    {
      if !connected {
        return NoReply;
      }
      if lock {
        if locked {
          return if wait then Blocked else NoReply;
        }
        locked := true;
      }
      r := Exchange(Framed(txData, addLineBreak), wait, rx);
      if lock {
        locked := false;
      }
    }

    /**
     * `Connect`: `portOpened` is whether the serial port could be opened and
     * `rx` what the board answered to `Read A0`. A port that cannot be opened
     * logs "Arduino did not respond"; an opened port stays assigned even when
     * the answer is missing, and `_sendData` then keeps the lock it took.
     */
    method Connect(portOpened: bool, rx: string) returns (ok: bool)
      modifies this`connected, this`timerRunning, this`locked, this`written, this`nonResponsiveCounter, this`logged,
        this`openFailures
      ensures ok <==> portOpened && !old(locked) && Answer(rx).Some?
      ensures connected == (portOpened || old(connected)) && timerRunning == (ok || old(timerRunning))
      ensures locked == (old(locked) || (portOpened && Answer(rx).None?))
      ensures openFailures == old(openFailures) + (if portOpened then 0 else 1)
      ensures portOpened && !old(locked) ==> written == old(written) + [Framed("Read A0", true)]
      ensures !portOpened || old(locked) ==> written == old(written)
    {
      if !portOpened {
        openFailures := openFailures + 1;
        return false;
      }
      connected := true;
      ok := Handshake(rx);
    }

    /** The part of `connect` after the port opened: the `Read A0` ping, and the timer on an answer. */
    method Handshake(rx: string) returns (ok: bool)
      requires connected
      modifies this`timerRunning, this`locked, this`written, this`nonResponsiveCounter, this`logged
      ensures ok <==> !old(locked) && Answer(rx).Some?
      ensures timerRunning == (ok || old(timerRunning))
      ensures locked == (old(locked) || Answer(rx).None?)
      ensures !old(locked) ==> written == old(written) + [Framed("Read A0", true)]
      ensures old(locked) ==> written == old(written)
    {
      var r := SendData("Read A0", true, true, false, rx);
      if !r.Answered? {
        return false;
      }
      timerRunning := true;
      return true;
    }

    /** `AnalogRead` and `DigitalRead`: a hit returns the cached value, a miss adds the key with 0. */
    method PinRead(analog: bool, pin: int) returns (r: Option<int>)
      modifies cache
      ensures var key := Key(analog, pin);
        (key in old(cache.values) ==> r == Some(old(cache.values)[key]) && cache.values == old(cache.values))
        && (key !in old(cache.values) ==> r.None? && cache.values == old(cache.values)[key := 0])
    {
      var key := Key(analog, pin);
      if key in cache.values {
        return Some(cache.values[key]);
      }
      cache.values := cache.values[key := 0];
      return None;
    }

    /**
     * `CacheUpdate`: `keys` is the order `keys()` enumerated the cache in.
     * The refresh asks for every key at once and assigns the answers in
     * that order until an `int()` raises ValueError; no answer leaves the
     * cache alone and, as in every unanswered `_sendData`, the lock held.
     */
    method CacheUpdate(keys: seq<string>, rx: string) returns (raised: Option<Raised>)
      requires Distinct(keys) && forall k :: k in keys <==> k in cache.values
      modifies cache, this`locked, this`written, this`nonResponsiveCounter, this`logged
      ensures var r := Answer(rx);
        cache.values == if connected && !old(locked) && r.Some?
                        then Assigned(old(cache.values), keys, Text.Split(r.value, ' '))
                        else old(cache.values)
      ensures var r := Answer(rx);
        raised == if connected && !old(locked) && r.Some? && RefreshRaises(keys, Text.Split(r.value, ' '))
                  then Some(ValueError) else None
      ensures locked == (old(locked) || (connected && Answer(rx).None?))
      ensures connected && !old(locked) ==> written == old(written) + [ReadCommand(keys) + "\r"]
    {
      var reply := SendData(ReadCommand(keys), true, true, false, rx);
      if !reply.Answered? {
        return None;
      }
      var values := Text.Split(reply.text, ' ');
      raised := Refresh(keys, values);
    }

    /**
     * The loop of `cacheUpdate`: each key takes `int()` of the value at its
     * position, stopping at the shorter list or at the first value that
     * raises ValueError.
     */
    method Refresh(keys: seq<string>, values: seq<string>) returns (raised: Option<Raised>)
      modifies cache
      ensures cache.values == Assigned(old(cache.values), keys, values)
      ensures raised == if RefreshRaises(keys, values) then Some(ValueError) else None
    {
      ghost var start := cache.values;
      var i := 0;
      while i < |keys| && i < |values|
        invariant 0 <= i <= |keys| && i <= |values|
        invariant Assigned(start, keys, values) == Assigned(cache.values, keys[i..], values[i..])
        invariant RefreshRaises(keys, values) == RefreshRaises(keys[i..], values[i..])
        decreases |keys| - i
      {
        var parsed := Text.ParseInt(values[i]);
        AssignedStep(cache.values, keys[i..], values[i..]);
        assert keys[i..][0] == keys[i] && values[i..][0] == values[i];
        if parsed.Err? {
          return Some(ValueError);
        }
        cache.values := cache.values[keys[i] := parsed.value];
        assert keys[i..][1..] == keys[i + 1..] && values[i..][1..] == values[i + 1..];
        i := i + 1;
      }
      return None;
    }
  }

  /**
   * As written, an unanswered locked call keeps the lock: the next call is
   * refused, or, with `wait`, never returns.
   */
  method LockLeakShown() returns (first: Reply, second: Reply, third: Reply)
    ensures first == NoReply && second == NoReply && third == Blocked
  {
    var cache := new PinCache();
    var driver := new Arduino(cache);
    driver.connected := true;
    first := driver.SendData("Read A0", true, true, false, "");
    second := driver.SendData("Read A0", true, true, false, "512\r\ndone\r\n");
    third := driver.SendData("Reset", true, true, true, "done\r\n");
  }

  /** With the lock released on the failure path, the next call gets its answer. */
  method LockReleasedShown() returns (first: Reply, second: Reply)
    ensures first == NoReply && second == Answered("")
  {
    var cache := new PinCache();
    var driver := new Arduino(cache);
    driver.connected := true;
    first := driver.SendDataReleasing("Read A0", true, true, false, "");
    AnswerOfAcknowledged("");
    assert "" + Ctl.DONE_LINE == "done\r\n";
    second := driver.SendDataReleasing("Reset", true, true, true, "done\r\n");
  }

  /** `{v: k for k, v in stateToValue.items()}`, with the items in iteration order: a later state wins. */
  function Inverted(items: seq<(string, int)>): (r: map<int, string>)
    ensures forall v :: v in r <==> exists i :: 0 <= i < |items| && items[i].1 == v
  {
    if |items| == 0 then map[]
    else Inverted(items[..|items| - 1])[items[|items| - 1].1 := items[|items| - 1].0]
  }

  /** With distinct values, `valueToState` undoes `stateToValue`. */
  lemma {:induction false} InvertedUndoes(items: seq<(string, int)>, i: nat)
    requires i < |items|
    requires forall a, b :: 0 <= a < b < |items| ==> items[a].1 != items[b].1
    ensures Inverted(items)[items[i].1] == items[i].0
    decreases |items|
  {
    if i < |items| - 1 {
      InvertedUndoes(items[..|items| - 1], i);
      assert items[..|items| - 1][i] == items[i];
    }
  }

  /** The default `{'on': 1, 'off': 0}`. */
  const DEFAULT_STATES: seq<(string, int)> := [("on", 1), ("off", 0)]

  /** `GetFunc`: a reading of None is None; a value without a state raises KeyError. */
  function DigitalState(valueToState: map<int, string>, reading: Option<int>): (r: Result<Option<string>>)
    ensures reading.None? ==> r == Ok(None)
    ensures reading.Some? && reading.value in valueToState ==> r == Ok(Some(valueToState[reading.value]))
    ensures reading.Some? && reading.value !in valueToState ==> r == Err(KeyError)
  {
    match reading
    case None => Ok(None)
    case Some(v) => if v in valueToState then Ok(Some(valueToState[v])) else Err(KeyError)
  }

  /** Reading back the value a state was written as gives that state. */
  lemma DigitalStateRoundTrip(items: seq<(string, int)>, i: nat)
    requires i < |items|
    requires forall a, b :: 0 <= a < b < |items| ==> items[a].1 != items[b].1
    ensures DigitalState(Inverted(items), Some(items[i].1)) == Ok(Some(items[i].0))
  {
    InvertedUndoes(items, i);
  }

  function Abs(x: real): real { if x < 0.0 then -x else x }

  /** `SysVarAnalogArduinoUnipolar`: `sign`, `GetUnipolarMin` and `GetUnipolarMax`. */
  function UnipolarSign(lo: real, hi: real): (r: int)
    ensures r == -1 <==> lo < 0.0 || hi < 0.0
    ensures r == 1 || r == -1
  {
    if lo >= 0.0 && hi >= 0.0 then 1 else -1
  }

  function UnipolarMin(lo: real, hi: real): (r: real)
    ensures r == Abs(lo) || r == Abs(hi)
    ensures r <= Abs(lo) && r <= Abs(hi)
  {
    if Abs(lo) <= Abs(hi) then Abs(lo) else Abs(hi)
  }

  function UnipolarMax(lo: real, hi: real): (r: real)
    ensures r == Abs(lo) || r == Abs(hi)
    ensures r >= Abs(lo) && r >= Abs(hi)
  {
    if Abs(lo) >= Abs(hi) then Abs(lo) else Abs(hi)
  }

  /** `SysVarAnalogArduinoBipolarWithExternalPolarity`: 0 to the magnitude of the upper end. */
  function BipolarMin(lo: real, hi: real): (r: real)
    ensures r == 0.0
  {
    0.0
  }

  function BipolarMax(lo: real, hi: real): (r: real)
    ensures r >= 0.0 && (r == hi || r == -hi)
  {
    Abs(hi)
  }

  /** `GetUnipolarRange` is never negative, and is the distance between the magnitudes. */
  lemma UnipolarRangeNonNegative(lo: real, hi: real)
    ensures UnipolarMax(lo, hi) - UnipolarMin(lo, hi) >= 0.0
    ensures UnipolarMax(lo, hi) - UnipolarMin(lo, hi) == Abs(Abs(hi) - Abs(lo))
  {
  }
}
