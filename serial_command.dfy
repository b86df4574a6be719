/**
 * The SerialCommand library of the second firmware generation
 * (controlino2/Libraries/SerialCommand/SerialCommand.cpp): a line buffer
 * filled from a serial stream, a bounded list of named commands, and a
 * dispatcher that runs the first command whose name is the line's first
 * token. Handlers are foreign code; a dispatch is recorded instead, with
 * the text `next()` would go on to tokenize.
 */
module SerialCommand {
  import opened Wrappers
  import Text
  import C = CStrings

  /** SERIALCOMMAND_BUFFER: the longest line kept, one more cell holds the NUL. */
  const BUFFER: nat := 64
  /** SERIALCOMMAND_MAXCOMMANDS_DEFAULT. */
  const MAX_COMMANDS_DEFAULT: int := 10
  /** `_term`, set by the constructor and never changed. */
  const TERM: char := '\r'

  /** A handler call: a registered command by its index, or the default handler with the unknown name. */
  datatype Dispatch = Handler(index: nat, rest: string) | Default(command: string, rest: string)

  /** The part of the object that input changes: the buffered line, `_last` and the handler calls so far. */
  datatype Reader = Reader(line: string, last: string, log: seq<Dispatch>)

  /** The index of the first registered command named `command`. */
  function FirstMatch(names: seq<string>, command: string): (r: Option<nat>)
    ensures r.Some? ==> r.value < |names| && names[r.value] == command
    ensures r.Some? ==> forall j :: 0 <= j < r.value ==> names[j] != command
    ensures r.None? <==> command !in names
  {
    if |names| == 0 then None
    else if names[0] == command then Some(0)
    else
      match FirstMatch(names[1..], command)
      case None => None
      case Some(k) => Some(k + 1)
  }

  /** The handler run for a token: the first match, else the default one if it is set; none for NULL. */
  function DispatchOf(names: seq<string>, hasDefault: bool, t: C.Token, rest: string): (r: seq<Dispatch>)
    ensures |r| <= 1
    ensures t.Null? ==> r == []
    ensures t.Str? && t.text in names ==> r == [Handler(FirstMatch(names, t.text).value, rest)]
    ensures t.Str? && t.text !in names ==> r == (if hasDefault then [Default(t.text, rest)] else [])
  {
    if t.Null? then []
    else
      match FirstMatch(names, t.text)
      case Some(i) => [Handler(i, rest)]
      case None => if hasDefault then [Default(t.text, rest)] else []
  }

  /** One character of `readSerial`. */
  function Step(names: seq<string>, hasDefault: bool, r: Reader, c: char): Reader
  {
    if c == TERM then
      var st := C.Strtok(r.line);
      Reader("", st.1, r.log + DispatchOf(names, hasDefault, st.0, st.1))
    else if Text.IsPrint(c) then
      if |r.line| < BUFFER then r.(line := r.line + [c]) else r
    else r
  }

  /** `readSerial` over everything the stream has available. */
  function Feed(names: seq<string>, hasDefault: bool, r: Reader, cs: seq<char>): Reader
    decreases |cs|
  {
    if |cs| == 0 then r else Feed(names, hasDefault, Step(names, hasDefault, r, cs[0]), cs[1..])
  }

  function Min(a: int, b: int): int { if a <= b then a else b }

  predicate AllPrintable(cs: seq<char>)
  {
    forall i :: 0 <= i < |cs| ==> Text.IsPrint(cs[i])
  }

  /** Feeding two pieces is feeding their concatenation. */
  lemma {:induction false} FeedAppend(names: seq<string>, hasDefault: bool, r: Reader, a: seq<char>, b: seq<char>)
    ensures Feed(names, hasDefault, r, a + b) == Feed(names, hasDefault, Feed(names, hasDefault, r, a), b)
    decreases |a|
  {
    if |a| > 0 {
      assert (a + b)[0] == a[0] && (a + b)[1..] == a[1..] + b;
      FeedAppend(names, hasDefault, Step(names, hasDefault, r, a[0]), a[1..], b);
    } else {
      assert a + b == b;
    }
  }

  /**
   * Printable characters are appended while fewer than BUFFER are held and
   * then dropped: the line is the first BUFFER characters, nothing else changes.
   */
  lemma {:induction false} FeedPrintable(names: seq<string>, hasDefault: bool, r: Reader, cs: seq<char>)
    requires |r.line| <= BUFFER && AllPrintable(cs)
    ensures Feed(names, hasDefault, r, cs) == r.(line := (r.line + cs)[..Min(|r.line| + |cs|, BUFFER)])
    decreases |cs|
  {
    if |cs| == 0 {
      assert (r.line + cs)[..|r.line|] == r.line;
    } else {
      var next := Step(names, hasDefault, r, cs[0]);
      assert cs[0] != TERM && Text.IsPrint(cs[0]);
      assert AllPrintable(cs[1..]) by {
        forall i | 0 <= i < |cs| - 1 ensures Text.IsPrint(cs[1..][i]) {
          assert cs[1..][i] == cs[i + 1];
        }
      }
      FeedPrintable(names, hasDefault, next, cs[1..]);
      if |r.line| < BUFFER {
        assert next.line == r.line + [cs[0]];
        assert next.line + cs[1..] == r.line + cs;
      } else {
        assert next == r;
        assert (r.line + cs)[..BUFFER] == r.line;
        assert (r.line + cs[1..])[..BUFFER] == r.line;
      }
    }
  }

  /** Characters that are neither printable nor the terminator change nothing. */
  lemma {:induction false} FeedDiscards(names: seq<string>, hasDefault: bool, r: Reader, cs: seq<char>)
    requires forall i :: 0 <= i < |cs| ==> cs[i] != TERM && !Text.IsPrint(cs[i])
    ensures Feed(names, hasDefault, r, cs) == r
    decreases |cs|
  {
    if |cs| > 0 {
      assert Step(names, hasDefault, r, cs[0]) == r;
      FeedDiscards(names, hasDefault, r, cs[1..]);
    }
  }

  /**
   * A line of at most BUFFER printable characters followed by the
   * terminator, into an empty buffer: exactly the handler for its first
   * token runs, the buffer is cleared, and `next()` goes on with the
   * line's remaining tokens.
   */
  lemma LineDispatched(names: seq<string>, hasDefault: bool, r: Reader, cs: seq<char>)
    requires r.line == "" && |cs| <= BUFFER && AllPrintable(cs)
    ensures var st := C.Strtok(cs);
      Feed(names, hasDefault, r, cs + [TERM])
      == Reader("", st.1, r.log + DispatchOf(names, hasDefault, st.0, st.1))
    ensures C.Strtok(cs).0.Str? ==>
      C.Strtok(cs).0.text == C.TokensOf(cs)[0] && C.TokensOf(C.Strtok(cs).1) == C.TokensOf(cs)[1..]
  {
    FeedAppend(names, hasDefault, r, cs, [TERM]);
    FeedPrintable(names, hasDefault, r, cs);
    assert ("" + cs)[..Min(|cs|, BUFFER)] == cs;
    var after := Feed(names, hasDefault, r, cs);
    assert Feed(names, hasDefault, after, [TERM]) == Step(names, hasDefault, after, TERM);
  }

  /** The object: the character buffer, the command list and `_last`. */
  class SerialCommand {
    const buffer: array<char>
    var bufPos: nat
    /** The registered command names, in registration order. */
    var commands: seq<string>
    const maxCommands: int
    var hasDefault: bool
    var last: string
    /** Handler calls so far, oldest first. */
    var dispatched: seq<Dispatch>

    ghost predicate Valid()
      reads this, buffer
    {
      buffer.Length == BUFFER + 1 && bufPos <= BUFFER && buffer[bufPos] == '\0'
      && AllPrintable(buffer[..bufPos])
      && |commands| <= (if maxCommands < 0 then 0 else maxCommands)
    }

    ghost function State(): Reader
      reads this, buffer
      requires Valid()
    {
      Reader(buffer[..bufPos], last, dispatched)
    }

    constructor (maxCommands: int)
      ensures Valid() && State() == Reader("", "", [])
      ensures this.maxCommands == maxCommands && commands == [] && !hasDefault
    {
      buffer := new char[BUFFER + 1](_ => '\0');
      bufPos := 0;
      commands := [];
      this.maxCommands := maxCommands;
      hasDefault := false;
      last := "";
      dispatched := [];
    }

    /** `addCommand`: ignored once `maxCommands` are registered. */
    method AddCommand(command: string)
      requires Valid()
      modifies this`commands
      ensures Valid()
      ensures commands == if |old(commands)| < maxCommands then old(commands) + [command] else old(commands)
    {
      if |commands| >= maxCommands {
        return;
      }
      commands := commands + [command];
    }

    /** `setDefaultHandler`, with `present` false for NULL. */
    method SetDefaultHandler(present: bool)
      modifies this`hasDefault
      ensures hasDefault == present
    {
      hasDefault := present;
    }

    /** `clearBuffer`. */
    method ClearBuffer()
      requires Valid()
      modifies this`bufPos, buffer
      ensures Valid() && bufPos == 0
    {
      buffer[0] := '\0';
      bufPos := 0;
    }

    /** `next()`: the following token of the line being handled, then NULL. */
    method Next() returns (t: C.Token)
      modifies this`last
      ensures var tokens := C.TokensOf(old(last));
        (tokens == [] ==> t.Null? && last == "")
        && (tokens != [] ==> t == C.Str(tokens[0]) && C.TokensOf(last) == tokens[1..])
    {
      var st := C.Strtok(last);
      t, last := st.0, st.1;
    }

    /** The search loop of `readSerial`: the first registered name equal to `command`. */
    method FindCommand(command: string) returns (index: Option<nat>)
      ensures index == FirstMatch(commands, command)
    {
      index := None;
      var i := 0;
      while i < |commands|
        invariant 0 <= i <= |commands|
        invariant forall j :: 0 <= j < i ==> commands[j] != command
      {
        if commands[i] == command {
          index := Some(i);
          break;
        }
        i := i + 1;
      }
    }

    /** The body of `readSerial`'s loop, for one character. */
    method Consume(c: char)
      requires Valid()
      modifies this`bufPos, buffer, this`last, this`dispatched
      ensures Valid()
      ensures State() == Step(commands, hasDefault, old(State()), c)
    {
      if c == TERM {
        var st := C.Strtok(buffer[..bufPos]);
        last := st.1;
        if st.0.Str? {
          var index := FindCommand(st.0.text);
          if index.Some? {
            dispatched := dispatched + [Handler(index.value, last)];
          } else if hasDefault {
            dispatched := dispatched + [Default(st.0.text, last)];
          }
        }
        ClearBuffer();
      } else if Text.IsPrint(c) {
        if bufPos < BUFFER {
          buffer[bufPos] := c;
          bufPos := bufPos + 1;
          buffer[bufPos] := '\0';
          assert buffer[..bufPos] == old(buffer[..bufPos]) + [c];
        }
      }
    }

    /** `readSerial`: every available character, in order. */
    method ReadSerial(input: seq<char>)
      requires Valid()
      modifies this`bufPos, buffer, this`last, this`dispatched
      ensures Valid()
      ensures State() == Feed(commands, hasDefault, old(State()), input)
    {
      ghost var start := State();
      var i := 0;
      while i < |input|
        invariant 0 <= i <= |input| && Valid()
        invariant State() == Feed(commands, hasDefault, start, input[..i])
      {
        FeedAppend(commands, hasDefault, start, input[..i], [input[i]]);
        assert input[..i + 1] == input[..i] + [input[i]];
        Consume(input[i]);
        i := i + 1;
      }
      assert input[..i] == input;
    }
  }
}
