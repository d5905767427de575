/**
 * The helpers of app.js: the blacklist filter applied to the remotes, the
 * interpreter behind the macro route, and the GPIO helpers over `config.gpios`.
 * The module-level `config` and the wiring-pi binding are passed explicitly.
 */
module App {
  import opened Wrappers
  import opened Pins

  // ---------------------------------------------------------------------------
  // refineRemotes

  /** `commands.filter(c => blacklist.indexOf(c) < 0)`. */
  function Filter(commands: seq<string>, blacklist: seq<string>): seq<string> {
    if commands == [] then []
    else (if commands[0] in blacklist then [] else [commands[0]]) + Filter(commands[1..], blacklist)
  }

  /** `config.blacklists && config.blacklists[remote]`: a list is configured for the remote. */
  predicate HasBlacklist(blacklists: Option<map<string, seq<string>>>, remote: string) {
    blacklists.Some? && remote in blacklists.value
  }

  /** Filtering keeps a command exactly when it is not blacklisted. */
  lemma {:induction false} FilterMembers(commands: seq<string>, blacklist: seq<string>, x: string)
    ensures x in Filter(commands, blacklist) <==> x in commands && x !in blacklist
    decreases |commands|
  {
    if commands != [] {
      FilterMembers(commands[1..], blacklist, x);
      assert commands == [commands[0]] + commands[1..];
    }
  }

  /** Filtering keeps every occurrence of a command that is not blacklisted, and none of one that is. */
  lemma {:induction false} FilterCounts(commands: seq<string>, blacklist: seq<string>, x: string)
    ensures multiset(Filter(commands, blacklist))[x] == if x in blacklist then 0 else multiset(commands)[x]
    decreases |commands|
  {
    if commands != [] {
      FilterCounts(commands[1..], blacklist, x);
      assert commands == [commands[0]] + commands[1..];
    }
  }

  /** Filtering a concatenation filters each part: the kept commands stay in their original order. */
  lemma {:induction false} FilterAppend(a: seq<string>, b: seq<string>, blacklist: seq<string>)
    ensures Filter(a + b, blacklist) == Filter(a, blacklist) + Filter(b, blacklist)
    decreases |a|
  {
    if a != [] {
      FilterAppend(a[1..], b, blacklist);
      assert (a + b)[0] == a[0];
      assert (a + b)[1..] == a[1..] + b;
    } else {
      assert a + b == b;
    }
  }

  /** A blacklist that names none of the commands leaves the list as it is. */
  lemma {:induction false} FilterNothingBlacklisted(commands: seq<string>, blacklist: seq<string>)
    requires forall k :: 0 <= k < |commands| ==> commands[k] !in blacklist
    ensures Filter(commands, blacklist) == commands
    decreases |commands|
  {
    if commands != [] {
      FilterNothingBlacklisted(commands[1..], blacklist);
    }
  }

  /**
   * A fresh map with the same remotes; a remote with a blacklist keeps the
   * commands not on it, any other remote keeps its command list as it is.
   */
  method RefineRemotes(myRemotes: map<string, seq<string>>, blacklists: Option<map<string, seq<string>>>)
    returns (newRemotes: map<string, seq<string>>)
    ensures newRemotes.Keys == myRemotes.Keys
    ensures forall remote | remote in myRemotes && HasBlacklist(blacklists, remote) ::
      newRemotes[remote] == Filter(myRemotes[remote], blacklists.value[remote])
    ensures forall remote | remote in myRemotes && !HasBlacklist(blacklists, remote) ::
      newRemotes[remote] == myRemotes[remote]
  {
    newRemotes := map[];
    var remaining := myRemotes.Keys;
    while remaining != {}
      invariant remaining <= myRemotes.Keys
      invariant newRemotes.Keys == myRemotes.Keys - remaining
      invariant forall remote | remote in newRemotes && HasBlacklist(blacklists, remote) ::
        newRemotes[remote] == Filter(myRemotes[remote], blacklists.value[remote])
      invariant forall remote | remote in newRemotes && !HasBlacklist(blacklists, remote) ::
        newRemotes[remote] == myRemotes[remote]
      decreases remaining
    {
      var remote :| remote in remaining;
      var remoteCommands := myRemotes[remote];
      if blacklists.Some? && remote in blacklists.value {
        remoteCommands := Filter(remoteCommands, blacklists.value[remote]);
      }
      newRemotes := newRemotes[remote := remoteCommands];
      remaining := remaining - {remote};
    }
  }

  // ---------------------------------------------------------------------------
  // The macro interpreter of the `/macros/:macro` route

  /** A JSON value in a configured macro command. */
  datatype Value = Str(s: string) | Num(n: int)

  /** A configured command: `["delay", ms]`, `["gpio", name, value]` or `[remote, command]`. */
  type Command = seq<Value>

  /** The effects a macro run has, in order. */
  datatype Event =
    | Send(remote: Option<Value>, command: Option<Value>)  // irsend.send_once
    | Wait(ms: Option<Value>)                               // setTimeout before the next command
    | GpioSet(name: string, state: Option<Value>)           // setGpio

  /** How a run ends: after the last command, or by a GPIO lookup that throws. */
  datatype Outcome = Completed | Aborted(error: LookupError)

  datatype Trace = Trace(events: seq<Event>, outcome: Outcome)

  /** The pause after each infrared send, in milliseconds. */
  const IrGap: int := 100

  /** `command[k]`, undefined past the end. */
  function Arg(command: Command, k: nat): Option<Value> {
    if k < |command| then Some(command[k]) else None
  }

  /** Whether a GPIO step's name argument names a configured entry. */
  predicate KnownGpio(gpioNames: seq<string>, name: Option<Value>) {
    name.Some? && name.value.Str? && name.value.s in gpioNames
  }

  /** The effects of one command, or the error it throws. */
  function StepEffect(command: Command, gpioNames: Option<seq<string>>): Result<seq<Event>, LookupError> {
    if Arg(command, 0) == Some(Str("delay")) then Ok([Wait(Arg(command, 1))])
    else if Arg(command, 0) == Some(Str("gpio")) then
      if gpioNames.None? then Err(NotConfigured)
      else if KnownGpio(gpioNames.value, Arg(command, 1)) then Ok([GpioSet(Arg(command, 1).value.s, Arg(command, 2))])
      else Err(NoSuchName)
    else Ok([Send(Arg(command, 0), Arg(command, 1)), Wait(Some(Num(IrGap)))])
  }

  /** The trace of a run of the commands, from the first, each once, until one throws. */
  function Interpret(commands: seq<Command>, gpioNames: Option<seq<string>>): Trace
    decreases |commands|
  {
    if commands == [] then Trace([], Completed)
    else match StepEffect(commands[0], gpioNames)
      case Err(e) => Trace([], Aborted(e))
      case Ok(effects) =>
        var rest := Interpret(commands[1..], gpioNames);
        Trace(effects + rest.events, rest.outcome)
  }

  /**
   * Commands run in order: running `a + b` runs `a`, and, unless a command of `a`
   * threw, then runs `b`.
   */
  lemma {:induction false} InterpretAppend(a: seq<Command>, b: seq<Command>, gpioNames: Option<seq<string>>)
    ensures var ta := Interpret(a, gpioNames);
      var tb := Interpret(b, gpioNames);
      Interpret(a + b, gpioNames) ==
        if ta.outcome.Aborted? then ta else Trace(ta.events + tb.events, tb.outcome)
    decreases |a|
  {
    if a == [] {
      assert a + b == b;
    } else {
      assert (a + b)[0] == a[0];
      assert (a + b)[1..] == a[1..] + b;
      InterpretAppend(a[1..], b, gpioNames);
      if StepEffect(a[0], gpioNames).Ok? {
        var effects := StepEffect(a[0], gpioNames).value;
        var ta' := Interpret(a[1..], gpioNames);
        var tb := Interpret(b, gpioNames);
        assert effects + (ta'.events + tb.events) == (effects + ta'.events) + tb.events;
      }
    }
  }

  /** The effects of commands none of which throws, joined end to end in order. */
  function Effects(commands: seq<Command>, gpioNames: Option<seq<string>>): seq<Event>
    requires forall j :: 0 <= j < |commands| ==> StepEffect(commands[j], gpioNames).Ok?
    decreases |commands|
  {
    if commands == [] then []
    else StepEffect(commands[0], gpioNames).value + Effects(commands[1..], gpioNames)
  }

  /** Commands none of which throws all run, each once, in order, and the run completes. */
  lemma {:induction false} InterpretEffects(commands: seq<Command>, gpioNames: Option<seq<string>>)
    requires forall j :: 0 <= j < |commands| ==> StepEffect(commands[j], gpioNames).Ok?
    ensures Interpret(commands, gpioNames) == Trace(Effects(commands, gpioNames), Completed)
    decreases |commands|
  {
    if commands != [] {
      InterpretEffects(commands[1..], gpioNames);
    }
  }

  /**
   * Each command runs once, in order: when commands 0..k-1 do not throw, the
   * trace starts with their effects, one command after another.
   */
  lemma InterpretPrefix(commands: seq<Command>, gpioNames: Option<seq<string>>, k: nat)
    requires k <= |commands|
    requires forall j :: 0 <= j < k ==> StepEffect(commands[j], gpioNames).Ok?
    ensures |Effects(commands[..k], gpioNames)| <= |Interpret(commands, gpioNames).events|
    ensures Interpret(commands, gpioNames).events[..|Effects(commands[..k], gpioNames)|] ==
      Effects(commands[..k], gpioNames)
  {
    var prefix := commands[..k];
    InterpretEffects(prefix, gpioNames);
    assert commands == prefix + commands[k..];
    InterpretAppend(prefix, commands[k..], gpioNames);
  }

  /** A run completes exactly when no command throws. */
  lemma {:induction false} InterpretCompletesIff(commands: seq<Command>, gpioNames: Option<seq<string>>)
    ensures Interpret(commands, gpioNames).outcome == Completed <==>
      forall k :: 0 <= k < |commands| ==> StepEffect(commands[k], gpioNames).Ok?
    decreases |commands|
  {
    if commands != [] {
      var tail := commands[1..];
      InterpretCompletesIff(tail, gpioNames);
      assert forall k :: 1 <= k < |commands| ==> commands[k] == tail[k - 1];
    }
  }

  /** A command that throws ends the run: the commands after it have no effect. */
  lemma InterpretAbortsAt(commands: seq<Command>, gpioNames: Option<seq<string>>, k: nat)
    requires k < |commands|
    requires forall j :: 0 <= j < k ==> StepEffect(commands[j], gpioNames).Ok?
    requires StepEffect(commands[k], gpioNames).Err?
    ensures Interpret(commands[..k], gpioNames).outcome == Completed
    ensures Interpret(commands, gpioNames) ==
      Trace(Interpret(commands[..k], gpioNames).events, Aborted(StepEffect(commands[k], gpioNames).error))
  {
    InterpretCompletesIff(commands[..k], gpioNames);
    assert commands == commands[..k] + commands[k..];
    InterpretAppend(commands[..k], commands[k..], gpioNames);
    assert commands[k..][0] == commands[k];
  }

  /** In every trace each infrared send is directly followed by the 100 ms wait. */
  predicate GapAfterSends(events: seq<Event>) {
    forall k :: 0 <= k < |events| && events[k].Send? ==>
      k + 1 < |events| && events[k + 1] == Wait(Some(Num(IrGap)))
  }

  lemma {:induction false} InterpretGapAfterSends(commands: seq<Command>, gpioNames: Option<seq<string>>)
    ensures GapAfterSends(Interpret(commands, gpioNames).events)
    decreases |commands|
  {
    if commands != [] && StepEffect(commands[0], gpioNames).Ok? {
      var effects := StepEffect(commands[0], gpioNames).value;
      var rest := Interpret(commands[1..], gpioNames).events;
      InterpretGapAfterSends(commands[1..], gpioNames);
      var all := effects + rest;
      forall k | 0 <= k < |all| && all[k].Send?
        ensures k + 1 < |all| && all[k + 1] == Wait(Some(Num(IrGap)))
      {
        if k >= |effects| {
          assert all[k] == rest[k - |effects|];
          assert all[k + 1] == rest[k + 1 - |effects|];
        }
      }
    }
  }

  /** The names of `config.gpios`, in order, which setGpio's lookup searches; none without a list. */
  function ConfiguredNames(gpios: Option<seq<PinEntry>>): Option<seq<string>>
    reads EntrySet(gpios)
  {
    if gpios.Some? then Some(Names(gpios.value)) else None
  }

  /**
   * The chain of `nextCommand` callbacks: the commands run from the first, each
   * once, in order, until the list ends or a GPIO lookup throws.
   */
  method RunCommands(commands: seq<Command>, gpioNames: Option<seq<string>>)
    returns (events: seq<Event>, outcome: Outcome)
    ensures Trace(events, outcome) == Interpret(commands, gpioNames)
  {
    events, outcome := [], Completed;
    var i := 0;
    // the closure `nextCommand` stops at the first missing command
    while i < |commands|
      invariant 0 <= i <= |commands|
      invariant outcome == Completed
      invariant Interpret(commands, gpioNames) ==
        var rest := Interpret(commands[i..], gpioNames);
        Trace(events + rest.events, rest.outcome)
    {
      var command := commands[i];
      assert commands[i..][0] == command && commands[i..][1..] == commands[i + 1..];
      i := i + 1;
      if Arg(command, 0) == Some(Str("delay")) {
        events := events + [Wait(Arg(command, 1))];
      } else if Arg(command, 0) == Some(Str("gpio")) {
        // setGpio(command[1], command[2]); an unknown name throws
        if gpioNames.None? {
          outcome := Aborted(NotConfigured);
          return;
        }
        if !KnownGpio(gpioNames.value, Arg(command, 1)) {
          outcome := Aborted(NoSuchName);
          return;
        }
        events := events + [GpioSet(Arg(command, 1).value.s, Arg(command, 2))];
      } else {
        // send_once, then 100 ms before the next command
        events := events + [Send(Arg(command, 0), Arg(command, 1)), Wait(Some(Num(IrGap)))];
      }
    }
    assert commands[i..] == [];
    assert events + [] == events;
  }

  /**
   * The route's handler: with a macro of that name, its commands run against the
   * names of `config.gpios`, the list setGpio searches; without one, nothing runs.
   */
  method RunMacro(macros: Option<map<string, seq<Command>>>, gpios: Option<seq<PinEntry>>, macroName: string)
    returns (events: seq<Event>, outcome: Outcome)
    ensures !(macros.Some? && macroName in macros.value) ==> events == [] && outcome == Completed
    ensures macros.Some? && macroName in macros.value ==>
      Trace(events, outcome) == Interpret(macros.value[macroName], ConfiguredNames(gpios))
  {
    events, outcome := [], Completed;
    if macros.Some? && macroName in macros.value {
      events, outcome := RunCommands(macros.value[macroName], ConfiguredNames(gpios));
    }
  }

  // ---------------------------------------------------------------------------
  // GPIO helpers over config.gpios

  /** Sets each configured entry's state to the value of its pin; without a list nothing changes. */
  method UpdateGpioPinStates(gpios: Option<seq<PinEntry>>, wpi: WiringPi)
    modifies EntrySet(gpios)`state
    ensures forall e | e in EntrySet(gpios) :: e.state == wpi.DigitalRead(e.pin)
  {
    if gpios.Some? {
      RefreshStates(gpios.value, wpi);
    }
  }

  /** Writes 0 to an active pin and 1 to any other, and returns the pin with its new value. */
  method ToggleGpioPin(wpi: WiringPi, pinId: int) returns (r: PinState)
    modifies wpi`pins
    ensures r.pin == pinId
    ensures r.state == if IsActive(old(wpi.DigitalRead(pinId))) then 0 else 1
    ensures wpi.DigitalRead(pinId) == Some(r.state)
    ensures forall p :: p != pinId ==> wpi.DigitalRead(p) == old(wpi.DigitalRead(p))
  {
    r := Toggle(wpi, pinId);
  }

  /** The pin of the first entry whose name equals `pinName`; throws without a list or a match. */
  method GetGpioPinIdByName(gpios: Option<seq<PinEntry>>, pinName: string) returns (r: Result<int, LookupError>)
    ensures gpios.None? ==> r == Err(NotConfigured)
    ensures gpios.Some? && pinName !in Names(gpios.value) ==> r == Err(NoSuchName)
    ensures gpios.Some? && pinName in Names(gpios.value) ==>
      r == Ok(gpios.value[FirstIndex(Names(gpios.value), pinName).value].pin)
  {
    if gpios.None? {
      return Err(NotConfigured);
    }
    var gpioPin := FindElement(gpios.value, pinName);
    if gpioPin.None? {
      return Err(NoSuchName);
    }
    return Ok(gpioPin.value.pin);
  }

  /** Writes a value to the pin of the named entry; a failed lookup writes nothing. */
  method SetGpio(gpios: Option<seq<PinEntry>>, wpi: WiringPi, pinName: string, newState: int)
    returns (failure: Option<LookupError>)
    modifies wpi`pins
    ensures gpios.None? ==> failure == Some(NotConfigured)
    ensures gpios.Some? && pinName !in Names(gpios.value) ==> failure == Some(NoSuchName)
    ensures failure.None? <==> gpios.Some? && pinName in Names(gpios.value)
    ensures failure.Some? ==> wpi.pins == old(wpi.pins)
    ensures failure.None? ==>
      wpi.pins == old(wpi.pins)[gpios.value[FirstIndex(Names(gpios.value), pinName).value].pin := newState]
  {
    var numericPinId := GetGpioPinIdByName(gpios, pinName);
    if numericPinId.Err? {
      return Some(numericPinId.error);
    }
    wpi.DigitalWrite(numericPinId.value, newState);
    return None;
  }
}
