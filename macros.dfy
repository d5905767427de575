/**
 * The macro registry and compiler of lib/macros.js.
 *
 * The module keeps four tables: the registered devices, the raw macro
 * configurations, the compiled macros and the names shown in the UI. A macro's
 * step list is compiled, at load time, into a chain of device calls; here a
 * compiled macro is the sequence of its links, each holding the driver found at
 * compile time and the arguments it will be called with.
 */
module Macros {
  import opened Wrappers

  /** Indexing an object with `undefined` looks up the key "undefined". */
  const UndefinedKey: string := "undefined"

  /** The `hidden` property of a macro configuration, as the JavaScript value it holds. */
  datatype HiddenFlag =
    | Absent          // the property is not given
    | Flag(b: bool)   // a boolean
    | NonBoolean      // any other value: a string, a number, ...

  /** A configured step: the device name, then the arguments for that device. */
  type Step = seq<string>

  datatype MacroConfig = MacroConfig(name: string, sequence: seq<Step>, hidden: HiddenFlag)

  /**
   * A device driver: an identity, and its `validateArguments` policy as a
   * predicate (false where `validateArguments` throws). Its `call` is modelled by
   * recording an Invocation and then running the continuation exactly once.
   */
  datatype Driver = Driver(id: string, accepts: seq<string> -> bool)

  /** One link of a compiled macro: the driver captured at compile time and its arguments. */
  datatype Link = Link(driver: Driver, args: seq<string>)

  /** A recorded `device.call(next, args)`. */
  datatype Invocation = Invocation(driver: string, args: seq<string>)

  datatype CompileError =
    | UnknownDevice(deviceName: string)
    | InvalidArguments(deviceName: string, args: seq<string>)

  /** Calling the undefined entry of an unknown macro name throws a TypeError. */
  datatype ExecError = NotAFunction(macroName: string)

  /** The four module-level tables, as one value. */
  datatype Tables = Tables(
    devices: map<string, Driver>,
    configurations: map<string, MacroConfig>,
    macros: map<string, seq<Link>>,
    visible: seq<string>)

  /** The tables after a load, and the error that stopped it, if any. */
  datatype LoadResult = LoadResult(tables: Tables, failure: Option<CompileError>)

  const Empty: Tables := Tables(map[], map[], map[], [])

  /** The first element of a step, as `shift` yields it. */
  function DeviceName(step: Step): string {
    if |step| == 0 then UndefinedKey else step[0]
  }

  /** What is left of a step after `shift`. */
  function StepArgs(step: Step): seq<string> {
    if |step| == 0 then [] else step[1..]
  }

  /** The link one step compiles to against the registered devices. */
  function StepLink(devices: map<string, Driver>, step: Step): Result<Link, CompileError> {
    var name := DeviceName(step);
    if name !in devices then Err(UnknownDevice(name))
    else if !devices[name].accepts(StepArgs(step)) then Err(InvalidArguments(name, StepArgs(step)))
    else Ok(Link(devices[name], StepArgs(step)))
  }

  /**
   * The compiled macro of a step sequence. The tail is compiled before the first
   * step, as the countdown loop of the source does, so of several bad steps the
   * last one is reported.
   */
  function Compile(devices: map<string, Driver>, sequence: seq<Step>): Result<seq<Link>, CompileError>
    decreases |sequence|
  {
    if sequence == [] then Ok([])
    else match Compile(devices, sequence[1..])
      case Err(e) => Err(e)
      case Ok(rest) =>
        match StepLink(devices, sequence[0])
        case Err(e) => Err(e)
        case Ok(link) => Ok([link] + rest)
  }

  /** The device calls a compiled macro makes when every driver runs its continuation once. */
  function Run(links: seq<Link>): seq<Invocation> {
    if links == [] then [] else [Invocation(links[0].driver.id, links[0].args)] + Run(links[1..])
  }

  /** isVisibleMacro: only a `hidden` that is the boolean true hides a macro. */
  predicate IsVisible(config: MacroConfig) {
    config.hidden != Flag(true)
  }

  /** The names of the visible configurations, in order, duplicates kept. */
  function VisibleNames(configs: seq<MacroConfig>): seq<string> {
    if configs == [] then []
    else (if IsVisible(configs[0]) then [configs[0].name] else []) + VisibleNames(configs[1..])
  }

  /** A name is listed exactly when some configuration of that name is not hidden. */
  lemma {:induction false} VisibleNamesMembers(configs: seq<MacroConfig>, x: string)
    ensures x in VisibleNames(configs) <==>
      exists k :: 0 <= k < |configs| && configs[k].name == x && configs[k].hidden != Flag(true)
    decreases |configs|
  {
    if configs != [] {
      VisibleNamesMembers(configs[1..], x);
      assert forall k :: 1 <= k < |configs| ==> configs[k] == configs[1..][k - 1];
      if x in VisibleNames(configs[1..]) {
        var k :| 0 <= k < |configs[1..]| && configs[1..][k].name == x && configs[1..][k].hidden != Flag(true);
        assert configs[k + 1] == configs[1..][k];
      }
    }
  }

  /** registerMacro: compile first; only then store the configuration, the macro and the visible name. */
  function Register(t: Tables, config: MacroConfig): Result<Tables, CompileError> {
    match Compile(t.devices, config.sequence)
    case Err(e) => Err(e)
    case Ok(links) =>
      Ok(t.(configurations := t.configurations[config.name := config],
            macros := t.macros[config.name := links],
            visible := if IsVisible(config) then t.visible + [config.name] else t.visible))
  }

  /** acceptConfiguration: register in array order; the first failure stops the load. */
  function Load(t: Tables, configs: seq<MacroConfig>): LoadResult
    decreases |configs|
  {
    if configs == [] then LoadResult(t, None)
    else match Register(t, configs[0])
      case Err(e) => LoadResult(t, Some(e))
      case Ok(t') => Load(t', configs[1..])
  }

  // ---------------------------------------------------------------------------
  // Compilation

  /** A sequence compiles exactly when each of its steps does. */
  lemma {:induction false} CompileSucceedsIff(devices: map<string, Driver>, sequence: seq<Step>)
    ensures Compile(devices, sequence).Ok? <==>
      forall j :: 0 <= j < |sequence| ==> StepLink(devices, sequence[j]).Ok?
    decreases |sequence|
  {
    if sequence != [] {
      var tail := sequence[1..];
      CompileSucceedsIff(devices, tail);
      assert forall j :: 1 <= j < |sequence| ==> sequence[j] == tail[j - 1];
    }
  }

  /** A compiled macro has one link per step, holding that step's driver and its arguments. */
  lemma {:induction false} CompileLinks(devices: map<string, Driver>, sequence: seq<Step>, j: nat)
    requires Compile(devices, sequence).Ok?
    requires j < |sequence|
    ensures |Compile(devices, sequence).value| == |sequence|
    ensures DeviceName(sequence[j]) in devices
    ensures Compile(devices, sequence).value[j] ==
      Link(devices[DeviceName(sequence[j])], StepArgs(sequence[j]))
    decreases |sequence|
  {
    var tail := sequence[1..];
    if j == 0 {
      if tail != [] {
        CompileLinks(devices, tail, 0);
      }
    } else {
      CompileLinks(devices, tail, j - 1);
    }
  }

  /** A failed compilation reports the error of the last step that fails. */
  lemma {:induction false} CompileReportsLastFailure(devices: map<string, Driver>, sequence: seq<Step>)
    requires Compile(devices, sequence).Err?
    ensures exists j :: (0 <= j < |sequence| &&
      StepLink(devices, sequence[j]) == Err(Compile(devices, sequence).error) &&
      forall k :: j < k < |sequence| ==> StepLink(devices, sequence[k]).Ok?)
    decreases |sequence|
  {
    var tail := sequence[1..];
    if Compile(devices, tail).Err? {
      CompileReportsLastFailure(devices, tail);
      var j :| 0 <= j < |tail| &&
        StepLink(devices, tail[j]) == Err(Compile(devices, tail).error) &&
        forall k :: j < k < |tail| ==> StepLink(devices, tail[k]).Ok?;
      assert sequence[j + 1] == tail[j];
      assert forall k :: j + 1 < k < |sequence| ==> sequence[k] == tail[k - 1];
    } else {
      CompileSucceedsIff(devices, tail);
      assert forall k :: 0 < k < |sequence| ==> sequence[k] == tail[k - 1];
      assert StepLink(devices, sequence[0]) == Err(Compile(devices, sequence).error);
    }
  }

  /** A failure compiling a tail of the sequence is the failure of the whole sequence. */
  lemma {:induction false} CompileTailFailure(devices: map<string, Driver>, sequence: seq<Step>, i: nat)
    requires i <= |sequence|
    requires Compile(devices, sequence[i..]).Err?
    ensures Compile(devices, sequence) == Compile(devices, sequence[i..])
    decreases i
  {
    if i > 0 {
      assert sequence[1..][i - 1..] == sequence[i..];
      CompileTailFailure(devices, sequence[1..], i - 1);
    }
  }

  /** A step naming an unknown device, or whose arguments its device rejects, makes the whole macro fail. */
  lemma {:induction false} BadStepFailsCompile(devices: map<string, Driver>, sequence: seq<Step>, j: nat)
    requires j < |sequence|
    requires DeviceName(sequence[j]) !in devices ||
             !devices[DeviceName(sequence[j])].accepts(StepArgs(sequence[j]))
    ensures Compile(devices, sequence).Err?
  {
    CompileSucceedsIff(devices, sequence);
    assert StepLink(devices, sequence[j]).Err?;
  }

  // ---------------------------------------------------------------------------
  // Execution

  /** Running a chain makes one call per link, in link order. */
  lemma {:induction false} RunAt(links: seq<Link>, k: nat)
    requires k < |links|
    ensures |Run(links)| == |links|
    ensures Run(links)[k] == Invocation(links[k].driver.id, links[k].args)
    decreases |links|
  {
    if k == 0 {
      if |links| > 1 {
        RunAt(links[1..], 0);
      }
    } else {
      RunAt(links[1..], k - 1);
    }
  }

  /**
   * Executing a compiled macro calls the devices in step order; the k-th call goes
   * to the driver of the k-th step's device, with the elements after the device name.
   */
  lemma ExecutionOrder(devices: map<string, Driver>, sequence: seq<Step>, k: nat)
    requires Compile(devices, sequence).Ok?
    requires k < |sequence|
    ensures DeviceName(sequence[k]) in devices
    ensures |Run(Compile(devices, sequence).value)| == |sequence|
    ensures Run(Compile(devices, sequence).value)[k] ==
      Invocation(devices[DeviceName(sequence[k])].id, StepArgs(sequence[k]))
  {
    CompileLinks(devices, sequence, k);
    RunAt(Compile(devices, sequence).value, k);
  }

  /** An empty sequence compiles to the no-op: executing it calls no device. */
  lemma EmptyMacroCallsNothing(devices: map<string, Driver>)
    ensures Compile(devices, []) == Ok([])
    ensures Run([]) == []
  {
  }

  // ---------------------------------------------------------------------------
  // Loading

  /** Loading never touches the device table. */
  lemma {:induction false} LoadKeepsDevices(t: Tables, configs: seq<MacroConfig>)
    ensures Load(t, configs).tables.devices == t.devices
    decreases |configs|
  {
    if configs != [] && Register(t, configs[0]).Ok? {
      LoadKeepsDevices(Register(t, configs[0]).value, configs[1..]);
    }
  }

  /** A load succeeds exactly when every configured macro compiles against the devices. */
  lemma {:induction false} LoadSucceedsIff(t: Tables, configs: seq<MacroConfig>)
    ensures Load(t, configs).failure.None? <==>
      forall k :: 0 <= k < |configs| ==> Compile(t.devices, configs[k].sequence).Ok?
    decreases |configs|
  {
    if configs != [] {
      var tail := configs[1..];
      assert forall k :: 1 <= k < |configs| ==> configs[k] == tail[k - 1];
      if Register(t, configs[0]).Ok? {
        LoadSucceedsIff(Register(t, configs[0]).value, tail);
      }
    }
  }

  /**
   * Fail-fast loading: when the k-th macro is the first that does not compile, the
   * macros before it are registered exactly as a load of them alone would leave
   * them, and nothing of the k-th or later macros is stored.
   */
  lemma {:induction false} LoadFailFast(t: Tables, configs: seq<MacroConfig>, k: nat)
    requires k < |configs|
    requires forall j :: 0 <= j < k ==> Compile(t.devices, configs[j].sequence).Ok?
    requires Compile(t.devices, configs[k].sequence).Err?
    ensures Load(t, configs[..k]).failure == None
    ensures Load(t, configs) ==
      LoadResult(Load(t, configs[..k]).tables, Some(Compile(t.devices, configs[k].sequence).error))
    decreases k
  {
    if k == 0 {
      assert configs[..0] == [];
    } else {
      var t' := Register(t, configs[0]).value;
      var tail := configs[1..];
      assert forall j :: 0 <= j < k - 1 ==> tail[j] == configs[j + 1];
      LoadFailFast(t', tail, k - 1);
      assert configs[..k][0] == configs[0];
      assert configs[..k][1..] == tail[..k - 1];
    }
  }

  /** After a successful load the visible names are those of the non-hidden macros, in load order. */
  lemma {:induction false} LoadVisible(t: Tables, configs: seq<MacroConfig>)
    requires Load(t, configs).failure.None?
    ensures Load(t, configs).tables.visible == t.visible + VisibleNames(configs)
    decreases |configs|
  {
    if configs != [] {
      var t' := Register(t, configs[0]).value;
      LoadVisible(t', configs[1..]);
    }
  }

  /** Loading macros with other names leaves a name's configuration and compiled macro as they were. */
  lemma {:induction false} LoadKeepsOtherNames(t: Tables, configs: seq<MacroConfig>, name: string)
    requires forall j :: 0 <= j < |configs| ==> configs[j].name != name
    ensures var r := Load(t, configs).tables;
      (name in r.macros <==> name in t.macros) &&
      (name in t.macros ==> r.macros[name] == t.macros[name]) &&
      (name in r.configurations <==> name in t.configurations) &&
      (name in t.configurations ==> r.configurations[name] == t.configurations[name])
    decreases |configs|
  {
    if configs != [] && Register(t, configs[0]).Ok? {
      var tail := configs[1..];
      assert forall j :: 0 <= j < |tail| ==> tail[j] == configs[j + 1];
      LoadKeepsOtherNames(Register(t, configs[0]).value, tail, name);
    }
  }

  /** Last write wins: after a successful load a name maps to the last macro configured under it. */
  lemma {:induction false} LoadLastWriteWins(t: Tables, configs: seq<MacroConfig>, k: nat)
    requires Load(t, configs).failure.None?
    requires k < |configs|
    requires forall j :: k < j < |configs| ==> configs[j].name != configs[k].name
    ensures Compile(t.devices, configs[k].sequence).Ok?
    ensures var r := Load(t, configs).tables;
      configs[k].name in r.macros && configs[k].name in r.configurations &&
      r.macros[configs[k].name] == Compile(t.devices, configs[k].sequence).value &&
      r.configurations[configs[k].name] == configs[k]
    decreases |configs|
  {
    LoadSucceedsIff(t, configs);
    var t' := Register(t, configs[0]).value;
    var tail := configs[1..];
    if k == 0 {
      assert forall j :: 0 <= j < |tail| ==> tail[j] == configs[j + 1];
      LoadKeepsOtherNames(t', tail, configs[0].name);
    } else {
      assert forall j :: k - 1 < j < |tail| ==> tail[j] == configs[j + 1];
      LoadLastWriteWins(t', tail, k - 1);
    }
  }

  /**
   * End to end: after a successful load, executing the last macro configured under a
   * name calls, in step order, each step's device with the elements after its name.
   */
  lemma ExecuteAfterLoad(t: Tables, configs: seq<MacroConfig>, k: nat, j: nat)
    requires Load(t, configs).failure.None?
    requires k < |configs|
    requires forall i :: k < i < |configs| ==> configs[i].name != configs[k].name
    requires j < |configs[k].sequence|
    ensures var r := Load(t, configs).tables;
      var step := configs[k].sequence[j];
      configs[k].name in r.macros &&
      |Run(r.macros[configs[k].name])| == |configs[k].sequence| &&
      DeviceName(step) in t.devices &&
      Run(r.macros[configs[k].name])[j] == Invocation(t.devices[DeviceName(step)].id, StepArgs(step))
  {
    LoadLastWriteWins(t, configs, k);
    ExecutionOrder(t.devices, configs[k].sequence, j);
  }

  // ---------------------------------------------------------------------------
  // The scenarios of the module's own tests

  /** A driver that accepts any arguments, like the test double registered as "say". */
  function AcceptAll(id: string): Driver {
    Driver(id, (args: seq<string>) => true)
  }

  const SayOnly: Tables := Empty.(devices := map["say" := AcceptAll("say")])

  /** Loading `hello world` and executing it calls "say" with ["hello"], then with ["world"]. */
  lemma HelloWorldScenario()
    ensures var r := Load(SayOnly, [MacroConfig("hello world", [["say", "hello"], ["say", "world"]], Absent)]);
      r.failure == None && "hello world" in r.tables.macros &&
      Run(r.tables.macros["hello world"]) == [Invocation("say", ["hello"]), Invocation("say", ["world"])]
  {
  }

  /** Of `hello`, `world` (hidden: false) and `!` (hidden: true), the UI lists "hello" and "world". */
  lemma VisibleNamesScenario()
    ensures var configs := [
        MacroConfig("hello", [["say", "hello"]], Absent),
        MacroConfig("world", [["say", "world"]], Flag(false)),
        MacroConfig("!", [["say", "!"]], Flag(true))];
      var r := Load(SayOnly, configs);
      r.failure == None && r.tables.visible == ["hello", "world"]
  {
  }

  /** A step for the unregistered device "reject" makes the load fail. */
  lemma UnknownDeviceScenario()
    ensures Load(SayOnly, [MacroConfig("dont care", [["reject", "a"]], Absent)]).failure ==
      Some(UnknownDevice("reject"))
  {
  }

  // ---------------------------------------------------------------------------
  // The module state

  /** The module-level tables of lib/macros.js and the operations on them. */
  class MacroRegistry {
    var devices: map<string, Driver>
    var macroConfigurations: map<string, MacroConfig>
    var macros: map<string, seq<Link>>
    var visibleMacroNames: seq<string>

    ghost function State(): Tables
      reads this
    {
      Tables(devices, macroConfigurations, macros, visibleMacroNames)
    }

    /** The tables as the module initialises them. */
    constructor ()
      ensures State() == Empty
    {
      devices := map[];
      macroConfigurations := map[];
      macros := map[];
      visibleMacroNames := [];
    }

    /** Empties all four tables, the devices included. */
    method ResetConfiguration()
      modifies this
      ensures State() == Empty
    {
      devices := map[];
      macroConfigurations := map[];
      macros := map[];
      visibleMacroNames := [];
    }

    /** Stores a driver under a name, replacing any driver registered under it. */
    method RegisterDevice(deviceName: string, driver: Driver)
      modifies this
      ensures devices == old(devices)[deviceName := driver]
      ensures macroConfigurations == old(macroConfigurations) && macros == old(macros)
      ensures visibleMacroNames == old(visibleMacroNames)
    {
      devices := devices[deviceName := driver];
    }

    /** Compiles one step: fails on an unknown device or rejected arguments, else links the driver. */
    method CreateMacroStep(step: Step) returns (r: Result<Link, CompileError>)
      ensures DeviceName(step) !in devices ==> r == Err(UnknownDevice(DeviceName(step)))
      ensures DeviceName(step) in devices && !devices[DeviceName(step)].accepts(StepArgs(step)) ==>
        r == Err(InvalidArguments(DeviceName(step), StepArgs(step)))
      ensures r.Ok? <==> DeviceName(step) in devices && devices[DeviceName(step)].accepts(StepArgs(step))
      ensures r.Ok? ==> r.value == Link(devices[DeviceName(step)], StepArgs(step))
    {
      // `shift` on the copy the caller made
      var deviceName := if |step| == 0 then UndefinedKey else step[0];
      var args := if |step| == 0 then [] else step[1..];
      if deviceName !in devices {
        return Err(UnknownDevice(deviceName));
      }
      var device := devices[deviceName];
      if !device.accepts(args) {
        return Err(InvalidArguments(deviceName, args));
      }
      return Ok(Link(device, args));
    }

    /** Compiles a whole sequence, from its last step to its first. */
    method CreateMacroFromSequence(sequence: seq<Step>) returns (r: Result<seq<Link>, CompileError>)
      ensures r == Compile(devices, sequence)
    {
      var done: seq<Link> := [];
      var i := |sequence|;
      while i > 0
        invariant 0 <= i <= |sequence|
        invariant Compile(devices, sequence[i..]) == Ok(done)
      {
        i := i - 1;
        assert sequence[i..][1..] == sequence[i + 1..];
        var link := CreateMacroStep(sequence[i]);
        if link.Err? {
          CompileTailFailure(devices, sequence, i);
          return Err(link.error);
        }
        done := [link.value] + done;
      }
      assert sequence[0..] == sequence;
      return Ok(done);
    }

    /** Compiles a macro, then stores it; a compilation failure stores nothing. */
    method RegisterMacro(config: MacroConfig) returns (failure: Option<CompileError>)
      modifies this
      ensures Register(old(State()), config).Ok? ==>
        failure == None && State() == Register(old(State()), config).value
      ensures Register(old(State()), config).Err? ==>
        failure == Some(Register(old(State()), config).error) && State() == old(State())
    {
      var macro := CreateMacroFromSequence(config.sequence);
      if macro.Err? {
        return Some(macro.error);
      }
      macroConfigurations := macroConfigurations[config.name := config];
      macros := macros[config.name := macro.value];
      if IsVisible(config) {
        visibleMacroNames := visibleMacroNames + [config.name];
      }
      return None;
    }

    /** Registers the configured macros in order, stopping at the first that fails. */
    method AcceptConfiguration(newConfiguration: seq<MacroConfig>) returns (failure: Option<CompileError>)
      modifies this
      ensures Load(old(State()), newConfiguration) == LoadResult(State(), failure)
    {
      var i := 0;
      while i < |newConfiguration|
        invariant 0 <= i <= |newConfiguration|
        invariant Load(old(State()), newConfiguration) == Load(State(), newConfiguration[i..])
      {
        assert newConfiguration[i..][1..] == newConfiguration[i + 1..];
        failure := RegisterMacro(newConfiguration[i]);
        if failure.Some? {
          return;
        }
        i := i + 1;
      }
      return None;
    }

    /** Runs the compiled macro of a name; an unknown name throws. */
    method ExecuteMacroByName(macroName: string) returns (r: Result<seq<Invocation>, ExecError>)
      ensures macroName !in macros ==> r == Err(NotAFunction(macroName))
      ensures macroName in macros ==> r == Ok(Run(macros[macroName]))
    {
      if macroName !in macros {
        return Err(NotAFunction(macroName));
      }
      var links := macros[macroName];
      var calls: seq<Invocation> := [];
      var i := 0;
      while i < |links|
        invariant 0 <= i <= |links|
        invariant Run(links) == calls + Run(links[i..])
      {
        assert links[i..][1..] == links[i + 1..];
        calls := calls + [Invocation(links[i].driver.id, links[i].args)];
        i := i + 1;
      }
      assert links[i..] == [];
      assert Run(links[i..]) == [];
      assert calls + [] == calls;
      return Ok(calls);
    }

    /** The names to show in the UI. */
    method GetMacroLabelsForDisplay() returns (names: seq<string>)
      ensures names == visibleMacroNames
    {
      return visibleMacroNames;
    }
  }
}
