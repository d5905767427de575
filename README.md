# lirc_web macros and GPIO, modelled in Dafny

lirc_web is a small web front end that sends infrared remote commands through
LIRC and switches GPIO pins on a single-board computer. This project models the
parts of it that carry logic:

- `macros.dfy` (module `Macros`) — the macro registry and compiler of
  `lib/macros.js`. The four module-level tables are the fields of the class
  `MacroRegistry`. A macro's step list is compiled at load time into a chain
  of device calls. Here a compiled macro is the sequence of its links. Each
  link holds the driver looked up at compile time and the arguments after the
  device name. A driver is an identity plus its `validateArguments` policy as a
  predicate. Its `call` is modelled as a recorded `Invocation` followed by
  exactly one run of the continuation. The value-level functions `Compile`,
  `Register`, `Load` and `Run` specify the class's methods. The lemmas state
  what loading and executing promise.
- `pins.dfy` (module `Pins`) — the wiring-pi binding reduced to a pin store,
  as the project's own tests mock it. It also holds the configured GPIO entries
  `{name, pin, state}` as objects updated in place. The refresh loop, the toggle
  and the `findElement` search are shared by `lib/gpio.js` and `app.js`.
- `gpio.dfy` (module `Gpio`) — `lib/gpio.js`. The module variable `gpios` is
  a field, and `init`, `updatePinStates`, `togglePin`, `getPinIdByName` and
  `setPin` are methods over it.
- `app.js` helpers (module `App`, `app.dfy`):
  - `refineRemotes` drops the blacklisted commands of each remote.
  - The interpreter of the `/macros/:macro` route turns a configured command
    list into an ordered trace of effects: `Send(remote, command)`, `Wait(ms)`
    and `GpioSet(name, value)`.
  - The GPIO helpers work over `config.gpios`.
  - The module-level `config` and the binding are passed as parameters.
- `wrappers.dfy` — `Option` (a value that may be `undefined`) and `Result` (an
  operation that may throw).

Behaviour as the code has it, where a reader might expect otherwise:

- `lib/macros.js` has no `delay` or `call` step kind. The head of every step must be a registered device name.
- Compilation walks the steps from the last to the first. When several steps are bad, the error names the last one.
- `resetConfiguration` also empties the device table.
- Executing a name with no compiled macro calls `undefined` and throws. It is not a no-op.
- An empty step yields `undefined` from `shift`, so the device looked up is the one registered under the key `"undefined"`.
- Only a `hidden` that is the boolean `true` hides a macro. A string `"true"` does not.

## Model

| member | source | states |
|---|---|---|
| `Macros.CompileSucceedsIff` | lib/macros.js:29-38 | a step sequence compiles exactly when every one of its steps compiles |
| `Macros.CompileLinks` | lib/macros.js:29-38 | a compiled macro has one link per step, and link j holds the driver of step j's device and step j's remaining elements |
| `Macros.CompileReportsLastFailure` | lib/macros.js:33-35 | a failed compilation reports the error of a failing step after which every step compiles, that is the last failing step |
| `Macros.CompileTailFailure` | lib/macros.js:33-35 | once a tail of the sequence fails to compile, the whole sequence fails with that same error |
| `Macros.BadStepFailsCompile` | lib/macros.js:18-22 | a step naming an unregistered device, or whose arguments the device rejects, makes the whole macro fail to compile |
| `Macros.RunAt` | lib/macros.js:24-26 | running a chain makes one device call per link, the k-th with the k-th link's driver and arguments |
| `Macros.ExecutionOrder` | lib/macros.js:24-38 | executing a compiled macro calls the devices in step order, each with that step's elements after the device name |
| `Macros.EmptyMacroCallsNothing` | lib/macros.js:31-37 | an empty sequence compiles to the no-op, whose execution calls no device |
| `Macros.LoadKeepsDevices` | lib/macros.js:59-63 | loading a configuration never changes the device table |
| `Macros.LoadSucceedsIff` | lib/macros.js:59-63 | a load succeeds exactly when every configured macro compiles against the registered devices |
| `Macros.LoadFailFast` | lib/macros.js:59-63 | when macro k is the first that fails, the tables end as a load of macros 0..k-1 alone leaves them, and nothing of macro k or later is stored |
| `Macros.VisibleNamesMembers` | lib/macros.js:40-46 | a name is listed exactly when some configuration carries it and its `hidden` is not `true` (`isVisibleMacro`) |
| `Macros.LoadVisible` | lib/macros.js:40-56 | after a successful load the visible names are the old ones followed by the names of the configured macros whose `hidden` is not `true`, in load order |
| `Macros.LoadKeepsOtherNames` | lib/macros.js:52-53 | loading macros under other names leaves a name's stored configuration and compiled macro as they were |
| `Macros.LoadLastWriteWins` | lib/macros.js:52-53 | after a successful load each name maps to the compiled form and the configuration of the last macro configured under it |
| `Macros.ExecuteAfterLoad` | lib/macros.js:48-72 | after a successful load, executing a macro calls, in step order, each step's registered device with the step's elements after the device name |
| `Macros.HelloWorldScenario` | test/lib/macros.js:94-105 | with a "say" device accepting anything, loading `hello world` and executing it calls say with ["hello"] then ["world"] |
| `Macros.VisibleNamesScenario` | test/lib/macros.js:108-119 | of `hello`, `world` (hidden false) and `!` (hidden true) the UI lists "hello" and "world" |
| `Macros.UnknownDeviceScenario` | test/lib/macros.js:69-71 | a step for the unregistered device "reject" makes the load fail with an unknown-device error |
| `Macros.MacroRegistry.constructor` | lib/macros.js:1-4 | the module starts with four empty tables |
| `Macros.MacroRegistry.ResetConfiguration` | lib/macros.js:6-11 | all four tables, the devices included, are empty afterwards, whatever they held before |
| `Macros.MacroRegistry.RegisterDevice` | lib/macros.js:65-67 | the driver is stored under the name, replacing any earlier one; the other tables are unchanged |
| `Macros.MacroRegistry.CreateMacroStep` | lib/macros.js:13-27 | an unknown device gives an unknown-device error, rejected arguments an invalid-arguments error, and otherwise a link to the driver with the step minus its device name |
| `Macros.MacroRegistry.CreateMacroFromSequence` | lib/macros.js:29-38 | the countdown loop yields exactly the compiled macro, or the error, of the sequence against the current devices |
| `Macros.MacroRegistry.RegisterMacro` | lib/macros.js:48-57 | on success the configuration, the compiled macro and, when visible, the name are stored; on a compilation error nothing changes |
| `Macros.MacroRegistry.AcceptConfiguration` | lib/macros.js:59-63 | the tables and the reported error are those of registering the configured macros in order up to the first failure |
| `Macros.MacroRegistry.ExecuteMacroByName` | lib/macros.js:69-72 | an unknown name throws; a known one makes the device calls of its compiled chain, in order |
| `Macros.MacroRegistry.GetMacroLabelsForDisplay` | lib/macros.js:74-76 | returns the visible-name list as it stands |
| `Pins.WiringPi.constructor` | test/lib/gpio.js:5-7 | the pin store starts with no pin written and no schema chosen |
| `Pins.WiringPi.DigitalWrite` | test/lib/gpio.js:11-14 | the written pin takes the value and every other pin keeps its own |
| `Pins.WiringPi.Setup` | test/lib/gpio.js:15-17 | the schema passed is recorded |
| `Pins.PinEntry.constructor` | test/lib/gpio.js:25-27 | a configured entry holds the given name, pin and state |
| `Pins.FirstIndex` | lib/gpio.js:26-33 | no index when the name is absent; otherwise an index holding the name before which no entry has it |
| `Pins.RefreshStates` | lib/gpio.js:8-11 | every entry's state equals the value read from its pin; only `state` fields change |
| `Pins.Toggle` | lib/gpio.js:15-24 | writes 0 when the pin's value is above 0 and 1 otherwise, changes only that pin, and returns the pin as given with the new value |
| `Pins.FindElement` | lib/gpio.js:26-33 | returns the first entry with that name, or nothing when no entry has it |
| `Gpio.Gpio.constructor` | lib/gpio.js:1-2 | the module starts with no configuration |
| `Gpio.Gpio.UpdatePinStates` | lib/gpio.js:4-13 | every configured entry's state becomes its pin's value; names, pin numbers and pins are untouched, and before `init` nothing changes |
| `Gpio.Gpio.TogglePin` | lib/gpio.js:15-24 | writes 0 to a pin above 0 and 1 otherwise, leaves every other pin as it was, and returns `{pin, state}` with the pin as given |
| `Gpio.Gpio.GetPinIdByName` | lib/gpio.js:35-38 | the pin of the first entry with exactly that name; throws when there is no configuration or no such entry |
| `Gpio.Gpio.SetPin` | lib/gpio.js:40-43 | writes the value to the first matching entry's pin and nothing else; a missing configuration or an unknown name fails with its own error and writes nothing |
| `Gpio.Gpio.SetPinTwice` | test/lib/gpio.js:76-81 | two calls with the same name and value fail or succeed alike, and after them the pin holds the value; a failed lookup writes nothing |
| `Gpio.Gpio.Init` | lib/gpio.js:45-51 | a missing configuration changes nothing; otherwise it is stored, the 'gpio' schema is set up and every entry's state is refreshed; no pin is written |
| `App.FilterMembers` | app.js:116-118 | a command is kept exactly when it is in the remote's list and not on its blacklist |
| `App.FilterCounts` | app.js:116-118 | every occurrence of a command not blacklisted is kept and none of a blacklisted one |
| `App.FilterAppend` | app.js:116-118 | filtering distributes over concatenation, so kept commands stay in their original order |
| `App.FilterNothingBlacklisted` | app.js:116-118 | a blacklist naming none of the commands leaves the list unchanged |
| `App.RefineRemotes` | app.js:100-130 | the result has exactly the input's remotes; a remote with a blacklist gets its filtered list, any other its list unchanged |
| `App.InterpretEffects` | app.js:240-256 | when no command throws, the run completes and its trace is the effects of the commands, each once, in list order |
| `App.InterpretPrefix` | app.js:240-247 | when commands 0..k-1 do not throw, the trace starts with their effects joined in order, whatever the later commands do |
| `App.InterpretAppend` | app.js:240-247 | running `a + b` runs `a` and, unless it threw, then `b`: commands run in order, each once |
| `App.InterpretCompletesIff` | app.js:240-256 | a run completes exactly when no command's GPIO lookup throws |
| `App.InterpretAbortsAt` | app.js:250-252 | a command that throws ends the run with the effects of the commands before it only |
| `App.InterpretGapAfterSends` | app.js:253-256 | in every trace each infrared send is directly followed by the 100 ms wait |
| `App.RunCommands` | app.js:240-258 | the `nextCommand` chain yields exactly the trace and outcome of running the commands from the first until the list ends or a GPIO lookup throws |
| `App.RunMacro` | app.js:233-261 | with no macro of that name nothing runs; otherwise the trace and outcome are those of its commands, with GPIO steps looked up among the names of `config.gpios`, the list `setGpio` searches |
| `App.UpdateGpioPinStates` | app.js:47-55 | every configured entry's state becomes its pin's value; without a configuration nothing changes |
| `App.ToggleGpioPin` | app.js:57-63 | writes 0 to a pin above 0 and 1 otherwise, leaves every other pin, and returns `{pin, state}` |
| `App.GetGpioPinIdByName` | app.js:65-75 | the pin of the first entry with that name; throws when there is no configuration or no such entry |
| `App.SetGpio` | app.js:77-80 | writes the value to the first matching entry's pin and nothing else; a missing configuration or an unknown name fails with its own error and writes nothing |

## Left out

- Express setup, the HTTP routes and responses, templates, SSL and `listen` (app.js:35-42, 144-229, 263-288) are web I/O. The macro route's response, which refreshes and returns the GPIO states, is left out too.
- Loading the configuration from disk and switching on `NODE_ENV` (app.js:82-98, 132-138) are file I/O.
- The `lirc_node` transport is an external library. A send is a `Send` event. `send_start` and `send_stop` belong to routes only.
- wiring-pi is an external library. It is a map from pin number to value, as the tests mock it.
- `setTimeout` is not modelled as elapsed time. A delay is a `Wait` event in the trace.
- Asynchronous completion of `device.call` is not modelled. Each driver is assumed to run its continuation exactly once. Drivers that never call back, or call back twice, are concurrency concerns. So are overlapping executions of several macros.
- Step arrays are values here, so the copy `slice` makes before `shift` cannot be observed. The stored configuration is the one passed in by construction, and aliasing between step arrays is not modelled.
- `validateArguments` is a pure predicate. A driver that mutates the argument array, or throws something other than a rejection, is not modelled.
- Table keys that JavaScript objects inherit from their prototype, such as `toString`, are not modelled.
- `parseInt` string handling is not modelled. Pin ids are integers.
- App.GetGpioPinIdByName: names are compared as strings. The coercions of `==` between a number and a numeric string are not modelled.
- App.RunMacro: the interpreter records a `GpioSet(name, value)` event instead of writing the pin store. The write itself is what `App.SetGpio` does. A gpio step whose name argument is not a string never matches a configured name, which ignores `==` coercion.
- App.RunMacro: a macro's commands are arrays. A `null` entry inside the list would also stop the run, and that is not modelled.
- A device registered with a falsy value (`null`, `0`, `''`) compiles as unknown because of `if (! device)` (lib/macros.js:18). Devices are always drivers here, so that case cannot arise.
- Macros.MacroRegistry.GetMacroLabelsForDisplay returns the list as a value. The code returns the internal `visibleMacroNames` array itself (lib/macros.js:75), so a caller that mutates it changes the registry. That aliasing is not modelled.
- App.RunMacro: an unknown gpio name throws from `getGpioPinIdByName` (app.js:73-74, reached from 251). After a delay or an infrared step the chain runs inside a timer callback, so the exception is uncaught and stops the Node process. Before any such step it reaches the route handler. `Aborted` stands for both.
- The stray `lirc_node` reference at app.js:145 is a ReferenceError in route glue.
- `lib/labels` is not part of this model.
