# Auto clicker: a Dafny model of the toggle / run state machine

The auto clicker clicks the left pointer button at a configured rate, in clicks per
second (cps). A configured key or pointer button toggles clicking on and off, and the
Escape key ends the session. This project models two variants of its core:

- **The package clicker** (`auto_clicker/clicker.py`, module `Clicker`). It holds two
  flags: a clicking flag and a stop flag. It also keeps one worker thread, started on
  the first turn-on and reused while it is alive. The worker runs a drift-corrected
  loop: it clicks when the clock reaches its next deadline, then moves the deadline
  one interval past the current time. Its sleeps never exceed a 10 ms poll quantum.
  `request_stop` sets the stop flag and clears the clicking flag. `cleanup` also joins
  a live worker with a one-second timeout.
- **The standalone script** (`auto_clicker.py`, module `Standalone`). Here the rate is
  validated through a float conversion. Every turn-on starts a fresh worker. That
  worker clicks and sleeps a fixed interval for as long as both `is_clicking` and
  `running` are set.

Module `Binding` holds what both variants share:
- the key and button events;
- ASCII case mapping;
- how the toggle key and toggle button names are resolved;
- how a key press is matched against the toggle key.

Module `Wrappers` holds `Option`.

Each variant has two layers:
- a state datatype with one transition function per handler (`Toggle`, `Press`,
  `Click`, `Release`, `StopRequested`, `CleanedUp`, `WorkerStep`);
- a class `AutoClicker` whose fields are the source's attributes.

Each class method updates the fields step by step. Its `ensures` ties the new state
to the transition function applied to the old state.

Threads are abstracted. Each handler is one atomic step. One iteration of a worker's
loop is one `WorkerStep`, and the caller interleaves steps and handlers freely. The
threads are a sequence holding the phase (or liveness) of every worker ever started,
so its length is the number of workers started. The handle `click_thread` is an index
into that sequence. A click increments a counter. The clock is a real-valued reading
passed in. In the package clicker, whether a join finishes within its timeout is a
parameter.

The main results:
- `Clicker.NeverTwoLiveWorkers`: at most one worker of the package clicker is ever
  alive.
- `Standalone.RapidToggleStartsTwoWorkers`: on, off, on leaves the script with two
  live workers that both click.
- `Standalone.WorkersStartedEqualsTurnOns`: the script starts exactly one worker per
  off-to-on transition.
- `Clicker.SimulateMouseClick`, `Clicker.ReplayWellSpaced` and `Clicker.LoopGuarantees`:
  the package loop's clicks are at least one interval apart. By `Clicker.WellSpacedSpan`, n clicks span
  at least n - 1 intervals. By `Clicker.WorkerRunsTheLoop`, the worker that interleaves with
  the handlers clicks exactly as this loop does.
- `Clicker.StopIsFinal` and `Standalone.StoppedStaysQuiet`: after a stop, no click is
  ever issued again.

Facts about the code that the model keeps:
- A toggle after `request_stop` sets the clicking flag again and may start a worker.
  That worker exits at its first loop check without clicking (`Clicker.StopIsFinal`).
- The loop never resynchronises its deadline. If the clock reading falls below the
  latest click time, the loop waits until the clock passes the old deadline.
- A toggle key string that names no special key is not an error. It is kept as a
  literal string, and only a key whose character is exactly that string matches it.
- Toggle key lookup is case-sensitive, while toggle button lookup is not. The key
  string is looked up as given, so "SPACE" stays a literal while "space" is the space
  key (`Binding.UpperCasedKeyIsLiteral`, `Binding.SpaceKeyCaseMatters`). The button
  name is lower-cased before lookup (`Binding.ResolveToggleButtonIgnoresCase`).
- An invalid rate falls back to 500 clicks per second, and the fallback is reported
  only by printing.

## Model

| member | source | states |
|---|---|---|
| `Clicker.DeriveRate` | auto_clicker/clicker.py:17-22 | a cps of 0 or less becomes 500; afterwards cps > 0, interval > 0 and cps * interval = 1; the fallback gives exactly (500, 0.002) |
| `Clicker.Configure` | auto_clicker/clicker.py:17-43 | the configuration the constructor derives from the rate, the toggle key string and the optional button name: the rate, the resolved key, its upper-cased name, and the resolved button with its name |
| `Clicker.DefaultConfiguration` | tests/test_clicker.py:18-28 | the defaults give cps 500, interval 0.002, the literal key "c" named "C", no button named "None"; a cps of -5 gives the same configuration |
| `Clicker.CustomConfiguration` | tests/test_clicker.py:30-39 | cps 100, key "x" and button "right" give interval 0.01, the literal "x" named "X", and the right button named "RIGHT" |
| `Clicker.SpecialKeyUnknownButtonConfiguration` | auto_clicker/clicker.py:24-43 | the key "space" resolves to the special key; the button "banana" leaves no button, named "None" |
| `Clicker.ConfiguredNames` | auto_clicker/clicker.py:24-40 | the key name is always the upper-cased key string; the button name is "None" exactly when no button is configured |
| `Clicker.AutoClicker.constructor` | auto_clicker/clicker.py:8-43 | the fields equal the derived configuration; both flags are clear; there is no worker, no click and no join |
| `Binding.ResolveToggleKey` | auto_clicker/clicker.py:24-30 | the key resolves to the special key of that name exactly when one exists, and otherwise to the literal string |
| `Binding.ToggleKeyName` | auto_clicker/clicker.py:27-30 | the toggle key's display name: the configured string upper-cased, whichever way the key resolved |
| `Binding.SingleCharacterIsLiteral` | auto_clicker/clicker.py:25-30 | a one-character toggle key is always kept as a literal |
| `Binding.SpecialKeyNamesAreLong` | auto_clicker/clicker.py:25 | every special-key name has at least two characters |
| `Binding.SpecialKeyNamesStartLowerCase` | auto_clicker/clicker.py:25 | every special-key name begins with a lower-case letter |
| `Binding.UpperCasedKeyIsLiteral` | auto_clicker/clicker.py:25-30 | key lookup is case-sensitive: any non-empty key string, once upper-cased, names no special key and resolves to a literal |
| `Binding.SpaceKeyCaseMatters` | auto_clicker/clicker.py:25-30 | "space" resolves to the space key, while "SPACE" resolves to the literal string "SPACE" |
| `Binding.Upper` | auto_clicker/clicker.py:27-30 | `str.upper()` on ASCII: every lower-case letter mapped to its upper-case letter, everything else kept |
| `Binding.Lower` | auto_clicker/clicker.py:37 | `str.lower()` on ASCII: every upper-case letter mapped to its lower-case letter, everything else kept |
| `Binding.UpperSpec` | auto_clicker/clicker.py:27-30 | upper-casing keeps the length, maps each character and leaves no lower-case letter |
| `Binding.UpperIdempotent` | auto_clicker/clicker.py:40 | upper-casing an upper-cased name changes nothing |
| `Binding.LowerSpec` | auto_clicker/clicker.py:37 | lower-casing keeps the length, maps each character and leaves no upper-case letter |
| `Binding.LowerIgnoresCase` | auto_clicker/clicker.py:36-38 | a string and its upper-cased form lower-case to the same string |
| `Binding.ButtonName` | auto_clicker/clicker.py:38-39 | every button's attribute name is one of left, right, middle |
| `Binding.ButtonNamed` | auto_clicker/clicker.py:38-39 | a name selects a button exactly when it is left, right or middle, and the selected button has that name |
| `Binding.ButtonNamedInvertsButtonName` | auto_clicker/clicker.py:38-39 | looking up a button's own name gives that button back |
| `Binding.ResolveToggleButton` | auto_clicker/clicker.py:32-43 | a button is configured exactly when the name, lower-cased, is left, right or middle; its name is then the upper-cased input; otherwise the button is None and its name is "None" |
| `Binding.ResolveToggleButtonIgnoresCase` | auto_clicker/clicker.py:36-39 | a name and its upper-cased form select the same button |
| `Binding.PressToggles` | auto_clicker/clicker.py:74-82 | the press handler's condition: a key with a character equal to a literal toggle string, or else a key equal to the special toggle key |
| `Binding.IsExitKey` | auto_clicker/clicker.py:113 | a released key ends the session exactly when it is the Escape key |
| `Binding.PressTogglesExactlyOnConfiguredKey` | auto_clicker/clicker.py:76-80 | a press matches exactly when it is the special key of the configured name (for a special-key name) or the character key typing the configured string (otherwise) |
| `Clicker.Iterate` | auto_clicker/clicker.py:58-68 | one loop iteration given the clicking flag and the clock: whether it clicks, the new deadline and the sleep, `max(0, min(deadline - now, 0.01))` while clicking and 0.01 otherwise |
| `Clicker.IterateSchedules` | auto_clicker/clicker.py:58-68 | an iteration clicks exactly when clicking is set and now >= the deadline; a click moves the deadline to now + interval; the sleep lies in [0, 0.01] and is 0.01 while clicking is clear |
| `Clicker.Replay` | auto_clicker/clicker.py:52-68 | the loop state after a run of iterations from the start reading: the deadline, the iterations that clicked and the sleeps, one iteration per observation |
| `Clicker.ReplaySleeps` | auto_clicker/clicker.py:63-68 | every sleep of a run of the loop lies in [0, 0.01], and is 0.01 in each iteration that saw clicking clear |
| `Clicker.ReplayWellSpaced` | auto_clicker/clicker.py:52-68 | a run of the loop clicks at most once per iteration, only in iterations that saw clicking set, the first no earlier than the start, each next click at least one interval after the previous; the deadline is one interval after the latest click |
| `Clicker.WellSpacedSpan` | auto_clicker/clicker.py:59-61 | n well-spaced clicks span at least (n - 1) intervals, so there is no burst |
| `Clicker.SimulateMouseClick` | auto_clicker/clicker.py:52-68 | the loop runs until it observes the stop flag and starts no iteration after it; the clicks and sleeps it produces are exactly those of the replayed schedule `Replay` over the iterations it ran |
| `Clicker.LoopGuarantees` | auto_clicker/clicker.py:52-68 | for the clicks and sleeps of the first n iterations: one sleep per iteration, each in [0, 0.01]; every click in an iteration already run; the clicks well spaced; n clicks spanning at least (n - 1) intervals |
| `Clicker.AtMostOneLiveWorker` | auto_clicker/clicker.py:99-104 | under the handle invariant at most one worker is alive, and one is alive exactly when the handle's worker is |
| `Clicker.Toggle` | auto_clicker/clicker.py:93-105 | turning off clears clicking; turning on sets it and starts a new worker, recorded as the handle, exactly when the handle holds no live worker |
| `Clicker.ToggleSpec` | auto_clicker/clicker.py:93-105 | toggling flips the clicking flag (two toggles restore it) and keeps stop and clicks; turning off keeps the handle; turning on starts a worker exactly when none is alive, reuses a live one, and leaves a live handle |
| `Clicker.ToggleKeepsInv` | auto_clicker/clicker.py:99-104 | toggling preserves the handle invariant (every worker but the handle's has finished) |
| `Clicker.AutoClicker.ToggleClicking` | auto_clicker/clicker.py:91-105 | the new state is the toggle of the old; the configuration is unchanged |
| `Clicker.Press` | auto_clicker/clicker.py:70-82 | a key press toggles when the press handler's condition holds for the configured key, and otherwise changes nothing |
| `Clicker.PressSpec` | auto_clicker/clicker.py:70-82 | a key press toggles exactly when it is the configured key; any other key leaves the whole state unchanged |
| `Clicker.AutoClicker.OnPress` | auto_clicker/clicker.py:70-82 | the new state is the press transition of the old |
| `Clicker.Click` | auto_clicker/clicker.py:84-89 | a button event toggles when a button is configured, the event is for it and it is a press, and otherwise changes nothing |
| `Clicker.ClickSpec` | auto_clicker/clicker.py:84-89 | a button event toggles exactly when a button is configured, the event is for it and it is a press; a release or another button changes nothing |
| `Clicker.UnknownButtonKeepsKeyboard` | auto_clicker/clicker.py:35-43 | with an unknown button name every button event is ignored, while the key still toggles |
| `Clicker.AutoClicker.OnClick` | auto_clicker/clicker.py:84-89 | the new state is the button transition of the old |
| `Clicker.Release` | auto_clicker/clicker.py:109-116 | releasing Escape requests a stop and returns False; any other key returns None and changes nothing |
| `Clicker.ReleaseSpec` | auto_clicker/clicker.py:109-116 | Escape sets stop, clears clicking, keeps the workers and returns False; other keys return None and change nothing |
| `Clicker.AutoClicker.OnRelease` | auto_clicker/clicker.py:109-116 | the new state and the result are those of the release transition |
| `Clicker.StopRequested` | auto_clicker/clicker.py:118-121 | a stop request sets the stop flag and clears the clicking flag |
| `Clicker.RequestStopSpec` | auto_clicker/clicker.py:118-121 | afterwards stop is set and clicking is clear; a second request changes nothing; workers and clicks are untouched |
| `Clicker.AutoClicker.RequestStop` | auto_clicker/clicker.py:118-121 | the new state is the stop request of the old |
| `Clicker.CleanedUp` | auto_clicker/clicker.py:123-131 | cleanup requests a stop; with a live worker it records one join with timeout 1.0, the worker finishing if it exits in time; it warns when the worker is still alive |
| `Clicker.CleanupSpec` | auto_clicker/clicker.py:123-131 | afterwards stop is set and clicking is clear; cleanup joins once, with timeout 1.0, exactly when the handle's worker is alive; it warns exactly when that worker outlives the join; a second cleanup changes no flag, and changes nothing at all if no warning was given |
| `Clicker.AutoClicker.Cleanup` | auto_clicker/clicker.py:123-131 | the new state and the warning are those of the cleanup transition |
| `Clicker.WorkerStep` | auto_clicker/clicker.py:52-68 | one step of the handle's live worker: a starting worker reads the clock as its first deadline; a looping worker finishes when stop is set, and otherwise runs one `Iterate`, counting its click |
| `Clicker.WorkerStepSpec` | auto_clicker/clicker.py:54-61 | a worker step issues at most one click, and none once stop is set or while clicking is clear; it changes neither flag |
| `Clicker.AutoClicker.WorkerIteration` | auto_clicker/clicker.py:52-68 | the new state is one step of the live worker: it reads the clock, leaves the loop on stop, or runs one iteration |
| `Clicker.TicksObserving` | auto_clicker/clicker.py:52-68 | the state after the live worker takes one step per observation, with the clicking flag as that observation saw it |
| `Clicker.WorkerRunsTheLoop` | auto_clicker/clicker.py:52-68 | from a worker looping with deadline `start` and stop clear, its interleaved steps keep it looping with the deadline `Replay` reaches and add exactly the clicks `Replay` makes, so the worker's clicks are spaced as `Clicker.ReplayWellSpaced` proves |
| `Clicker.InvInitial` | auto_clicker/clicker.py:12-15 | the freshly constructed state satisfies the handle invariant and has no live worker |
| `Clicker.RunKeepsInv` | auto_clicker/clicker.py:70-131 | every sequence of handler calls and worker steps preserves the handle invariant |
| `Clicker.NeverTwoLiveWorkers` | auto_clicker/clicker.py:99-104 | from construction, after any sequence of events at most one worker is alive |
| `Clicker.StopIsFinal` | auto_clicker/clicker.py:54 | once stop is set it stays set, and no event ever issues another click |
| `Clicker.RapidToggleReusesWorker` | auto_clicker/clicker.py:99-104 | on, off, on before the worker runs leaves one started worker, alive, with clicking set |
| `Standalone.DeriveRate` | auto_clicker.py:16-24 | a failed float conversion or a rate of 0 or less gives (500, 0.002); otherwise cps is the converted value; always cps > 0, interval > 0 and cps * interval = 1 |
| `Standalone.DeriveRateAgreesWithPackage` | auto_clicker.py:16-24 | for every number the script derives the same rate as the package clicker |
| `Standalone.Configure` | auto_clicker.py:16-32 | the configuration the script's constructor derives: the validated rate, the resolved toggle key and its upper-cased name |
| `Standalone.AutoClicker.constructor` | auto_clicker.py:9-32 | the fields equal the derived configuration; clicking is clear, running is set, there is no worker and no click |
| `Standalone.SimulateMouseClick` | auto_clicker.py:40-42 | the loop clicks once per iteration while both flags are set, stops at the first observation where either is clear, and sleeps one interval per click |
| `Standalone.Toggle` | auto_clicker.py:58-64 | toggling negates the clicking flag; turning on always starts a new worker and records it as the handle |
| `Standalone.ToggleSpec` | auto_clicker.py:58-64 | toggling negates the flag; turning on always appends a fresh live worker, whatever is alive; turning off keeps every worker and the handle |
| `Standalone.AutoClicker.ToggleClicking` | auto_clicker.py:58-65 | the new state is the toggle of the old |
| `Standalone.Press` | auto_clicker.py:44-56 | a key press toggles when the press handler's condition holds for the configured key, and otherwise changes nothing |
| `Standalone.PressSpec` | auto_clicker.py:44-56 | a key press toggles exactly when it is the configured key; any other key changes nothing |
| `Standalone.AutoClicker.OnPress` | auto_clicker.py:44-56 | the new state is the press transition of the old |
| `Standalone.Release` | auto_clicker.py:67-75 | releasing Escape clears both flags and returns False; any other key returns None and changes nothing |
| `Standalone.ReleaseSpec` | auto_clicker.py:67-75 | Escape clears both flags, keeps the workers and returns False; other keys return None and change nothing |
| `Standalone.AutoClicker.OnRelease` | auto_clicker.py:67-75 | the new state and the result are those of the release transition |
| `Standalone.WorkerStep` | auto_clicker.py:40-42 | one step of a live worker: it clicks while both flags are set, and otherwise leaves the loop and dies |
| `Standalone.WorkerStepSpec` | auto_clicker.py:40-42 | a live worker clicks exactly when both flags are set, and otherwise leaves its loop and dies |
| `Standalone.AutoClicker.WorkerIteration` | auto_clicker.py:40-42 | the new state is one step of the given worker |
| `Standalone.ApplyStartsOnTurnOn` | auto_clicker.py:58-64 | a single event starts a worker exactly when it turns clicking on, and keeps the handle invariant |
| `Standalone.WorkersStartedEqualsTurnOns` | auto_clicker.py:58-64 | over any sequence of events, the number of workers started equals the number of off-to-on transitions |
| `Standalone.StoppedStaysQuiet` | auto_clicker.py:67-75 | after Escape, running stays clear and no worker ever clicks again |
| `Standalone.RapidToggleStartsTwoWorkers` | auto_clicker.py:58-64 | on, off, on before the first worker runs leaves two live workers, and one step of each gives two clicks |

## Left out

- Keyboard and pointer listeners, the pointer controller and `start()`, at auto_clicker/clicker.py:133-171 and auto_clicker.py:77-83, are not modelled. They are foreign I/O and listener plumbing. A click is a counter increment. Key and button events are abstract values.
- Real threading is not modelled: thread objects, events, the lock, the daemon flag and the blocking inside `join`. Each handler is one atomic step, and each loop iteration is one atomic step of its worker. Interleavings inside an iteration, such as a click issued just after another thread cleared the clicking flag, are not represented.
- Wall-clock time and sleeping are not modelled. The clock is a real reading passed in, and a sleep is a returned value. Click-rate accuracy against real time is not claimed.
- Floating point is not modelled. Rates and intervals are Dafny `real`, so 1/500 is exactly 0.002. NaN and infinite rates are not represented.
- All console output is left out, including the fallback, invalid-button and timeout messages.
- `Standalone.DeriveRate`: the float conversion is an input (a value or a `ValueError`). Parsing text into a float, and the `TypeError` that `float(None)` would raise, are not modelled.
- `Binding.ResolveToggleButton`: the pointer library's enumeration also has an `unknown` member and platform-specific extras. Names such as "unknown" would resolve in the source, but here only left, right and middle resolve.
- `Binding.ResolveToggleKey`: the special-key names are the pointer library's cross-platform key names. Platform-only names, and other attributes that `hasattr` would find on the enumeration, are not included.
- `Binding.UpperSpec`, `Binding.LowerSpec`: case mapping covers ASCII letters only. Non-ASCII case mapping done by `str.upper` and `str.lower` is not modelled.
- The command-line parser in auto_clicker/cli.py and auto_clicker.py:85-97 is not part of this model. It is argument parsing only.
- main.py is not part of this model. It is logging setup plus a global F1 toggle that always spawns a thread, a degenerate case of `Standalone.Toggle`.
