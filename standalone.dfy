/**
 * The older standalone auto clicker script: rate validation through a float
 * conversion, a fixed-sleep click loop, and a toggle that starts a fresh
 * worker on every turn-on without looking at the previous one.
 *
 * Workers are modelled as the sequence of the liveness of every worker ever
 * started; a worker's loop iteration is a separate step interleaved with the
 * handlers.
 */
module Standalone {
  import opened Wrappers
  import opened Binding
  import Clicker

  // ===== Rate =====

  /** The outcome of converting the requested rate to a float. */
  datatype FloatConversion = Converted(value: real) | ValueError

  /**
   * A failed conversion or a non-positive rate falls back to 500 clicks per
   * second with an interval of 0.002 seconds; otherwise the interval is the
   * reciprocal of the rate.
   */
  function DeriveRate(cps: FloatConversion): (r: Clicker.Rate)
    ensures r.cps > 0.0 && r.clickInterval > 0.0
    ensures r.cps * r.clickInterval == 1.0
    ensures cps.Converted? && cps.value > 0.0 ==> r.cps == cps.value
    ensures cps.ValueError? || cps.value <= 0.0 ==> r == Clicker.Rate(500.0, 0.002)
  {
    match cps
    case ValueError => Clicker.Rate(500.0, 0.002)
    case Converted(v) =>
      if v <= 0.0 then Clicker.Rate(500.0, 0.002) else Clicker.Rate(v, 1.0 / v)
  }

  /** On every number the script derives the same rate as the package's clicker. */
  lemma DeriveRateAgreesWithPackage(v: real)
    ensures DeriveRate(Converted(v)) == Clicker.DeriveRate(v)
  {
  }

  // ===== Configuration =====

  datatype Config = Config(rate: Clicker.Rate, toggleKey: ToggleKey, toggleKeyName: string)

  function Configure(cps: FloatConversion, toggleKey: string): Config {
    Config(DeriveRate(cps), ResolveToggleKey(toggleKey), ToggleKeyName(toggleKey))
  }

  // ===== The click loop run by a worker =====

  /** What one evaluation of the loop condition observes. */
  datatype LoopFlags = LoopFlags(isClicking: bool, running: bool)

  /**
   * The worker's loop: while both flags are set, click once and sleep one
   * interval. It returns the number of clicks and the total time slept.
   */
  method SimulateMouseClick(interval: real, obs: seq<LoopFlags>) returns (clicks: nat, slept: real)
    ensures clicks <= |obs|
    ensures forall i :: 0 <= i < clicks ==> obs[i].isClicking && obs[i].running
    ensures clicks < |obs| ==> !obs[clicks].isClicking || !obs[clicks].running
    ensures slept == clicks as real * interval
  {
    clicks, slept := 0, 0.0;
    while clicks < |obs| && obs[clicks].isClicking && obs[clicks].running
      invariant clicks <= |obs|
      invariant forall i :: 0 <= i < clicks ==> obs[i].isClicking && obs[i].running
      invariant slept == clicks as real * interval
    {
      slept := slept + interval;
      clicks := clicks + 1;
    }
  }

  // ===== The toggle state machine =====

  /**
   * The mutable state of the script's clicker: its two flags, the liveness of
   * every worker started so far, the worker handle and the clicks issued.
   */
  datatype State = State(
    isClicking: bool,
    running: bool,
    threads: seq<bool>,
    clickThread: Option<nat>,
    clicks: nat)

  const INITIAL: State := State(false, true, [], None, 0)

  /** The handle is the most recently started worker, and empty before any has started. */
  ghost predicate Inv(s: State) {
    && (s.clickThread.None? <==> s.threads == [])
    && (s.clickThread.Some? ==> s.clickThread.value == |s.threads| - 1)
  }

  function LiveCount(threads: seq<bool>): nat {
    if threads == [] then 0
    else LiveCount(threads[..|threads| - 1]) + (if threads[|threads| - 1] then 1 else 0)
  }

  /** `toggle_clicking`: negate the clicking flag; turning on always starts a fresh worker. */
  function Toggle(s: State): State {
    if !s.isClicking then
      s.(isClicking := true, threads := s.threads + [true], clickThread := Some(|s.threads|))
    else s.(isClicking := false)
  }

  /** `on_press`: toggle when the key is the configured toggle key. */
  function Press(c: Config, s: State, key: KeyEvent): State {
    if PressToggles(key, c.toggleKey) then Toggle(s) else s
  }

  /** `on_release`: the exit key clears both flags and returns False; other keys return None. */
  function Release(s: State, key: KeyEvent): (State, Option<bool>) {
    if IsExitKey(key) then (s.(isClicking := false, running := false), Some(false)) else (s, None)
  }

  /** One step of live worker `t`: click while both flags are set, otherwise leave the loop and die. */
  function WorkerStep(s: State, t: nat): State {
    if t < |s.threads| && s.threads[t] then
      if s.isClicking && s.running then s.(clicks := s.clicks + 1)
      else s.(threads := s.threads[t := false])
    else s
  }

  /**
   * Toggling negates the clicking flag; turning on starts a fresh worker
   * whether or not earlier workers are still alive, and turning off keeps every
   * worker and the handle.
   */
  lemma ToggleSpec(s: State)
    ensures Toggle(s).isClicking == !s.isClicking
    ensures Toggle(Toggle(s)).isClicking == s.isClicking
    ensures Toggle(s).running == s.running && Toggle(s).clicks == s.clicks
    ensures !s.isClicking ==> Toggle(s).threads == s.threads + [true]
    ensures !s.isClicking ==> LiveCount(Toggle(s).threads) == LiveCount(s.threads) + 1
    ensures s.isClicking ==> Toggle(s).threads == s.threads && Toggle(s).clickThread == s.clickThread
  {
    if !s.isClicking {
      assert Toggle(s).threads[..|Toggle(s).threads| - 1] == s.threads;
    }
  }

  /** The exit key clears both flags and returns False; any other key changes nothing and returns None. */
  lemma ReleaseSpec(s: State, key: KeyEvent)
    ensures IsExitKey(key) ==>
      var (s1, result) := Release(s, key);
      !s1.isClicking && !s1.running && result == Some(false) && s1.threads == s.threads
    ensures !IsExitKey(key) ==> Release(s, key) == (s, None)
  {
  }

  /** A key press toggles exactly when it is the configured key; any other key changes nothing. */
  lemma PressSpec(cps: FloatConversion, name: string, s: State, key: KeyEvent)
    ensures var isToggleKey := if name in SPECIAL_KEY_NAMES then key == SpecialKey(name) else key == CharKey(Some(name));
      && (isToggleKey ==> Press(Configure(cps, name), s, key) == Toggle(s))
      && (!isToggleKey ==> Press(Configure(cps, name), s, key) == s)
      && (Press(Configure(cps, name), s, key).isClicking != s.isClicking <==> isToggleKey)
  {
    PressTogglesExactlyOnConfiguredKey(name, key);
  }

  /** A worker step clicks only while both flags are set; otherwise that worker dies. */
  lemma WorkerStepSpec(s: State, t: nat)
    requires t < |s.threads| && s.threads[t]
    ensures WorkerStep(s, t).clicks == s.clicks + (if s.isClicking && s.running then 1 else 0)
    ensures !(s.isClicking && s.running) ==> !WorkerStep(s, t).threads[t]
  {
  }

  // ----- Runs of events -----

  datatype Event = KeyPress(key: KeyEvent) | KeyRelease(key: KeyEvent) | WorkerTick(thread: nat)

  function Apply(c: Config, s: State, e: Event): State {
    match e
    case KeyPress(key) => Press(c, s, key)
    case KeyRelease(key) => Release(s, key).0
    case WorkerTick(t) => WorkerStep(s, t)
  }

  function Run(c: Config, s: State, events: seq<Event>): State
    decreases |events|
  {
    if events == [] then s else Run(c, Apply(c, s, events[0]), events[1..])
  }

  /** The number of events in a run that turn clicking from off to on. */
  function TurnOns(c: Config, s: State, events: seq<Event>): nat
    decreases |events|
  {
    if events == [] then 0
    else
      var s1 := Apply(c, s, events[0]);
      (if !s.isClicking && s1.isClicking then 1 else 0) + TurnOns(c, s1, events[1..])
  }

  /** A single event starts a worker exactly when it turns clicking on. */
  lemma ApplyStartsOnTurnOn(c: Config, s: State, e: Event)
    ensures |Apply(c, s, e).threads| == |s.threads| + (if !s.isClicking && Apply(c, s, e).isClicking then 1 else 0)
    ensures Inv(s) ==> Inv(Apply(c, s, e))
  {
  }

  /** The number of workers started equals the number of off-to-on transitions. */
  lemma {:induction false} WorkersStartedEqualsTurnOns(c: Config, s: State, events: seq<Event>)
    ensures |Run(c, s, events).threads| == |s.threads| + TurnOns(c, s, events)
    decreases |events|
  {
    if events != [] {
      ApplyStartsOnTurnOn(c, s, events[0]);
      WorkersStartedEqualsTurnOns(c, Apply(c, s, events[0]), events[1..]);
    }
  }

  /** After the exit key nothing can set `running` again, and no worker clicks any more. */
  lemma {:induction false} StoppedStaysQuiet(c: Config, s: State, events: seq<Event>)
    requires !s.running
    ensures !Run(c, s, events).running
    ensures Run(c, s, events).clicks == s.clicks
    decreases |events|
  {
    if events != [] {
      StoppedStaysQuiet(c, Apply(c, s, events[0]), events[1..]);
    }
  }

  /**
   * Turning on, off and on again before the first worker has looked at the
   * flags leaves two live workers, and both click: the script then clicks at
   * twice the configured rate.
   */
  lemma RapidToggleStartsTwoWorkers()
    ensures var c := Configure(Converted(500.0), "c");
      var press := KeyPress(CharKey(Some("c")));
      var s := Run(c, INITIAL, [press, press, press]);
      s.isClicking && s.threads == [true, true] && LiveCount(s.threads) == 2
      && Run(c, s, [WorkerTick(0), WorkerTick(1)]).clicks == 2
  {
    var c := Configure(Converted(500.0), "c");
    SingleCharacterIsLiteral('c');
    var press := KeyPress(CharKey(Some("c")));
    var s1 := Apply(c, INITIAL, press);
    assert s1 == INITIAL.(isClicking := true, threads := [true], clickThread := Some(0));
    var s2 := Apply(c, s1, press);
    assert s2 == s1.(isClicking := false);
    var s3 := Apply(c, s2, press);
    assert s3 == s1.(threads := [true, true], clickThread := Some(1));
    assert Run(c, INITIAL, [press, press, press]) == Run(c, s1, [press, press]);
    assert Run(c, s1, [press, press]) == Run(c, s2, [press]);
    assert Run(c, s2, [press]) == Run(c, s3, []);
    assert [true, true][..1] == [true];
    assert LiveCount([true]) == LiveCount([]) + 1;
    var s4 := Apply(c, s3, WorkerTick(0));
    assert s4.clicks == 1;
    var s5 := Apply(c, s4, WorkerTick(1));
    assert s5.clicks == 2;
    assert Run(c, s3, [WorkerTick(0), WorkerTick(1)]) == Run(c, s4, [WorkerTick(1)]);
    assert Run(c, s4, [WorkerTick(1)]) == Run(c, s5, []);
  }

  // ===== The clicker object =====

  class AutoClicker {
    var cps: real
    var clickInterval: real
    var toggleKey: ToggleKey
    var toggleKeyName: string

    var isClicking: bool
    var running: bool
    var threads: seq<bool>
    var clickThread: Option<nat>
    var clicks: nat

    function Configuration(): Config
      reads this
    {
      Config(Clicker.Rate(cps, clickInterval), toggleKey, toggleKeyName)
    }

    function CurrentState(): State
      reads this
    {
      State(isClicking, running, threads, clickThread, clicks)
    }

    ghost predicate Valid()
      reads this
    {
      Inv(CurrentState())
    }

    constructor (cps: FloatConversion, toggleKey: string)
      ensures Valid()
      ensures Configuration() == Configure(cps, toggleKey)
      ensures CurrentState() == INITIAL
    {
      isClicking, running := false, true;
      threads, clickThread, clicks := [], None, 0;
      if cps.Converted? && cps.value > 0.0 {
        this.cps := cps.value;
        clickInterval := 1.0 / cps.value;
      } else {
        this.cps := 500.0;
        clickInterval := 0.002;
      }
      if toggleKey in SPECIAL_KEY_NAMES {
        this.toggleKey := SpecialToggle(toggleKey);
      } else {
        this.toggleKey := LiteralToggle(toggleKey);
      }
      toggleKeyName := Upper(toggleKey);
    }

    method ToggleClicking()
      requires Valid()
      modifies this
      ensures Valid()
      ensures CurrentState() == Toggle(old(CurrentState()))
      ensures Configuration() == old(Configuration())
    {
      isClicking := !isClicking;
      if isClicking {
        clickThread := Some(|threads|);
        threads := threads + [true];
      }
    }

    method OnPress(key: KeyEvent)
      requires Valid()
      modifies this
      ensures Valid()
      ensures CurrentState() == Press(old(Configuration()), old(CurrentState()), key)
      ensures Configuration() == old(Configuration())
    {
      if key.CharKey? && CharEqualsToggle(key.keyChar, toggleKey) {
        ToggleClicking();
      } else if KeyEqualsToggle(key, toggleKey) {
        ToggleClicking();
      }
    }

    method OnRelease(key: KeyEvent) returns (result: Option<bool>)
      requires Valid()
      modifies this
      ensures Valid()
      ensures (CurrentState(), result) == Release(old(CurrentState()), key)
      ensures Configuration() == old(Configuration())
    {
      result := None;
      if key == SpecialKey(ESC) {
        isClicking := false;
        running := false;
        result := Some(false);
      }
    }

    /** One step of worker `t`, if it is alive. */
    method WorkerIteration(t: nat)
      requires Valid()
      modifies this
      ensures Valid()
      ensures CurrentState() == WorkerStep(old(CurrentState()), t)
      ensures Configuration() == old(Configuration())
    {
      if t < |threads| && threads[t] {
        if isClicking && running {
          clicks := clicks + 1;
        } else {
          threads := threads[t := false];
        }
      }
    }
  }
}
