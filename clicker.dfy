/**
 * The auto clicker of the `auto_clicker` package: rate derivation, the
 * drift-corrected click loop, and the toggle / stop / cleanup state machine
 * around one reusable background worker.
 *
 * The worker threads are modelled as a sequence holding the phase of every
 * worker ever started (its length is the number of workers started), and the
 * worker handle as an index into it. A handler runs as one atomic step; a
 * worker's loop iteration is a separate step that the scheduler interleaves
 * with the handlers. The clock is a real-valued reading passed in.
 */
module Clicker {
  import opened Wrappers
  import opened Binding

  const DEFAULT_CPS: real := 500.0
  /** The longest the worker sleeps before re-checking its flags. */
  const POLL_QUANTUM: real := 0.01
  /** The timeout with which cleanup joins the worker. */
  const JOIN_TIMEOUT: real := 1.0

  // ===== Rate =====

  datatype Rate = Rate(cps: real, clickInterval: real)

  /** A non-positive rate is replaced by the default; the interval is its reciprocal. */
  function DeriveRate(cps: real): (r: Rate)
    ensures r.cps > 0.0 && r.clickInterval > 0.0
    ensures r.cps * r.clickInterval == 1.0
    ensures cps > 0.0 ==> r.cps == cps
    ensures cps <= 0.0 ==> r == Rate(500.0, 0.002)
  {
    var c := if cps <= 0.0 then DEFAULT_CPS else cps;
    Rate(c, 1.0 / c)
  }

  // ===== Configuration =====

  datatype Config = Config(
    rate: Rate,
    toggleKey: ToggleKey,
    toggleKeyName: string,
    toggleMouseButton: Option<Button>,
    toggleMouseButtonName: string)

  /** Everything the constructor derives from its three arguments. */
  function Configure(cps: real, toggleKey: string, toggleMouseButton: Option<string>): Config {
    var b := ResolveToggleButton(toggleMouseButton);
    Config(DeriveRate(cps), ResolveToggleKey(toggleKey), ToggleKeyName(toggleKey), b.button, b.name)
  }

  /** The defaults: 500 clicks per second, the literal key "c" and no toggle button; a negative rate falls back to them. */
  lemma DefaultConfiguration()
    ensures Configure(500.0, "c", None)
      == Config(Rate(500.0, 0.002), LiteralToggle("c"), "C", None, "None")
    ensures Configure(-5.0, "c", None) == Configure(500.0, "c", None)
  {
    SingleCharacterIsLiteral('c');
  }

  /** A custom rate, key and button. */
  lemma CustomConfiguration()
    ensures Configure(100.0, "x", Some("right"))
      == Config(Rate(100.0, 0.01), LiteralToggle("x"), "X", Some(Right), "RIGHT")
  {
    SingleCharacterIsLiteral('x');
    LowerSpec("right");
    assert Lower("right") == "right";
    UpperSpec("right");
    assert Upper("right") == "RIGHT";
  }

  /** A special-key name resolves to that key; an unknown button name disables the button. */
  lemma SpecialKeyUnknownButtonConfiguration()
    ensures Configure(10.0, "space", Some("banana")).toggleKey == SpecialToggle("space")
    ensures Configure(10.0, "space", Some("banana")).toggleMouseButton == None
    ensures Configure(10.0, "space", Some("banana")).toggleMouseButtonName == "None"
  {
    LowerSpec("banana");
    assert Lower("banana") == "banana";
  }

  /** The configured key name is always the upper-cased key string, whichever way it resolved. */
  lemma ConfiguredNames(cps: real, toggleKey: string, toggleMouseButton: Option<string>)
    ensures Configure(cps, toggleKey, toggleMouseButton).toggleKeyName == Upper(toggleKey)
    ensures var c := Configure(cps, toggleKey, toggleMouseButton);
      c.toggleMouseButton.None? <==> c.toggleMouseButtonName == "None"
  {
    var b := ResolveToggleButton(toggleMouseButton);
    if b.button.Some? {
      UpperSpec(toggleMouseButton.value);
      LowerSpec(toggleMouseButton.value);
      // an upper-cased name has no lower-case letter, while "None" has one
      var u := Upper(toggleMouseButton.value);
      assert |u| == 4 ==> !IsLowerAscii(u[1]);
      assert IsLowerAscii("None"[1]);
    }
  }

  // ===== One iteration of the click loop =====

  datatype Iteration = Iteration(clicked: bool, nextClickTime: real, sleep: real)

  function Min(a: real, b: real): real { if a <= b then a else b }

  function Max(a: real, b: real): real { if a >= b then a else b }

  /** The body of the click loop, given the clicking flag and the clock reading `now`. */
  function Iterate(clicking: bool, now: real, nextClickTime: real, interval: real): Iteration {
    if clicking then
      var clicked := now >= nextClickTime;
      var next := if clicked then now + interval else nextClickTime;
      Iteration(clicked, next, Max(0.0, Min(next - now, POLL_QUANTUM)))
    else
      Iteration(false, nextClickTime, POLL_QUANTUM)
  }

  /**
   * A click happens exactly when clicking is set and the deadline has been
   * reached, and it moves the deadline to one interval after now; the sleep
   * always lies between zero and the poll quantum, and is the poll quantum
   * while clicking is clear.
   */
  lemma IterateSchedules(clicking: bool, now: real, nextClickTime: real, interval: real)
    ensures var it := Iterate(clicking, now, nextClickTime, interval);
      && (it.clicked <==> clicking && now >= nextClickTime)
      && it.nextClickTime == (if it.clicked then now + interval else nextClickTime)
      && 0.0 <= it.sleep <= POLL_QUANTUM
      && (!clicking ==> it.sleep == POLL_QUANTUM)
      && (it.clicked && interval > 0.0 ==> it.sleep > 0.0)
  {
  }

  // ===== The click loop run by a worker =====

  /** What iteration `i` of the loop observes: the stop flag, the clicking flag and the clock. */
  datatype Observation = Observation(stopSet: bool, clickingSet: bool, now: real)

  /** The loop's state after a run of iterations: its deadline, the iterations that clicked and the sleeps. */
  datatype LoopState = LoopState(nextClickTime: real, clickedAt: seq<nat>, sleeps: seq<real>)

  /** The loop state after running the iterations `obs`, starting from the clock reading `start`. */
  function Replay(start: real, interval: real, obs: seq<Observation>): LoopState
    decreases |obs|
  {
    if obs == [] then LoopState(start, [], [])
    else
      var prev := Replay(start, interval, obs[..|obs| - 1]);
      var o := obs[|obs| - 1];
      var it := Iterate(o.clickingSet, o.now, prev.nextClickTime, interval);
      LoopState(
        it.nextClickTime,
        prev.clickedAt + (if it.clicked then [|obs| - 1] else []),
        prev.sleeps + [it.sleep])
  }

  /** Running one more iteration extends the replayed state by that iteration. */
  lemma ReplayExtends(start: real, interval: real, obs: seq<Observation>, i: nat)
    requires i < |obs|
    ensures var prev := Replay(start, interval, obs[..i]);
      var it := Iterate(obs[i].clickingSet, obs[i].now, prev.nextClickTime, interval);
      Replay(start, interval, obs[..i + 1])
        == LoopState(it.nextClickTime, prev.clickedAt + (if it.clicked then [i] else []), prev.sleeps + [it.sleep])
  {
    assert obs[..i + 1][..i] == obs[..i];
  }

  /** Click `k` comes in a later iteration than click `k - 1`, and at least one interval after it. */
  ghost predicate SpacedFromPrevious(interval: real, obs: seq<Observation>, clickedAt: seq<nat>, k: nat)
    requires 0 < k < |clickedAt|
  {
    clickedAt[k - 1] < clickedAt[k] < |obs| && obs[clickedAt[k]].now >= obs[clickedAt[k - 1]].now + interval
  }

  /**
   * The drift-corrected schedule: clicks happen only in iterations that saw
   * clicking set, in increasing order, the first no earlier than the start,
   * each later one at least one interval after the one before.
   */
  ghost predicate WellSpaced(start: real, interval: real, obs: seq<Observation>, clickedAt: seq<nat>) {
    && (forall k :: 0 <= k < |clickedAt| ==> clickedAt[k] < |obs| && obs[clickedAt[k]].clickingSet)
    && (forall k :: 0 < k < |clickedAt| ==> SpacedFromPrevious(interval, obs, clickedAt, k))
    && (|clickedAt| > 0 ==> clickedAt[0] < |obs| && obs[clickedAt[0]].now >= start)
  }

  /** Every sleep of the loop lies between zero and the poll quantum, and is the poll quantum while not clicking. */
  lemma {:induction false} ReplaySleeps(start: real, interval: real, obs: seq<Observation>)
    ensures var st := Replay(start, interval, obs);
      && |st.sleeps| == |obs|
      && (forall i :: 0 <= i < |obs| ==> 0.0 <= st.sleeps[i] <= POLL_QUANTUM)
      && (forall i :: 0 <= i < |obs| && !obs[i].clickingSet ==> st.sleeps[i] == POLL_QUANTUM)
  {
    if obs != [] {
      var init := obs[..|obs| - 1];
      var o := obs[|obs| - 1];
      ReplaySleeps(start, interval, init);
      IterateSchedules(o.clickingSet, o.now, Replay(start, interval, init).nextClickTime, interval);
    }
  }

  /** Spacing is a property of the iterations already run: later iterations do not disturb it. */
  lemma WellSpacedExtends(start: real, interval: real, obs: seq<Observation>, n: nat, clickedAt: seq<nat>)
    requires n <= |obs|
    requires WellSpaced(start, interval, obs[..n], clickedAt)
    ensures WellSpaced(start, interval, obs, clickedAt)
    ensures forall k :: 0 <= k < |clickedAt| ==> clickedAt[k] < n
  {
    assert forall i :: 0 <= i < n ==> obs[..n][i] == obs[i];
    forall k | 0 < k < |clickedAt|
      ensures SpacedFromPrevious(interval, obs, clickedAt, k)
    {
      assert SpacedFromPrevious(interval, obs[..n], clickedAt, k);
    }
  }

  /** A click in a later iteration, at least one interval after the latest one, keeps the schedule well spaced. */
  lemma WellSpacedAppend(start: real, interval: real, obs: seq<Observation>, clickedAt: seq<nat>, i: nat)
    requires WellSpaced(start, interval, obs, clickedAt)
    requires i < |obs| && obs[i].clickingSet
    requires clickedAt == [] ==> obs[i].now >= start
    requires clickedAt != [] ==>
      clickedAt[|clickedAt| - 1] < i && obs[i].now >= obs[clickedAt[|clickedAt| - 1]].now + interval
    ensures WellSpaced(start, interval, obs, clickedAt + [i])
  {
    var ca := clickedAt + [i];
    assert forall k :: 0 <= k < |clickedAt| ==> ca[k] == clickedAt[k];
    assert ca[|clickedAt|] == i;
    forall k | 0 < k < |ca|
      ensures SpacedFromPrevious(interval, obs, ca, k)
    {
      if k < |clickedAt| {
        assert SpacedFromPrevious(interval, obs, clickedAt, k);
      }
    }
  }

  /**
   * The loop's clicks are well spaced, and its deadline is the start before the
   * first click and one interval after the latest click afterwards.
   */
  lemma {:induction false} ReplayWellSpaced(start: real, interval: real, obs: seq<Observation>)
    ensures var st := Replay(start, interval, obs);
      && |st.clickedAt| <= |obs|
      && WellSpaced(start, interval, obs, st.clickedAt)
      && (st.clickedAt == [] ==> st.nextClickTime == start)
      && (st.clickedAt != [] ==>
            st.clickedAt[|st.clickedAt| - 1] < |obs| &&
            st.nextClickTime == obs[st.clickedAt[|st.clickedAt| - 1]].now + interval)
    decreases |obs|
  {
    if obs != [] {
      var n := |obs| - 1;
      var o := obs[n];
      var prev := Replay(start, interval, obs[..n]);
      ReplayWellSpaced(start, interval, obs[..n]);
      WellSpacedExtends(start, interval, obs, n, prev.clickedAt);
      ReplayExtends(start, interval, obs, n);
      assert obs[..n + 1] == obs;
      var it := Iterate(o.clickingSet, o.now, prev.nextClickTime, interval);
      IterateSchedules(o.clickingSet, o.now, prev.nextClickTime, interval);
      var ca := prev.clickedAt;
      if ca != [] {
        assert obs[..n][ca[|ca| - 1]] == obs[ca[|ca| - 1]];
      }
      if it.clicked {
        WellSpacedAppend(start, interval, obs, ca, n);
      } else {
        assert ca + [] == ca;
      }
    }
  }

  /** A well-spaced schedule never bursts: n clicks span at least n - 1 intervals. */
  lemma {:induction false} WellSpacedSpan(start: real, interval: real, obs: seq<Observation>, clickedAt: seq<nat>)
    requires WellSpaced(start, interval, obs, clickedAt)
    requires clickedAt != []
    ensures obs[clickedAt[|clickedAt| - 1]].now >= obs[clickedAt[0]].now + (|clickedAt| - 1) as real * interval
    decreases |clickedAt|
  {
    var n := |clickedAt|;
    if n > 1 {
      var init := clickedAt[..n - 1];
      forall k | 0 < k < |init|
        ensures SpacedFromPrevious(interval, obs, init, k)
      {
        assert SpacedFromPrevious(interval, obs, clickedAt, k);
      }
      WellSpacedSpan(start, interval, obs, init);
      assert init[n - 2] == clickedAt[n - 2];
      assert SpacedFromPrevious(interval, obs, clickedAt, n - 1);
      assert (n - 1) as real * interval == (n - 2) as real * interval + interval;
    }
  }

  /** What a run of the first `n` iterations guarantees about the clicks and the sleeps. */
  lemma LoopGuarantees(start: real, interval: real, obs: seq<Observation>, n: nat, clickedAt: seq<nat>, sleeps: seq<real>)
    requires n <= |obs|
    requires Replay(start, interval, obs[..n]).clickedAt == clickedAt
    requires Replay(start, interval, obs[..n]).sleeps == sleeps
    ensures |sleeps| == n
    ensures forall i :: 0 <= i < n ==> 0.0 <= sleeps[i] <= POLL_QUANTUM
    ensures forall k :: 0 <= k < |clickedAt| ==> clickedAt[k] < n
    ensures WellSpaced(start, interval, obs, clickedAt)
    ensures clickedAt != [] ==>
      obs[clickedAt[|clickedAt| - 1]].now >= obs[clickedAt[0]].now + (|clickedAt| - 1) as real * interval
  {
    ReplaySleeps(start, interval, obs[..n]);
    ReplayWellSpaced(start, interval, obs[..n]);
    WellSpacedExtends(start, interval, obs, n, clickedAt);
    if clickedAt != [] {
      WellSpacedSpan(start, interval, obs, clickedAt);
    }
  }

  /**
   * The worker's loop: it starts from the clock reading `start` and runs one
   * iteration per observation until it observes the stop flag. It returns the
   * number of iterations run, the iterations that clicked and the sleeps.
   */
  method SimulateMouseClick(start: real, interval: real, obs: seq<Observation>)
    returns (iterations: nat, clickedAt: seq<nat>, sleeps: seq<real>)
    ensures iterations <= |obs|
    ensures forall i :: 0 <= i < iterations ==> !obs[i].stopSet
    ensures iterations < |obs| ==> obs[iterations].stopSet
    ensures Replay(start, interval, obs[..iterations]).clickedAt == clickedAt
    ensures Replay(start, interval, obs[..iterations]).sleeps == sleeps
  {
    var nextClickTime := start;
    iterations, clickedAt, sleeps := 0, [], [];
    while iterations < |obs| && !obs[iterations].stopSet
      invariant iterations <= |obs|
      invariant forall i :: 0 <= i < iterations ==> !obs[i].stopSet
      invariant Replay(start, interval, obs[..iterations]) == LoopState(nextClickTime, clickedAt, sleeps)
    {
      ReplayExtends(start, interval, obs, iterations);
      var currentTime := obs[iterations].now;
      var sleepTime;
      if obs[iterations].clickingSet {
        if currentTime >= nextClickTime {
          clickedAt := clickedAt + [iterations];
          nextClickTime := currentTime + interval;
        }
        sleepTime := Max(0.0, Min(nextClickTime - currentTime, POLL_QUANTUM));
      } else {
        sleepTime := POLL_QUANTUM;
      }
      sleeps := sleeps + [sleepTime];
      iterations := iterations + 1;
    }
  }

  // ===== The toggle / stop state machine =====

  /** The phase of a worker thread. */
  datatype Phase =
    | Starting                         // started, has not yet read the clock
    | Looping(nextClickTime: real)     // inside the click loop
    | Finished                         // the loop has exited; the thread is dead

  /**
   * The mutable state of a clicker: the clicking and stop flags, every worker
   * started so far, the worker handle, the clicks issued and the timeouts of
   * the joins performed.
   */
  datatype State = State(
    clicking: bool,
    stopSet: bool,
    threads: seq<Phase>,
    clickThread: Option<nat>,
    clicks: nat,
    joinCalls: seq<real>)

  const INITIAL: State := State(false, false, [], None, 0, [])

  /** The handle holds a worker that is still alive. */
  predicate HandleAlive(s: State) {
    s.clickThread.Some? && s.clickThread.value < |s.threads| && s.threads[s.clickThread.value] != Finished
  }

  /** The number of live workers among `threads`. */
  function LiveCount(threads: seq<Phase>): nat {
    if threads == [] then 0
    else LiveCount(threads[..|threads| - 1]) + (if threads[|threads| - 1] != Finished then 1 else 0)
  }

  /**
   * The handle is the most recently started worker (and empty before any has
   * started), and every earlier worker has finished.
   */
  ghost predicate Inv(s: State) {
    && (s.clickThread.None? <==> s.threads == [])
    && (s.clickThread.Some? ==> s.clickThread.value == |s.threads| - 1)
    && (forall i :: 0 <= i < |s.threads| - 1 ==> s.threads[i] == Finished)
  }

  lemma {:induction false} AllFinishedNoneLive(threads: seq<Phase>)
    requires forall i :: 0 <= i < |threads| ==> threads[i] == Finished
    ensures LiveCount(threads) == 0
  {
    if threads != [] {
      AllFinishedNoneLive(threads[..|threads| - 1]);
    }
  }

  /** Under the invariant at most one worker is alive, and it is the one the handle holds. */
  lemma AtMostOneLiveWorker(s: State)
    requires Inv(s)
    ensures LiveCount(s.threads) <= 1
    ensures LiveCount(s.threads) == 1 <==> HandleAlive(s)
  {
    if s.threads != [] {
      AllFinishedNoneLive(s.threads[..|s.threads| - 1]);
    }
  }

  /** `toggle_clicking`: flip the clicking flag; on turning on, start a worker unless a live one exists. */
  function Toggle(s: State): State {
    if s.clicking then s.(clicking := false)
    else if !HandleAlive(s) then
      s.(clicking := true, threads := s.threads + [Starting], clickThread := Some(|s.threads|))
    else s.(clicking := true)
  }

  /** `request_stop`: set the stop flag and clear the clicking flag. */
  function StopRequested(s: State): State {
    s.(stopSet := true, clicking := false)
  }

  /**
   * `cleanup`: request a stop, then join a live worker with the timeout;
   * `exitsInTime` says whether it finishes during the join. The second result
   * is whether the worker is still alive afterwards (the warning).
   */
  function CleanedUp(s: State, exitsInTime: bool): (State, bool) {
    var s1 := StopRequested(s);
    if HandleAlive(s1) then
      var s2 := s1.(joinCalls := s1.joinCalls + [JOIN_TIMEOUT]);
      if exitsInTime then (s2.(threads := s2.threads[s2.clickThread.value := Finished]), false)
      else (s2, true)
    else (s1, false)
  }

  /** `on_press`: toggle when the key is the configured toggle key. */
  function Press(c: Config, s: State, key: KeyEvent): State {
    if PressToggles(key, c.toggleKey) then Toggle(s) else s
  }

  /** `on_click`: toggle when a toggle button is configured and it is pressed. */
  function Click(c: Config, s: State, button: Button, pressed: bool): State {
    if c.toggleMouseButton.Some? && button == c.toggleMouseButton.value && pressed then Toggle(s) else s
  }

  /** `on_release`: the exit key requests a stop and returns False; other keys return None. */
  function Release(s: State, key: KeyEvent): (State, Option<bool>) {
    if IsExitKey(key) then (StopRequested(s), Some(false)) else (s, None)
  }

  /**
   * One step of the live worker at clock reading `now`: a starting worker reads
   * the clock into its deadline; a looping worker exits when the stop flag is
   * set and otherwise runs one iteration. With no live worker nothing runs.
   */
  function WorkerStep(interval: real, s: State, now: real): State {
    if !HandleAlive(s) then s
    else
      var k := s.clickThread.value;
      match s.threads[k]
      case Starting => s.(threads := s.threads[k := Looping(now)])
      case Looping(next) =>
        if s.stopSet then s.(threads := s.threads[k := Finished])
        else
          var it := Iterate(s.clicking, now, next, interval);
          s.(threads := s.threads[k := Looping(it.nextClickTime)],
             clicks := s.clicks + if it.clicked then 1 else 0)
      case Finished => s
  }

  // ----- Properties of the transitions -----

  /**
   * Toggling flips the clicking flag, so two toggles restore it; it touches
   * neither the stop flag nor the clicks. Turning off keeps the worker handle;
   * turning on starts a worker exactly when there is no live one, and a live
   * worker is reused.
   */
  lemma ToggleSpec(s: State)
    ensures Toggle(s).clicking == !s.clicking
    ensures Toggle(Toggle(s)).clicking == s.clicking
    ensures Toggle(s).stopSet == s.stopSet && Toggle(s).clicks == s.clicks
    ensures s.clicking ==> Toggle(s).threads == s.threads && Toggle(s).clickThread == s.clickThread
    ensures !s.clicking ==> HandleAlive(Toggle(s))
    ensures !s.clicking ==> (|Toggle(s).threads| == |s.threads| + 1 <==> !HandleAlive(s))
    ensures !s.clicking && HandleAlive(s) ==> Toggle(s).threads == s.threads && Toggle(s).clickThread == s.clickThread
  {
  }

  /** Requesting a stop is idempotent: afterwards stop is set and clicking is clear. */
  lemma RequestStopSpec(s: State)
    ensures StopRequested(s).stopSet && !StopRequested(s).clicking
    ensures StopRequested(StopRequested(s)) == StopRequested(s)
    ensures StopRequested(s).threads == s.threads && StopRequested(s).clicks == s.clicks
  {
  }

  /**
   * After cleanup stop is set and clicking is clear; it joins, once, with the
   * timeout exactly when the handle holds a live worker, and warns exactly when
   * that worker is still alive afterwards. A second cleanup changes no flag.
   */
  lemma CleanupSpec(s: State, exitsInTime: bool, again: bool)
    requires Inv(s)
    ensures var (s1, warned) := CleanedUp(s, exitsInTime);
      && s1.stopSet && !s1.clicking
      && s1.joinCalls == s.joinCalls + (if HandleAlive(s) then [JOIN_TIMEOUT] else [])
      && (warned <==> HandleAlive(s1))
      && (warned <==> HandleAlive(s) && !exitsInTime)
      && s1.clicks == s.clicks
      && Inv(s1)
    ensures var s1 := CleanedUp(s, exitsInTime).0;
      var s2 := CleanedUp(s1, again).0;
      s2.stopSet == s1.stopSet && s2.clicking == s1.clicking
      && (!CleanedUp(s, exitsInTime).1 ==> s2 == s1)
  {
  }

  /**
   * The exit key sets the stop flag, clears the clicking flag, keeps the
   * workers and returns False; any other key returns None and changes nothing.
   */
  lemma ReleaseSpec(s: State, key: KeyEvent)
    ensures IsExitKey(key) ==>
      var (s1, result) := Release(s, key);
      s1.stopSet && !s1.clicking && result == Some(false)
      && s1.threads == s.threads && s1.clickThread == s.clickThread && s1.clicks == s.clicks
    ensures !IsExitKey(key) ==> Release(s, key) == (s, None)
  {
  }

  /**
   * A key press toggles exactly when it is the configured key (the character
   * typed, for a literal key; the special key itself, for a special-key name);
   * any other key leaves the whole state unchanged.
   */
  lemma PressSpec(cps: real, name: string, button: Option<string>, s: State, key: KeyEvent)
    ensures var isToggleKey := if name in SPECIAL_KEY_NAMES then key == SpecialKey(name) else key == CharKey(Some(name));
      && (isToggleKey ==> Press(Configure(cps, name, button), s, key) == Toggle(s))
      && (!isToggleKey ==> Press(Configure(cps, name, button), s, key) == s)
      && (Press(Configure(cps, name, button), s, key).clicking != s.clicking <==> isToggleKey)
  {
    PressTogglesExactlyOnConfiguredKey(name, key);
  }

  /**
   * The button handler toggles exactly when a toggle button is configured, the
   * event is for that button and it is a press; a release, another button, or
   * no configured button leaves the whole state unchanged.
   */
  lemma ClickSpec(c: Config, s: State, button: Button, pressed: bool)
    ensures c.toggleMouseButton.Some? && button == c.toggleMouseButton.value && pressed ==>
      Click(c, s, button, pressed) == Toggle(s)
    ensures !pressed || c.toggleMouseButton != Some(button) ==> Click(c, s, button, pressed) == s
    ensures Click(c, s, button, pressed).clicking != s.clicking <==> c.toggleMouseButton == Some(button) && pressed
  {
  }

  /** With button toggling disabled by an unknown button name, keyboard toggling still works. */
  lemma UnknownButtonKeepsKeyboard(s: State)
    ensures var c := Configure(500.0, "c", Some("banana"));
      c.toggleMouseButton == None
      && (forall b, p :: Click(c, s, b, p) == s)
      && Press(c, s, CharKey(Some("c"))) == Toggle(s)
  {
    assert Lower("banana") == "banana";
    SingleCharacterIsLiteral('c');
  }

  /** A worker step issues at most one click, and none once stop is set. */
  lemma WorkerStepSpec(interval: real, s: State, now: real)
    ensures WorkerStep(interval, s, now).clicks <= s.clicks + 1
    ensures s.stopSet ==> WorkerStep(interval, s, now).clicks == s.clicks
    ensures !s.clicking ==> WorkerStep(interval, s, now).clicks == s.clicks
    ensures WorkerStep(interval, s, now).clicking == s.clicking
    ensures WorkerStep(interval, s, now).stopSet == s.stopSet
  {
  }

  lemma InvInitial()
    ensures Inv(INITIAL) && LiveCount(INITIAL.threads) == 0
  {
  }

  lemma ToggleKeepsInv(s: State)
    requires Inv(s)
    ensures Inv(Toggle(s))
  {
  }

  lemma WorkerStepKeepsInv(interval: real, s: State, now: real)
    requires Inv(s)
    ensures Inv(WorkerStep(interval, s, now))
  {
  }

  // ----- The worker against the click loop -----

  /**
   * The state after the live worker runs one step per observation, with the
   * clicking flag set to what that observation saw just before the step.
   */
  function TicksObserving(interval: real, s: State, obs: seq<Observation>): State
    decreases |obs|
  {
    if obs == [] then s
    else
      var prev := TicksObserving(interval, s, obs[..|obs| - 1]);
      var o := obs[|obs| - 1];
      WorkerStep(interval, prev.(clicking := o.clickingSet), o.now)
  }

  /**
   * The interleaved worker runs the click loop: from a handle already looping
   * with deadline `start`, and with stop clear, its steps keep it looping with
   * the deadline `Replay` reaches, and add exactly the clicks `Replay` makes, so
   * the worker's clicks inherit the spacing of `ReplayWellSpaced`.
   */
  lemma {:induction false} WorkerRunsTheLoop(interval: real, s: State, start: real, obs: seq<Observation>)
    requires s.clickThread.Some? && s.clickThread.value < |s.threads|
    requires s.threads[s.clickThread.value] == Looping(start)
    requires !s.stopSet
    ensures var t := TicksObserving(interval, s, obs);
      var r := Replay(start, interval, obs);
      && t.threads == s.threads[s.clickThread.value := Looping(r.nextClickTime)]
      && t.clicks == s.clicks + |r.clickedAt|
      && t.clickThread == s.clickThread && !t.stopSet && t.joinCalls == s.joinCalls
    decreases |obs|
  {
    if obs != [] {
      var n := |obs| - 1;
      WorkerRunsTheLoop(interval, s, start, obs[..n]);
    }
  }

  // ----- Runs of events -----

  /** An event: a handler call or a step of the worker. */
  datatype Event =
    | KeyPress(key: KeyEvent)
    | MouseClick(button: Button, pressed: bool)
    | KeyRelease(key: KeyEvent)
    | StopRequest
    | CleanUp(exitsInTime: bool)
    | WorkerTick(now: real)

  function Apply(c: Config, s: State, e: Event): State {
    match e
    case KeyPress(key) => Press(c, s, key)
    case MouseClick(button, pressed) => Click(c, s, button, pressed)
    case KeyRelease(key) => Release(s, key).0
    case StopRequest => StopRequested(s)
    case CleanUp(exitsInTime) => CleanedUp(s, exitsInTime).0
    case WorkerTick(now) => WorkerStep(c.rate.clickInterval, s, now)
  }

  function Run(c: Config, s: State, events: seq<Event>): State
    decreases |events|
  {
    if events == [] then s else Run(c, Apply(c, s, events[0]), events[1..])
  }

  lemma ApplyKeepsInv(c: Config, s: State, e: Event)
    requires Inv(s)
    ensures Inv(Apply(c, s, e))
  {
    match e
    case KeyPress(key) => ToggleKeepsInv(s);
    case MouseClick(_, _) => ToggleKeepsInv(s);
    case KeyRelease(_) =>
    case StopRequest =>
    case CleanUp(exitsInTime) => CleanupSpec(s, exitsInTime, false);
    case WorkerTick(now) => WorkerStepKeepsInv(c.rate.clickInterval, s, now);
  }

  lemma {:induction false} RunKeepsInv(c: Config, s: State, events: seq<Event>)
    requires Inv(s)
    ensures Inv(Run(c, s, events))
    decreases |events|
  {
    if events != [] {
      ApplyKeepsInv(c, s, events[0]);
      RunKeepsInv(c, Apply(c, s, events[0]), events[1..]);
    }
  }

  /** Whatever the handlers and the worker do, never more than one worker is alive. */
  lemma NeverTwoLiveWorkers(c: Config, events: seq<Event>)
    ensures LiveCount(Run(c, INITIAL, events).threads) <= 1
  {
    InvInitial();
    RunKeepsInv(c, INITIAL, events);
    AtMostOneLiveWorker(Run(c, INITIAL, events));
  }

  /** Once stop is set it stays set, and no further click is ever issued. */
  lemma {:induction false} StopIsFinal(c: Config, s: State, events: seq<Event>)
    requires s.stopSet
    ensures Run(c, s, events).stopSet
    ensures Run(c, s, events).clicks == s.clicks
    decreases |events|
  {
    if events != [] {
      var s1 := Apply(c, s, events[0]);
      if events[0].WorkerTick? {
        WorkerStepSpec(c.rate.clickInterval, s, events[0].now);
      }
      assert s1.stopSet && s1.clicks == s.clicks;
      StopIsFinal(c, s1, events[1..]);
    }
  }

  /**
   * Turning on, off and on again before the worker has run reuses the one
   * worker already started.
   */
  lemma RapidToggleReusesWorker()
    ensures var c := Configure(500.0, "c", None);
      var press := KeyPress(CharKey(Some("c")));
      var s := Run(c, INITIAL, [press, press, press]);
      s.clicking && |s.threads| == 1 && LiveCount(s.threads) == 1
  {
    var c := Configure(500.0, "c", None);
    var press := KeyPress(CharKey(Some("c")));
    SingleCharacterIsLiteral('c');
    var s1 := Apply(c, INITIAL, press);
    assert s1 == INITIAL.(clicking := true, threads := [Starting], clickThread := Some(0));
    var s2 := Apply(c, s1, press);
    assert s2 == s1.(clicking := false);
    var s3 := Apply(c, s2, press);
    assert s3 == s1;
    assert Run(c, INITIAL, [press, press, press]) == Run(c, s1, [press, press]);
    assert Run(c, s1, [press, press]) == Run(c, s2, [press]);
    assert Run(c, s2, [press]) == Run(c, s3, []);
    assert LiveCount(s3.threads) == LiveCount([]) + 1;
  }

  // ===== The clicker object =====

  class AutoClicker {
    var cps: real
    var clickInterval: real
    var toggleKey: ToggleKey
    var toggleKeyName: string
    var toggleMouseButton: Option<Button>
    var toggleMouseButtonName: string

    var clickingEvent: bool
    var stopEvent: bool
    var threads: seq<Phase>
    var clickThread: Option<nat>
    var clicks: nat
    var joinCalls: seq<real>

    function Configuration(): Config
      reads this
    {
      Config(Rate(cps, clickInterval), toggleKey, toggleKeyName, toggleMouseButton, toggleMouseButtonName)
    }

    function CurrentState(): State
      reads this
    {
      State(clickingEvent, stopEvent, threads, clickThread, clicks, joinCalls)
    }

    ghost predicate Valid()
      reads this
    {
      Inv(CurrentState())
    }

    constructor (cps: real, toggleKey: string, toggleMouseButton: Option<string>)
      ensures Valid()
      ensures Configuration() == Configure(cps, toggleKey, toggleMouseButton)
      ensures CurrentState() == INITIAL
    {
      clickingEvent, stopEvent := false, false;
      threads, clickThread := [], None;
      clicks, joinCalls := 0, [];
      var rate := if cps <= 0.0 then DEFAULT_CPS else cps;
      this.cps := rate;
      clickInterval := 1.0 / rate;
      if toggleKey in SPECIAL_KEY_NAMES {
        this.toggleKey := SpecialToggle(toggleKey);
      } else {
        this.toggleKey := LiteralToggle(toggleKey);
      }
      toggleKeyName := Upper(toggleKey);
      this.toggleMouseButton := None;
      toggleMouseButtonName := "None";
      if toggleMouseButton.Some? && toggleMouseButton.value != [] {
        var lower := Lower(toggleMouseButton.value);
        var b := ButtonNamed(lower);
        if b.Some? {
          this.toggleMouseButton := b;
          toggleMouseButtonName := Upper(toggleMouseButton.value);
        }
      }
    }

    method ToggleClicking()
      requires Valid()
      modifies this
      ensures Valid()
      ensures CurrentState() == Toggle(old(CurrentState()))
      ensures Configuration() == old(Configuration())
    {
      if clickingEvent {
        clickingEvent := false;
      } else {
        clickingEvent := true;
        if clickThread.None? || threads[clickThread.value] == Finished {
          clickThread := Some(|threads|);
          threads := threads + [Starting];
        }
      }
    }

    method OnPress(key: KeyEvent)
      requires Valid()
      modifies this
      ensures Valid()
      ensures CurrentState() == Press(old(Configuration()), old(CurrentState()), key)
      ensures Configuration() == old(Configuration())
    {
      if key.CharKey? && CharEqualsToggle(key.keyChar, toggleKey) {
        ToggleClicking();
      } else if KeyEqualsToggle(key, toggleKey) {
        ToggleClicking();
      }
    }

    method OnClick(x: int, y: int, button: Button, pressed: bool)
      requires Valid()
      modifies this
      ensures Valid()
      ensures CurrentState() == Click(old(Configuration()), old(CurrentState()), button, pressed)
      ensures Configuration() == old(Configuration())
    {
      if toggleMouseButton.Some? && button == toggleMouseButton.value && pressed {
        ToggleClicking();
      }
    }

    method RequestStop()
      requires Valid()
      modifies this
      ensures Valid()
      ensures CurrentState() == StopRequested(old(CurrentState()))
      ensures Configuration() == old(Configuration())
    {
      stopEvent := true;
      clickingEvent := false;
    }

    method OnRelease(key: KeyEvent) returns (result: Option<bool>)
      requires Valid()
      modifies this
      ensures Valid()
      ensures (CurrentState(), result) == Release(old(CurrentState()), key)
      ensures Configuration() == old(Configuration())
    {
      result := None;
      if key == SpecialKey(ESC) {
        RequestStop();
        result := Some(false);
      }
    }

    /** `exitsInTime` is whether the worker finishes within the join's timeout. */
    method Cleanup(exitsInTime: bool) returns (warned: bool)
      requires Valid()
      modifies this
      ensures Valid()
      ensures (CurrentState(), warned) == CleanedUp(old(CurrentState()), exitsInTime)
      ensures Configuration() == old(Configuration())
    {
      RequestStop();
      warned := false;
      if clickThread.Some? && threads[clickThread.value] != Finished {
        joinCalls := joinCalls + [JOIN_TIMEOUT];
        if exitsInTime {
          threads := threads[clickThread.value := Finished];
        } else {
          warned := true;
        }
      }
    }

    /** One step of the live worker, if any, at clock reading `now`. */
    method WorkerIteration(now: real)
      requires Valid()
      modifies this
      ensures Valid()
      ensures CurrentState() == WorkerStep(clickInterval, old(CurrentState()), now)
      ensures Configuration() == old(Configuration())
    {
      if clickThread.Some? && threads[clickThread.value] != Finished {
        var k := clickThread.value;
        match threads[k]
        case Starting =>
          threads := threads[k := Looping(now)];
        case Looping(nextClickTime) =>
          if stopEvent {
            threads := threads[k := Finished];
          } else if clickingEvent {
            var next := nextClickTime;
            if now >= next {
              clicks := clicks + 1;
              next := now + clickInterval;
            }
            threads := threads[k := Looping(next)];
          }
      }
    }
  }
}
