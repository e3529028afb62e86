/** `WASDController` of backend/leaning_control_system.py: head yaw drives
    A/D and head pitch drives W/S, each with a press threshold and a
    closer-to-centre release threshold (hysteresis). A small lean instead
    drives a timed tap of A or D: held for `hold` seconds, then released
    for `wait` seconds, and so on. The wall clock is a parameter.

    Python iterates the key sets in hash order; the model emits the calls
    of one batch in the fixed order W, A, S, D. */
module Wasd {
  import opened Actions

  datatype Config = Config(
    lean: real,        // `lean_threshold`, degrees of yaw for A/D
    pitchFwd: real,    // `pitch_threshold`, degrees of pitch for S
    pitchBack: real,   // `pitch_threshold_back`, degrees of pitch for W
    hysteresis: real,  // release threshold = press threshold * hysteresis
    hold: real,        // `small_lean_hold_duration`, seconds
    wait: real,        // `small_lean_wait_duration`, seconds
    strong: real)      // `strong_lean_threshold`, degrees of yaw

  const DefaultConfig := Config(3.0, 5.0, 12.0, 0.7, 1.0, 0.075, 8.0)

  /** The timed tap of one lean key (`lean_key_state`,
      `last_lean_press_time`, `lean_key_press_start`). */
  datatype Tap = Tap(held: bool, lastRelease: real, pressStart: real)

  datatype State = State(current: set<Key>, tapA: Tap, tapD: Tap)

  const Init := State({}, Tap(false, 0.0, 0.0), Tap(false, 0.0, 0.0))

  const Movement: set<Key> := {W, A, S, D}

  /** The keys the controller believes are down: the held set plus any
      lean key a tap is holding. */
  function Believed(s: State): set<Key>
  {
    s.current
    + (if s.tapA.held then {A} else {})
    + (if s.tapD.held then {D} else {})
  }

  /** A state in which no lean key is claimed both by the held set and by
      its tap. */
  predicate Tracked(s: State)
  {
    !(A in s.current && s.tapA.held) && !(D in s.current && s.tapD.held)
  }

  /** The keys of `ks` in the fixed emission order. */
  function Ordered(ks: set<Key>): (r: seq<Key>)
    ensures Elems(r) == ks * Movement
  {
    (if W in ks then [W] else [])
    + (if A in ks then [A] else [])
    + (if S in ks then [S] else [])
    + (if D in ks then [D] else [])
  }

  /** `release_all_keys`: a key-up for every held key. The tap keys are not
      touched. */
  function ReleaseAll(s: State): (r: (State, seq<Action>))
    requires s.current <= Movement
    ensures r.0 == s.(current := {})
    ensures Keyboard(s.current, r.1) == {}
    ensures forall i :: 0 <= i < |r.1| ==> r.1[i].KeyUp? && r.1[i].key in s.current
  {
    var acts := Ups(Ordered(s.current));
    KeyboardUps(s.current, Ordered(s.current));
    (s.(current := {}), acts)
  }

  /** One small-lean tap step for `k`: start holding once `wait` seconds
      have passed since the last release; release once `hold` seconds
      have passed since the press. */
  function TapStep(t: Tap, cfg: Config, k: Key, now: real): (r: (Tap, seq<Action>))
    ensures !t.held && now - t.lastRelease >= cfg.wait ==>
      r == (Tap(true, t.lastRelease, now), [KeyDown(k)])
    ensures t.held && now - t.pressStart >= cfg.hold ==>
      r == (Tap(false, now, t.pressStart), [KeyUp(k)])
    ensures r.1 == [] ==> r.0 == t
    ensures r.1 == [] <==>
      (!t.held && now - t.lastRelease < cfg.wait) || (t.held && now - t.pressStart < cfg.hold)
  {
    if !t.held then
      if now - t.lastRelease >= cfg.wait then (Tap(true, t.lastRelease, now), [KeyDown(k)])
      else (t, [])
    else if now - t.pressStart >= cfg.hold then (Tap(false, now, t.pressStart), [KeyUp(k)])
    else (t, [])
  }

  /** The keys that should be held after this frame: a held key is kept
      until the reading crosses its release threshold; a key not held is
      added past its press threshold (for A and D, only on a strong lean). */
  function Desired(current: set<Key>, cfg: Config, yaw: real, pitch: real): (r: set<Key>)
    ensures r <= Movement
    ensures A in r <==>
      if A in current then yaw <= -(cfg.lean * cfg.hysteresis)
      else yaw < -cfg.lean && yaw < -cfg.strong
    ensures D in r <==>
      if D in current then yaw >= cfg.lean * cfg.hysteresis
      else yaw > cfg.lean && yaw > cfg.strong
    ensures W in r <==>
      if W in current then pitch >= cfg.pitchBack * cfg.hysteresis
      else pitch > cfg.pitchBack
    ensures S in r <==>
      if S in current then pitch <= -(cfg.pitchFwd * cfg.hysteresis)
      else pitch < -cfg.pitchFwd
  {
    var a := if A in current then !(yaw > -(cfg.lean * cfg.hysteresis))
             else yaw < -cfg.lean && yaw < -cfg.strong;
    var d := if D in current then !(yaw < cfg.lean * cfg.hysteresis)
             else yaw > cfg.lean && yaw > cfg.strong;
    var w := if W in current then !(pitch < cfg.pitchBack * cfg.hysteresis)
             else pitch > cfg.pitchBack;
    var s := if S in current then !(pitch > -(cfg.pitchFwd * cfg.hysteresis))
             else pitch < -cfg.pitchFwd;
    (if w then {W} else {}) + (if a then {A} else {}) + (if s then {S} else {}) + (if d then {D} else {})
  }

  /** The key calls that move the held set from `current` to `desired`:
      key-ups for the dropped keys, key-downs for the new ones, then a
      repeated key-down for every desired key. */
  function Sync(current: set<Key>, desired: set<Key>): seq<Action>
  {
    Ups(Ordered(current - desired))
    + Downs(Ordered(desired - current))
    + Downs(Ordered(desired))
  }

  /** Replaying the sync calls on any keyboard drops exactly the keys that
      left the held set and leaves every desired key down. */
  lemma SyncKeyboard(held: set<Key>, current: set<Key>, desired: set<Key>)
    requires current <= Movement && desired <= Movement
    ensures Keyboard(held, Sync(current, desired)) == (held - (current - desired)) + desired
  {
    var u := Ups(Ordered(current - desired));
    var d1 := Downs(Ordered(desired - current));
    var d2 := Downs(Ordered(desired));
    KeyboardAppend(held, u + d1, d2);
    KeyboardAppend(held, u, d1);
    KeyboardUps(held, Ordered(current - desired));
    KeyboardDowns(Keyboard(held, u), Ordered(desired - current));
    KeyboardDowns(Keyboard(held, u + d1), Ordered(desired));
  }

  /** The centre release: inside the lean dead band a held tap key is let
      go (its release time is not recorded). */
  function CentreRelease(t: Tap, k: Key): (r: (Tap, seq<Action>))
    ensures !r.0.held
    ensures r.1 == (if t.held then [KeyUp(k)] else [])
  {
    if t.held then (t.(held := false), [KeyUp(k)]) else (t, [])
  }

  /** The A tap step runs only when A is not held and the lean is past the
      press threshold but not strong; D is its mirror. */
  predicate TapsA(current: set<Key>, cfg: Config, yaw: real)
  {
    A !in current && yaw < -cfg.lean && !(yaw < -cfg.strong)
  }

  predicate TapsD(current: set<Key>, cfg: Config, yaw: real)
  {
    D !in current && yaw > cfg.lean && !(yaw > cfg.strong)
  }

  /** The tap work for one lean key in an enabled frame: the centre
      release, then the tap step when it applies. On the keyboard, the calls
      either do nothing or leave `k` exactly as the tap now claims it. */
  function LeanTap(t: Tap, cfg: Config, k: Key, centre: bool, taps: bool, now: real): (r: (Tap, seq<Action>))
    ensures centre && !taps ==> !r.0.held
    ensures !centre && !taps ==> r == (t, [])
    ensures forall held: set<Key> {:trigger Keyboard(held, r.1)} ::
      Keyboard(held, r.1) == if r.1 == [] then held else if r.0.held then held + {k} else held - {k}
    ensures r.1 == [] ==> r.0 == t
  {
    var (t0, c) := if centre then CentreRelease(t, k) else (t, []);
    var (t1, s) := if taps then TapStep(t0, cfg, k, now) else (t0, []);
    forall held: set<Key> ensures Keyboard(held, c + s) ==
      if c + s == [] then held else if t1.held then held + {k} else held - {k}
    {
      KeyboardAppend(held, c, s);
    }
    (t1, c + s)
  }

  /** One enabled frame. With `handOver` set, a strong lean takes a lean
      key over from its tap: the tap stops claiming the key that the held
      set now owns (the correction of `UpdateFixed`); without it, the tap
      is left as it was, as the source does. */
  function EnabledFrame(s: State, cfg: Config, yaw: real, pitch: real, now: real, handOver: bool): (r: (State, seq<Action>))
    requires s.current <= Movement
    ensures r.0.current == Desired(s.current, cfg, yaw, pitch)
    ensures -cfg.lean <= yaw <= cfg.lean ==> !r.0.tapA.held && !r.0.tapD.held
  {
    var centre := -cfg.lean <= yaw <= cfg.lean;
    var (ta1, sa) := LeanTap(s.tapA, cfg, A, centre, TapsA(s.current, cfg, yaw), now);
    var (td1, sd) := LeanTap(s.tapD, cfg, D, centre, TapsD(s.current, cfg, yaw), now);
    var desired := Desired(s.current, cfg, yaw, pitch);
    var ta := if handOver && A in desired then ta1.(held := false) else ta1;
    var td := if handOver && D in desired then td1.(held := false) else td1;
    (State(desired, ta, td), sa + sd + Sync(s.current, desired))
  }

  /** Control disabled: release the held keys, then any tap-held lean key. */
  function DisabledFrame(s: State): (r: (State, seq<Action>))
    requires s.current <= Movement
    ensures r.0.current == {} && !r.0.tapA.held && !r.0.tapD.held
    ensures Keyboard(Believed(s), r.1) == {}
  {
    var (s1, ups) := ReleaseAll(s);
    var (ta, ua) := CentreRelease(s.tapA, A);
    var (td, ud) := CentreRelease(s.tapD, D);
    KeyboardAppend(Believed(s), ups, ua + ud);
    KeyboardUps(Believed(s), Ordered(s.current));
    KeyboardAppend(Keyboard(Believed(s), ups), ua, ud);
    (s1.(tapA := ta, tapD := td), ups + (ua + ud))
  }

  /** `WASDController.update`, as written: the new state and the key calls,
      in order. */
  function Update(s: State, cfg: Config, yaw: real, pitch: real, enabled: bool, now: real): (r: (State, seq<Action>))
    requires s.current <= Movement
    ensures r.0.current <= Movement
    ensures !enabled ==> r.0.current == {} && !r.0.tapA.held && !r.0.tapD.held
    ensures !enabled ==> Keyboard(Believed(s), r.1) == {}
    ensures enabled ==> r.0.current == Desired(s.current, cfg, yaw, pitch)
    ensures enabled && -cfg.lean <= yaw <= cfg.lean ==> !r.0.tapA.held && !r.0.tapD.held
    ensures enabled ==> Desired(s.current, cfg, yaw, pitch) <= Keyboard(Believed(s), r.1)
    ensures Keyboard(Believed(s), r.1) <= Believed(r.0)
  {
    if !enabled then DisabledFrame(s)
    else
      EnabledKeyboard(s, cfg, yaw, pitch, now, false);
      EnabledFrame(s, cfg, yaw, pitch, now, false)
  }

  /** The corrected update: as `Update`, but a strong lean takes the lean
      key over from its tap. It keeps every state tracked, so the believed
      keys always match the keyboard. */
  function UpdateFixed(s: State, cfg: Config, yaw: real, pitch: real, enabled: bool, now: real): (r: (State, seq<Action>))
    requires s.current <= Movement
    requires Tracked(s)
    ensures r.0.current <= Movement
    ensures Tracked(r.0)
    ensures Keyboard(Believed(s), r.1) == Believed(r.0)
    ensures !enabled ==> r.0.current == {} && Believed(r.0) == {}
    ensures enabled ==> r.0.current == Desired(s.current, cfg, yaw, pitch)
  {
    if !enabled then DisabledFrame(s)
    else
      EnabledKeyboard(s, cfg, yaw, pitch, now, true);
      EnabledFrame(s, cfg, yaw, pitch, now, true)
  }

  /** The keys a pair of taps claims. */
  function Claims(ta: Tap, td: Tap): set<Key>
  {
    (if ta.held then {A} else {}) + (if td.held then {D} else {})
  }

  /** The tap calls of an enabled frame leave down at most the held set and
      the keys the taps now claim; exactly those from a tracked state, where
      moreover no tap claims a held key. */
  lemma TapsKeyboard(s: State, cfg: Config, yaw: real, now: real)
    ensures
      var centre := -cfg.lean <= yaw <= cfg.lean;
      var (ta1, sa) := LeanTap(s.tapA, cfg, A, centre, TapsA(s.current, cfg, yaw), now);
      var (td1, sd) := LeanTap(s.tapD, cfg, D, centre, TapsD(s.current, cfg, yaw), now);
      var h2 := Keyboard(Believed(s), sa + sd);
      h2 <= s.current + Claims(ta1, td1)
      && (Tracked(s) ==> h2 == s.current + Claims(ta1, td1) && Tracked(State(s.current, ta1, td1)))
  {
    var centre := -cfg.lean <= yaw <= cfg.lean;
    var (ta1, sa) := LeanTap(s.tapA, cfg, A, centre, TapsA(s.current, cfg, yaw), now);
    var (td1, sd) := LeanTap(s.tapD, cfg, D, centre, TapsD(s.current, cfg, yaw), now);
    KeyboardAppend(Believed(s), sa, sd);
    var h1 := Keyboard(Believed(s), sa);
    assert h1 <= s.current + Claims(ta1, s.tapD);
    assert Tracked(s) ==> h1 == s.current + Claims(ta1, s.tapD);
  }

  /** What the key calls of an enabled frame do to the keyboard: leave every
      desired key down and never leave down a key the controller has
      stopped believing in; from a tracked state with the hand-over, leave
      down exactly the believed keys and stay tracked. */
  lemma EnabledKeyboard(s: State, cfg: Config, yaw: real, pitch: real, now: real, handOver: bool)
    requires s.current <= Movement
    ensures var r := EnabledFrame(s, cfg, yaw, pitch, now, handOver);
      Desired(s.current, cfg, yaw, pitch) <= Keyboard(Believed(s), r.1) <= Believed(r.0)
      && (Tracked(s) && handOver ==> Keyboard(Believed(s), r.1) == Believed(r.0) && Tracked(r.0))
  {
    var centre := -cfg.lean <= yaw <= cfg.lean;
    var (ta1, sa) := LeanTap(s.tapA, cfg, A, centre, TapsA(s.current, cfg, yaw), now);
    var (td1, sd) := LeanTap(s.tapD, cfg, D, centre, TapsD(s.current, cfg, yaw), now);
    var desired := Desired(s.current, cfg, yaw, pitch);
    var h2 := Keyboard(Believed(s), sa + sd);
    TapsKeyboard(s, cfg, yaw, now);
    KeyboardAppend(Believed(s), sa + sd, Sync(s.current, desired));
    SyncKeyboard(h2, s.current, desired);
  }

  /** As written, a strong lean while a small-lean tap holds A puts A in
      the held set with the tap still claiming it. When the lean then
      swings right, A is released through the held set, but the tap still
      believes it holds A: the believed keys and the keyboard disagree. */
  lemma StrongLeanDuringTapDesyncs()
    ensures
      var s0 := State({}, Tap(true, 0.0, 10.0), Tap(false, 0.0, 0.0));
      var (s1, a1) := Update(s0, DefaultConfig, -10.0, 0.0, true, 10.5);
      var (s2, a2) := Update(s1, DefaultConfig, 5.0, 0.0, true, 10.6);
      Tracked(s0) && !Tracked(s1)
      && A in s1.current && s1.tapA.held
      && Keyboard(Believed(s1), a2) == {D}
      && Believed(s2) == {A, D}
  {
    var s0 := State({}, Tap(true, 0.0, 10.0), Tap(false, 0.0, 0.0));
    DesyncFirstFrame();
    var s1 := State({A}, s0.tapA, s0.tapD);
    DesyncSecondFrame();
    var a2 := [KeyDown(D), KeyUp(A)];
    assert Keyboard({A}, a2) == Keyboard({A, D}, [KeyUp(A)]) == Keyboard({D}, []);
  }

  /** The strong lean: A joins the held set while the tap keeps its claim. */
  lemma DesyncFirstFrame()
    ensures Update(State({}, Tap(true, 0.0, 10.0), Tap(false, 0.0, 0.0)), DefaultConfig, -10.0, 0.0, true, 10.5).0
         == State({A}, Tap(true, 0.0, 10.0), Tap(false, 0.0, 0.0))
  {
    var cfg := DefaultConfig;
    assert Desired({}, cfg, -10.0, 0.0) == {A};
    assert !TapsA({}, cfg, -10.0) && !TapsD({}, cfg, -10.0);
  }

  /** The swing right: A is released through the held set, D starts a tap,
      and the A tap is left untouched. */
  lemma DesyncSecondFrame()
    ensures Update(State({A}, Tap(true, 0.0, 10.0), Tap(false, 0.0, 0.0)), DefaultConfig, 5.0, 0.0, true, 10.6)
         == (State({}, Tap(true, 0.0, 10.0), Tap(true, 0.0, 10.6)), [KeyDown(D), KeyUp(A)])
  {
    var s1 := State({A}, Tap(true, 0.0, 10.0), Tap(false, 0.0, 0.0));
    var cfg := DefaultConfig;
    assert Desired({A}, cfg, 5.0, 0.0) == {};
    assert LeanTap(s1.tapA, cfg, A, false, false, 10.6) == (s1.tapA, []);
    assert TapsD({A}, cfg, 5.0);
    assert TapStep(s1.tapD, cfg, D, 10.6) == (Tap(true, 0.0, 10.6), [KeyDown(D)]);
    var none: seq<Action> := [];
    assert none + [KeyDown(D)] == [KeyDown(D)];
    assert LeanTap(s1.tapD, cfg, D, false, true, 10.6) == (Tap(true, 0.0, 10.6), [KeyDown(D)]);
    assert Ordered({A} - {}) == [A] && Ordered({}) == [];
    assert Sync({A}, {}) == [KeyUp(A)];
    assert none + [KeyDown(D)] + [KeyUp(A)] == [KeyDown(D), KeyUp(A)];
    assert EnabledFrame(s1, cfg, 5.0, 0.0, 10.6, false)
        == (State({}, s1.tapA, Tap(true, 0.0, 10.6)), [KeyDown(D), KeyUp(A)]);
  }

  /** Opposite keys are never desired together, whatever is held, once the
      thresholds are positive. */
  lemma NeverOpposite(current: set<Key>, cfg: Config, yaw: real, pitch: real)
    requires cfg.lean > 0.0 && cfg.pitchFwd > 0.0 && cfg.pitchBack > 0.0 && cfg.hysteresis > 0.0
    ensures var r := Desired(current, cfg, yaw, pitch);
      !(A in r && D in r) && !(W in r && S in r)
  {
  }

  /** Hysteresis: between a key's release threshold and its press
      threshold, the key keeps its state, held or not. */
  lemma HysteresisBand(current: set<Key>, cfg: Config, yaw: real, pitch: real)
    ensures var r := Desired(current, cfg, yaw, pitch);
      (-cfg.lean <= yaw <= -(cfg.lean * cfg.hysteresis) ==> (A in r <==> A in current))
      && (cfg.lean * cfg.hysteresis <= yaw <= cfg.lean ==> (D in r <==> D in current))
      && (cfg.pitchBack * cfg.hysteresis <= pitch <= cfg.pitchBack ==> (W in r <==> W in current))
      && (-cfg.pitchFwd <= pitch <= -(cfg.pitchFwd * cfg.hysteresis) ==> (S in r <==> S in current))
  {
  }
}
