/** The session state the control loop `run` of
    backend/leaning_control_system.py keeps between frames: the control
    toggle, the mouse sensitivity and the controllers the right hand
    drives. Key codes are the low byte `waitKey` returns. */
module Session {
  import opened Prelude
  import opened Actions
  import opened Classifiers
  import StickyGun
  import ThumbTrigger
  import Cursor
  import Wasd

  datatype Session = Session(
    enabled: bool,
    sensitivity: real,
    gun: StickyGun.Detector,
    trigger: ThumbTrigger.Trigger,
    cursor: Cursor.Cursor,
    wasd: Wasd.State)

  const MinSensitivity: real := 0.1
  const MaxSensitivity: real := 1.0
  const SensitivityStep: real := 0.1
  /** The mouse multiplier is the sensitivity times this. */
  const MouseScale: real := 2.5
  const InitialSensitivity: real := 0.5

  const KeyQuit := 113      // 'q'
  const KeyEscape := 27
  const KeyToggle := 103    // 'g'
  const KeyPlus := 43       // '+'
  const KeyEquals := 61     // '='
  const KeyMinus := 45      // '-'
  const KeyUnderscore := 95 // '_'

  /** The session as `__init__` leaves it: control off, sensitivity 0.5 and
      the mouse multiplier set from it. */
  function Init(): (r: Session)
    ensures Valid(r)
  {
    Session(false, InitialSensitivity, StickyGun.Init(StickyGun.DefaultGracePeriod),
            ThumbTrigger.Init, Cursor.Init(InitialSensitivity * MouseScale), Wasd.Init)
  }

  /** What the loop maintains: the sensitivity in range, the mouse
      multiplier derived from it, only movement keys held, and the mouse
      button held only while control is on and the gun is locked. */
  predicate Valid(s: Session)
  {
    MinSensitivity <= s.sensitivity <= MaxSensitivity
    && s.cursor.sensitivity == s.sensitivity * MouseScale
    && s.wasd.current <= Wasd.Movement
    && (s.trigger.isPressed ==> s.enabled && s.gun.isLocked)
  }

  /** Set the sensitivity and, with it, the mouse multiplier: a session the
      loop maintains stays one, and only the sensitivity and the cursor's
      multiplier move. */
  function SetSensitivity(s: Session, v: real): (r: Session)
    requires Valid(s) && MinSensitivity <= v <= MaxSensitivity
    ensures Valid(r)
    ensures r.sensitivity == v
    ensures r.enabled == s.enabled && r.gun == s.gun && r.trigger == s.trigger && r.wasd == s.wasd
    ensures r.cursor == s.cursor.(sensitivity := r.cursor.sensitivity)
  {
    s.(sensitivity := v, cursor := s.cursor.(sensitivity := v * MouseScale))
  }

  /** One key from the loop's keyboard poll: the new session, the input
      actions it causes, and whether the loop quits. */
  function HandleKey(s: Session, key: int): (r: (Session, seq<Action>, bool))
    requires Valid(s)
    ensures Valid(r.0)
    ensures r.2 <==> key == KeyQuit || key == KeyEscape
    ensures key == KeyToggle ==> r.0.enabled == !s.enabled
    ensures key != KeyToggle ==> r.0.enabled == s.enabled
    ensures key == KeyToggle && s.enabled ==>
      !r.0.trigger.isPressed && r.0.wasd.current == {}
      && MouseUps(r.1) == (if s.trigger.isPressed then 1 else 0) && MouseDowns(r.1) == 0
      && Keyboard(s.wasd.current, r.1) == {}
    ensures key == KeyPlus || key == KeyEquals ==>
      r.0.sensitivity == Min(MaxSensitivity, s.sensitivity + SensitivityStep)
    ensures key == KeyMinus || key == KeyUnderscore ==>
      r.0.sensitivity == Max(MinSensitivity, s.sensitivity - SensitivityStep)
    ensures key != KeyToggle ==> r.1 == []
    ensures key !in {KeyToggle, KeyPlus, KeyEquals, KeyMinus, KeyUnderscore} ==> r.0 == s
  {
    if key == KeyQuit || key == KeyEscape then (s, [], true)
    else if key == KeyToggle then
      if s.enabled then
        var (t, up) := ThumbTrigger.ForceRelease(s.trigger);
        var (w, ups) := Wasd.ReleaseAll(s.wasd);
        KeyCallsOnly(ups);
        assert Keyboard(s.wasd.current, up) == s.wasd.current;
        MouseUpsAppend(up, ups);
        MouseDownsAppend(up, ups);
        KeyboardAppend(s.wasd.current, up, ups);
        (s.(enabled := false, trigger := t, wasd := w), up + ups, false)
      else
        (s.(enabled := true), [], false)
    else if key == KeyPlus || key == KeyEquals then
      (SetSensitivity(s, Min(MaxSensitivity, s.sensitivity + SensitivityStep)), [], false)
    else if key == KeyMinus || key == KeyUnderscore then
      (SetSensitivity(s, Max(MinSensitivity, s.sensitivity - SensitivityStep)), [], false)
    else (s, [], false)
  }

  function Min(x: real, y: real): (r: real)
    ensures r <= x && r <= y && (r == x || r == y)
  {
    if x <= y then x else y
  }

  /** The right-hand part of one frame: with control on, the gun detector
      sees the hand; a locked gun drives the trigger and feeds the cursor,
      an unlocked one releases the button. With control off the button is
      released and the lock cleared. No right hand: nothing happens. */
  function RightHandFrame(s: Session, ext: FingerTest, right: Option<Landmarks>): (r: (Session, seq<Action>))
    requires Valid(s)
    requires right.Some? ==> |right.value| >= HandPoints
    ensures Valid(r.0)
    ensures right.None? ==> r == (s, [])
    ensures r.0.enabled == s.enabled && r.0.sensitivity == s.sensitivity && r.0.wasd == s.wasd
    ensures s.cursor.running ==> r.0.cursor.running
    ensures !r.0.gun.isLocked ==> MouseDowns(r.1) == 0
    ensures right.Some? && !s.enabled ==> !r.0.gun.isLocked && r.0.cursor == s.cursor
  {
    match right
    case None => (s, [])
    case Some(h) =>
      if s.enabled then
        var (gun, active) := StickyGun.Update(s.gun, ext, Some(h));
        if active then
          var (t, acts, _) := ThumbTrigger.Update(s.trigger, Some(h), true);
          (s.(gun := gun, trigger := t, cursor := Cursor.Sample(s.cursor, Some(h), true)), acts)
        else
          var (t, acts) := ThumbTrigger.ForceRelease(s.trigger);
          (s.(gun := gun, trigger := t), acts)
      else
        var (t, acts) := ThumbTrigger.ForceRelease(s.trigger);
        (s.(gun := StickyGun.ResetOnDisable(s.gun), trigger := t), acts)
  }

  /** The sensitivity keys keep the sensitivity in [0.1, 1.0] and the mouse
      multiplier at 2.5 times it, over any sequence of keys. */
  lemma {:induction false} KeysKeepSensitivity(s: Session, keys: seq<int>)
    requires Valid(s)
    ensures Valid(Keys(s, keys))
    ensures MinSensitivity <= Keys(s, keys).sensitivity <= MaxSensitivity
    ensures Keys(s, keys).cursor.sensitivity == Keys(s, keys).sensitivity * MouseScale
    decreases |keys|
  {
    if keys != [] {
      KeysKeepSensitivity(HandleKey(s, keys[0]).0, keys[1..]);
    }
  }

  /** A sequence of keys, one per frame (the quit flag is ignored). */
  function Keys(s: Session, keys: seq<int>): Session
    requires Valid(s)
    decreases |keys|
  {
    if keys == [] then s else Keys(HandleKey(s, keys[0]).0, keys[1..])
  }

  /** Once started, the cursor thread is never stopped by the control loop:
      the loop feeds the cursor only while the gun is active, so losing the
      gun or the hand leaves the thread running and its pending target
      draining. */
  lemma {:induction false} LoopNeverStopsCursor(s: Session, ext: FingerTest, hands: seq<Option<Landmarks>>)
    requires Valid(s) && s.cursor.running
    requires forall i :: 0 <= i < |hands| ==> hands[i].Some? ==> |hands[i].value| >= HandPoints
    ensures Frames(s, ext, hands).cursor.running
    decreases |hands|
  {
    if hands != [] {
      LoopNeverStopsCursor(RightHandFrame(s, ext, hands[0]).0, ext, hands[1..]);
    }
  }

  /** A sequence of right-hand frames. */
  function Frames(s: Session, ext: FingerTest, hands: seq<Option<Landmarks>>): Session
    requires Valid(s)
    requires forall i :: 0 <= i < |hands| ==> hands[i].Some? ==> |hands[i].value| >= HandPoints
    decreases |hands|
  {
    if hands == [] then s else Frames(RightHandFrame(s, ext, hands[0]).0, ext, hands[1..])
  }
}
