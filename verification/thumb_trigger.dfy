/** `ThumbShootingController` of backend/leaning_control_system.py: the
    thumb of the gun hand drives the left mouse button, edge-triggered on
    the thumb-down test. The source's `update` is modelled as written
    (`Update`), including its two early returns that skip recording the
    thumb state; `UpdateFixed` is the same controller with the thumb state
    always recorded. */
module ThumbTrigger {
  import opened Prelude
  import opened Actions
  import opened Classifiers

  datatype Trigger = Trigger(isPressed: bool, lastThumbDown: bool)

  const Init := Trigger(false, false)

  /** `force_release`: a `MouseUp` exactly when the button is held. */
  function ForceRelease(t: Trigger): (r: (Trigger, seq<Action>))
    ensures !r.0.isPressed && r.0.lastThumbDown == t.lastThumbDown
    ensures MouseUps(r.1) == (if t.isPressed then 1 else 0) && MouseDowns(r.1) == 0
    ensures |r.1| <= 1
  {
    if t.isPressed then (t.(isPressed := false), [MouseUp]) else (t, [])
  }

  /** Releasing twice emits nothing the second time. */
  lemma ForceReleaseIdempotent(t: Trigger)
    ensures ForceRelease(ForceRelease(t).0) == (ForceRelease(t).0, [])
  {
  }

  /** One frame with the gun active, given the thumb-down reading, exactly
      as the source does it: the press and release branches return before
      `last_thumb_down` is updated. The third component is the "firing"
      flag the source returns. */
  function Step(t: Trigger, thumbDown: bool): (r: (Trigger, seq<Action>, bool))
    ensures r.2 == r.0.isPressed
    ensures |r.1| <= 1
    ensures MouseDown in r.1 <==> thumbDown && !t.lastThumbDown && !t.isPressed
    ensures MouseUp in r.1 <==> !thumbDown && t.lastThumbDown && t.isPressed
    ensures r.1 == [] ==> r.0 == t.(lastThumbDown := thumbDown)
    ensures r.1 != [] ==> r.0.lastThumbDown == t.lastThumbDown
  {
    if thumbDown && !t.lastThumbDown && !t.isPressed then
      (t.(isPressed := true), [MouseDown], true)
    else if !thumbDown && t.lastThumbDown && t.isPressed then
      (t.(isPressed := false), [MouseUp], false)
    else
      (t.(lastThumbDown := thumbDown), [], t.isPressed)
  }

  /** `ThumbShootingController.update`. */
  function Update(t: Trigger, hand: Option<Landmarks>, gunActive: bool): (r: (Trigger, seq<Action>, bool))
    requires gunActive && hand.Some? ==> |hand.value| > ThumbTip
    ensures r.2 == r.0.isPressed
    ensures MouseDowns(r.1) + MouseUps(r.1) == |r.1| <= 1
    ensures MouseDown in r.1 ==> !t.isPressed && gunActive && hand.Some? && IsThumbDown(hand.value)
    ensures MouseUp in r.1 ==> t.isPressed && (!gunActive || hand.None? || !IsThumbDown(hand.value))
    ensures !gunActive || hand.None? ==> !r.0.isPressed && (MouseUp in r.1 <==> t.isPressed)
    ensures Alternates(t.isPressed, r.1) && Replay(t.isPressed, r.1) == r.0.isPressed
  {
    if !gunActive || hand.None? then
      var (t', acts) := ForceRelease(t);
      (t', acts, false)
    else
      Step(t, IsThumbDown(hand.value))
  }

  /** One input to the trigger: a processed frame, or an explicit
      `force_release` from the control loop. */
  datatype Input = Frame(hand: Option<Landmarks>, gunActive: bool) | Release

  predicate ValidInput(i: Input)
  {
    i.Frame? && i.gunActive && i.hand.Some? ==> |i.hand.value| > ThumbTip
  }

  function Apply(t: Trigger, i: Input): (Trigger, seq<Action>)
    requires ValidInput(i)
  {
    match i
    case Frame(hand, gunActive) =>
      var (t', acts, _) := Update(t, hand, gunActive);
      (t', acts)
    case Release => ForceRelease(t)
  }

  function Run(t: Trigger, inputs: seq<Input>): (Trigger, seq<Action>)
    requires forall i :: 0 <= i < |inputs| ==> ValidInput(inputs[i])
    decreases |inputs|
  {
    if inputs == [] then (t, [])
    else
      var (t1, a1) := Apply(t, inputs[0]);
      var (t2, a2) := Run(t1, inputs[1..]);
      (t2, a1 + a2)
  }

  /** The button state a trace of mouse calls leaves behind. */
  function Replay(pressed: bool, acts: seq<Action>): bool
    decreases |acts|
  {
    if acts == [] then pressed
    else if acts[0].MouseDown? then Replay(true, acts[1..])
    else if acts[0].MouseUp? then Replay(false, acts[1..])
    else Replay(pressed, acts[1..])
  }

  /** Every `MouseDown` finds the button up and every `MouseUp` finds it
      down: the button calls strictly alternate. */
  predicate Alternates(pressed: bool, acts: seq<Action>)
    decreases |acts|
  {
    if acts == [] then true
    else if acts[0].MouseDown? then !pressed && Alternates(true, acts[1..])
    else if acts[0].MouseUp? then pressed && Alternates(false, acts[1..])
    else Alternates(pressed, acts[1..])
  }

  lemma {:induction false} AlternatesAppend(p: bool, a: seq<Action>, b: seq<Action>)
    ensures Alternates(p, a + b) <==> Alternates(p, a) && Alternates(Replay(p, a), b)
    ensures Replay(p, a + b) == Replay(Replay(p, a), b)
    decreases |a|
  {
    if a == [] {
      assert a + b == b;
    } else {
      assert (a + b)[1..] == a[1..] + b;
      var p' := if a[0].MouseDown? then true else if a[0].MouseUp? then false else p;
      AlternatesAppend(p', a[1..], b);
    }
  }

  /** Over any sequence of frames and forced releases, the button calls
      alternate, starting from the initial button state and ending in the
      final one: the controller never sends two downs or two ups in a row. */
  lemma {:induction false} RunAlternates(t: Trigger, inputs: seq<Input>)
    requires forall i :: 0 <= i < |inputs| ==> ValidInput(inputs[i])
    ensures Alternates(t.isPressed, Run(t, inputs).1)
    ensures Replay(t.isPressed, Run(t, inputs).1) == Run(t, inputs).0.isPressed
    decreases |inputs|
  {
    if inputs != [] {
      var (t1, a1) := Apply(t, inputs[0]);
      RunAlternates(t1, inputs[1..]);
      AlternatesAppend(t.isPressed, a1, Run(t1, inputs[1..]).1);
    }
  }

  /** In an alternating trace, downs minus ups is the change of button state. */
  lemma {:induction false} AlternatingBalance(p: bool, acts: seq<Action>)
    requires Alternates(p, acts)
    ensures MouseDowns(acts) + (if p then 1 else 0) == MouseUps(acts) + (if Replay(p, acts) then 1 else 0)
    decreases |acts|
  {
    if acts != [] {
      var p' := if acts[0].MouseDown? then true else if acts[0].MouseUp? then false else p;
      AlternatingBalance(p', acts[1..]);
    }
  }

  /** From the initial trigger, `MouseDown`s minus `MouseUp`s is always 0 or
      1 and equals `is_pressed`. */
  lemma RunBalanced(inputs: seq<Input>)
    requires forall i :: 0 <= i < |inputs| ==> ValidInput(inputs[i])
    ensures MouseDowns(Run(Init, inputs).1) - MouseUps(Run(Init, inputs).1)
         == (if Run(Init, inputs).0.isPressed then 1 else 0)
  {
    RunAlternates(Init, inputs);
    AlternatingBalance(false, Run(Init, inputs).1);
  }

  // ---------------------------------------------------------------------
  // The stale thumb state
  // ---------------------------------------------------------------------

  /** `n` further gun-active frames with the thumb up. */
  function ThumbUpFrames(t: Trigger, n: nat): (Trigger, seq<Action>)
    decreases n
  {
    if n == 0 then (t, [])
    else
      var (t1, a1, _) := Step(t, false);
      var (t2, a2) := ThumbUpFrames(t1, n - 1);
      (t2, a1 + a2)
  }

  lemma {:induction false} StuckStaysStuck(t: Trigger, n: nat)
    requires t.isPressed && !t.lastThumbDown
    ensures ThumbUpFrames(t, n) == (t, [])
    decreases n
  {
    if n > 0 {
      assert Step(t, false) == (t, [], true);
      StuckStaysStuck(t, n - 1);
      var none: seq<Action> := [];
      assert none + none == none;
    }
  }

  /** As written, a thumb tap lasting one frame presses the button and the
      thumb then coming back up does not release it: after the press the
      recorded thumb state is still "up", so no down-to-up edge is ever
      seen, and the button stays down for any number of thumb-up frames. */
  lemma OneFrameTapSticks(n: nat)
    ensures Step(Init, true) == (Trigger(true, false), [MouseDown], true)
    ensures ThumbUpFrames(Trigger(true, false), n) == (Trigger(true, false), [])
  {
    StuckStaysStuck(Trigger(true, false), n);
  }

  /** The evidently intended step: the thumb state is recorded on every
      frame, including the frames that press or release. */
  function StepFixed(t: Trigger, thumbDown: bool): (r: (Trigger, seq<Action>, bool))
    ensures r.2 == r.0.isPressed
    ensures r.0.lastThumbDown == thumbDown
    ensures MouseDown in r.1 <==> thumbDown && !t.lastThumbDown && !t.isPressed
    ensures MouseUp in r.1 <==> !thumbDown && t.lastThumbDown && t.isPressed
  {
    if thumbDown && !t.lastThumbDown && !t.isPressed then
      (Trigger(true, thumbDown), [MouseDown], true)
    else if !thumbDown && t.lastThumbDown && t.isPressed then
      (Trigger(false, thumbDown), [MouseUp], false)
    else
      (t.(lastThumbDown := thumbDown), [], t.isPressed)
  }

  /** The invariant the corrected controller keeps: the button is only
      held while the last recorded thumb state is "down". */
  predicate Consistent(t: Trigger)
  {
    t.isPressed ==> t.lastThumbDown
  }

  /** Corrected `update`: from a consistent state, the button is held after
      a frame only if the thumb is down in that frame, so it can never stay
      pressed with the thumb up. */
  function UpdateFixed(t: Trigger, hand: Option<Landmarks>, gunActive: bool): (r: (Trigger, seq<Action>, bool))
    requires gunActive && hand.Some? ==> |hand.value| > ThumbTip
    requires Consistent(t)
    ensures Consistent(r.0)
    ensures r.2 == r.0.isPressed
    ensures r.0.isPressed ==> gunActive && hand.Some? && IsThumbDown(hand.value)
    ensures MouseDown in r.1 ==> !t.isPressed
    ensures MouseUp in r.1 ==> t.isPressed
  {
    if !gunActive || hand.None? then
      var (t', acts) := ForceRelease(t);
      (t', acts, false)
    else
      StepFixed(t, IsThumbDown(hand.value))
  }

  /** With the fix, the one-frame tap of `OneFrameTapSticks` is released
      on the very next thumb-up frame. */
  lemma FixedTapReleases()
    ensures StepFixed(Init, true) == (Trigger(true, true), [MouseDown], true)
    ensures StepFixed(Trigger(true, true), false) == (Trigger(false, false), [MouseUp], false)
  {
  }
}
