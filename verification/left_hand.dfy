/** `LeftHandGestureController` of backend/leaning_control_system.py: the
    left hand's finger count becomes single presses of ctrl (crouch) or
    space (jump), at most one per change of gesture and never two within
    the debounce interval. The wall clock is a parameter. */
module LeftHand {
  import opened Prelude
  import opened Actions
  import opened Classifiers

  datatype Gate = Gate(lastGesture: Option<LeftGesture>, lastTime: real)

  const Init := Gate(None, 0.0)

  /** Seconds that must pass between two presses. */
  const Debounce: real := 0.1

  /** The key a pressed gesture stands for, recovered from the state. */
  function LastKey(g: Gate): Option<Key>
  {
    match g.lastGesture
    case Some(OneDown) => Some(Ctrl)
    case Some(FourDown) => Some(Space)
    case _ => None
  }

  /** `LeftHandGestureController.update` at time `now`. */
  function Update(g: Gate, ext: FingerTest, hand: Option<Landmarks>, enabled: bool, now: real): (r: (Gate, seq<Action>))
    ensures r.1 == [] ==> r.0 == g
    ensures r.1 != [] ==>
      enabled && hand.Some? && DetectLeftHand(ext, hand.value).1.Some?
      && var k := DetectLeftHand(ext, hand.value).1.value;
         r.1 == [Press(k)] && LastKey(r.0) == Some(k) && LastKey(g) != Some(k)
         && r.0.lastTime == now && now - g.lastTime > Debounce
    ensures r.1 != [] <==>
      enabled && hand.Some? && DetectLeftHand(ext, hand.value).1.Some?
      && Some(DetectLeftHand(ext, hand.value).0) != g.lastGesture
      && now - g.lastTime > Debounce
  {
    if !enabled || hand.None? then (g, [])
    else
      var (gesture, key) := DetectLeftHand(ext, hand.value);
      if gesture == Invalid then (g, [])
      else if key.Some? && Some(gesture) != g.lastGesture then
        if now - g.lastTime > Debounce then (Gate(Some(gesture), now), [Press(key.value)])
        else (g, [])
      else (g, [])
  }

  /** One left-hand frame: the hand (if any), whether control is enabled,
      and the clock reading. */
  datatype Frame = Frame(hand: Option<Landmarks>, enabled: bool, now: real)

  function Run(g: Gate, ext: FingerTest, frames: seq<Frame>): (Gate, seq<Action>)
    decreases |frames|
  {
    if frames == [] then (g, [])
    else
      var f := frames[0];
      var (g1, a1) := Update(g, ext, f.hand, f.enabled, f.now);
      var (g2, a2) := Run(g1, ext, frames[1..]);
      (g2, a1 + a2)
  }

  /** Every action is a press, and no press repeats the key of the press
      before it (`last` is the key pressed before the trace began). */
  predicate NoRepeat(last: Option<Key>, acts: seq<Action>)
    decreases |acts|
  {
    if acts == [] then true
    else acts[0].Press? && Some(acts[0].key) != last && NoRepeat(Some(acts[0].key), acts[1..])
  }

  /** The key of the last press in a trace, or `last` if there is none. */
  function LastPressed(last: Option<Key>, acts: seq<Action>): Option<Key>
    decreases |acts|
  {
    if acts == [] then last
    else LastPressed(if acts[0].Press? then Some(acts[0].key) else last, acts[1..])
  }

  lemma {:induction false} NoRepeatAppend(last: Option<Key>, a: seq<Action>, b: seq<Action>)
    ensures NoRepeat(last, a + b) <==> NoRepeat(last, a) && NoRepeat(LastPressed(last, a), b)
    ensures LastPressed(last, a + b) == LastPressed(LastPressed(last, a), b)
    decreases |a|
  {
    if a == [] {
      assert a + b == b;
    } else {
      assert (a + b)[1..] == a[1..] + b;
      NoRepeatAppend(if a[0].Press? then Some(a[0].key) else last, a[1..], b);
    }
  }

  /** Over any sequence of frames, the controller never presses the same key
      twice in a row: crouch and jump presses strictly alternate. */
  lemma {:induction false} RunNeverRepeats(g: Gate, ext: FingerTest, frames: seq<Frame>)
    ensures NoRepeat(LastKey(g), Run(g, ext, frames).1)
    ensures LastPressed(LastKey(g), Run(g, ext, frames).1) == LastKey(Run(g, ext, frames).0)
    decreases |frames|
  {
    if frames != [] {
      var f := frames[0];
      var (g1, a1) := Update(g, ext, f.hand, f.enabled, f.now);
      RunNeverRepeats(g1, ext, frames[1..]);
      NoRepeatAppend(LastKey(g), a1, Run(g1, ext, frames[1..]).1);
    }
  }

  /** A trace of presses of one key that never repeats holds at most one. */
  lemma SameKeyAtMostOnce(last: Option<Key>, acts: seq<Action>, k: Key)
    requires NoRepeat(last, acts)
    requires forall i :: 0 <= i < |acts| ==> acts[i] == Press(k)
    ensures |acts| <= 1
  {
  }

  /** Hence, in any run whose detected gestures all map to one key (holding
      a gesture, or leaving it only for the unknown gesture and coming
      back), the controller jumps or crouches at most once. */
  lemma OneGestureOnePress(g: Gate, ext: FingerTest, frames: seq<Frame>, k: Key)
    requires forall i :: 0 <= i < |frames| ==> frames[i].hand.Some? ==>
      DetectLeftHand(ext, frames[i].hand.value).1 != Some(if k == Ctrl then Space else Ctrl)
    requires k == Ctrl || k == Space
    ensures |Run(g, ext, frames).1| <= 1
  {
    RunNeverRepeats(g, ext, frames);
    OnlyKeyPressed(g, ext, frames, k);
    SameKeyAtMostOnce(LastKey(g), Run(g, ext, frames).1, k);
  }

  lemma {:induction false} OnlyKeyPressed(g: Gate, ext: FingerTest, frames: seq<Frame>, k: Key)
    requires forall i :: 0 <= i < |frames| ==> frames[i].hand.Some? ==>
      DetectLeftHand(ext, frames[i].hand.value).1 != Some(if k == Ctrl then Space else Ctrl)
    requires k == Ctrl || k == Space
    ensures forall i :: 0 <= i < |Run(g, ext, frames).1| ==> Run(g, ext, frames).1[i] == Press(k)
    decreases |frames|
  {
    if frames != [] {
      var f := frames[0];
      var (g1, a1) := Update(g, ext, f.hand, f.enabled, f.now);
      OnlyKeyPressed(g1, ext, frames[1..], k);
      var a2 := Run(g1, ext, frames[1..]).1;
      assert Run(g, ext, frames).1 == a1 + a2;
      if a1 != [] {
        assert a1 == [Press(k)];
      }
    }
  }
}
