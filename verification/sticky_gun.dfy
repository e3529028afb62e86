/** `StickyGunDetector` of backend/leaning_control_system.py: a latched
    gun lock. Entering it needs the full gun pose; keeping it needs only
    the rotation-robust bottom-fingers-curled test; frames without a hand
    are tolerated for a grace period while locked. */
module StickyGun {
  import opened Prelude
  import opened Classifiers

  datatype Detector = Detector(
    isLocked: bool,
    lockFrames: nat,
    gracePeriod: nat,
    framesWithoutHand: nat)

  const DefaultGracePeriod: nat := 30

  function Init(gracePeriod: nat): Detector
  {
    Detector(false, 0, gracePeriod, 0)
  }

  /** A frame in which no hand was seen. */
  function NoHandStep(d: Detector): (r: (Detector, bool))
    ensures r.1 == r.0.isLocked
    ensures r.0.gracePeriod == d.gracePeriod
    ensures !d.isLocked ==> r.0 == d.(framesWithoutHand := 0)
    ensures d.isLocked && d.framesWithoutHand < d.gracePeriod ==>
      r.0 == d.(framesWithoutHand := d.framesWithoutHand + 1)
    ensures d.isLocked && d.framesWithoutHand >= d.gracePeriod ==>
      r.0 == Init(d.gracePeriod)
  {
    if d.isLocked then
      var missed := d.framesWithoutHand + 1;
      if missed > d.gracePeriod then (Init(d.gracePeriod), false)
      else (d.(framesWithoutHand := missed), true)
    else
      (d.(framesWithoutHand := 0), false)
  }

  /** A frame with a hand: an unlocked detector locks on the gun pose; a
      locked one stays locked exactly while the bottom fingers stay curled. */
  function HandStep(d: Detector, ext: FingerTest, h: Landmarks): (r: (Detector, bool))
    requires |h| >= HandPoints
    ensures r.1 == r.0.isLocked
    ensures r.0.gracePeriod == d.gracePeriod
    ensures r.0.framesWithoutHand == 0
    ensures !d.isLocked ==> (r.0.isLocked <==> IsGunGesture(ext, Some(h)))
    ensures d.isLocked ==> (r.0.isLocked <==> BottomFingersCurled(h))
    ensures r.0.isLocked && !d.isLocked ==> r.0.lockFrames == 0
    ensures r.0.isLocked && d.isLocked ==> r.0.lockFrames == d.lockFrames + 1
    ensures !r.0.isLocked && d.isLocked ==> r.0.lockFrames == 0
    ensures !r.0.isLocked && !d.isLocked ==> r.0.lockFrames == d.lockFrames
  {
    var d1 := d.(framesWithoutHand := 0);
    if !d1.isLocked then
      if IsGunGesture(ext, Some(h)) then (d1.(isLocked := true, lockFrames := 0), true)
      else (d1, false)
    else
      var d2 := d1.(lockFrames := d1.lockFrames + 1);
      if !BottomFingersCurled(h) then (d2.(isLocked := false, lockFrames := 0), false)
      else (d2, true)
  }

  /** `StickyGunDetector.update`: returns the new detector and whether the
      gun is active this frame. */
  function Update(d: Detector, ext: FingerTest, hand: Option<Landmarks>): (r: (Detector, bool))
    requires hand.Some? ==> |hand.value| >= HandPoints
    ensures r.1 == r.0.isLocked
    ensures hand.Some? || !d.isLocked ==> r.0.framesWithoutHand == 0
    ensures r.0.isLocked && !d.isLocked ==> IsGunGesture(ext, hand)
    ensures !r.0.isLocked && d.isLocked && hand.Some? ==> !BottomFingersCurled(hand.value)
    ensures !r.0.isLocked && d.isLocked && hand.None? ==> r.0 == Init(d.gracePeriod)
  {
    match hand
    case None => NoHandStep(d)
    case Some(h) => HandStep(d, ext, h)
  }

  /** `n` consecutive frames without a hand. */
  function NoHandFrames(d: Detector, n: nat): Detector
    decreases n
  {
    if n == 0 then d else NoHandFrames(NoHandStep(d).0, n - 1)
  }

  /** While the dropout counter stays within the grace period, the lock
      holds and the counter advances by one per missing frame. */
  lemma {:induction false} GracePeriodHolds(d: Detector, n: nat)
    requires d.isLocked
    requires d.framesWithoutHand + n <= d.gracePeriod
    ensures NoHandFrames(d, n) == d.(framesWithoutHand := d.framesWithoutHand + n)
    decreases n
  {
    if n > 0 {
      var d' := NoHandStep(d).0;
      assert d' == d.(framesWithoutHand := d.framesWithoutHand + 1);
      GracePeriodHolds(d', n - 1);
    }
  }

  /** Dropout from a freshly seen locked hand: `gracePeriod` missing frames
      keep the lock, and one more releases it and clears the counters. */
  lemma GracePeriodExpires(d: Detector)
    requires d.isLocked && d.framesWithoutHand == 0
    ensures NoHandFrames(d, d.gracePeriod).isLocked
    ensures NoHandFrames(d, d.gracePeriod + 1) == Init(d.gracePeriod)
  {
    GracePeriodHolds(d, d.gracePeriod);
    NoHandFramesSplit(d, d.gracePeriod);
  }

  lemma {:induction false} NoHandFramesSplit(d: Detector, n: nat)
    ensures NoHandFrames(d, n + 1) == NoHandStep(NoHandFrames(d, n)).0
    decreases n
  {
    if n > 0 {
      NoHandFramesSplit(NoHandStep(d).0, n - 1);
    }
  }

  /** While unlocked, any run of missing frames leaves the detector
      unlocked with its dropout counter at zero. */
  lemma {:induction false} UnlockedStaysUnlocked(d: Detector, n: nat)
    requires !d.isLocked
    requires n > 0
    ensures NoHandFrames(d, n) == d.(framesWithoutHand := 0)
    decreases n
  {
    if n > 1 {
      UnlockedStaysUnlocked(NoHandStep(d).0, n - 1);
    }
  }

  /** The control loop's reset when control is disabled while a right hand
      is visible: unlock and clear the lock-frame count, leaving the
      dropout counter as it was. */
  function ResetOnDisable(d: Detector): (r: Detector)
    ensures !r.isLocked && r.lockFrames == 0
    ensures r.framesWithoutHand == d.framesWithoutHand && r.gracePeriod == d.gracePeriod
  {
    d.(isLocked := false, lockFrames := 0)
  }
}
