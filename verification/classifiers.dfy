/** The geometric classifiers of backend/leaning_control_system.py: pure
    functions from one frame's landmark snapshot to a gesture signal.
    Coordinates are MediaPipe's normalised image coordinates (y grows
    downward). The angle test `is_finger_extended` is supplied by the
    caller as `ext`; distances are compared squared instead of through a
    square root, and lemmas below show the two readings agree. */
module Classifiers {
  import opened Prelude
  import opened Actions

  datatype Point = Point(x: real, y: real)

  /** The landmark list of one tracked hand, face or body. */
  type Landmarks = seq<Point>

  /** A full hand from the detector carries 21 points. */
  const HandPoints := 21

  /** `is_finger_extended(landmarks, tip, pip, mcp)`: the PIP-angle test,
      which uses arccos and is left to the caller. */
  type FingerTest = (Landmarks, nat, nat, nat) -> bool

  /** Hand landmark indices used below (MediaPipe hand model). */
  const Wrist := 0
  const ThumbIp := 3
  const ThumbTip := 4
  const IndexTip := 8
  const MiddleMcp := 9
  const MiddleTip := 12
  const RingMcp := 13
  const RingTip := 16
  const PinkyMcp := 17
  const PinkyTip := 20

  /** Squared Euclidean distance in the image plane. */
  function Dist2(p: Point, q: Point): (r: real)
    ensures r >= 0.0
  {
    (p.x - q.x) * (p.x - q.x) + (p.y - q.y) * (p.y - q.y)
  }

  // ---------------------------------------------------------------------
  // Bottom fingers curled (rotation-robust test)
  // ---------------------------------------------------------------------

  /** 1.8 squared: `tip_dist < mcp_dist * 1.8` compared without roots. */
  const CurlRatioSquared := 3.24

  predicate FingerCurled(h: Landmarks, tip: nat, mcp: nat)
    requires tip < |h| && mcp < |h| && Wrist < |h|
  {
    Dist2(h[tip], h[Wrist]) < CurlRatioSquared * Dist2(h[mcp], h[Wrist])
  }

  function CurledCount(h: Landmarks): (n: nat)
    requires |h| >= HandPoints
    ensures n <= 3
  {
    (if FingerCurled(h, MiddleTip, MiddleMcp) then 1 else 0)
    + (if FingerCurled(h, RingTip, RingMcp) then 1 else 0)
    + (if FingerCurled(h, PinkyTip, PinkyMcp) then 1 else 0)
  }

  /** `are_bottom_fingers_curled`: at least two of middle, ring and pinky. */
  predicate BottomFingersCurled(h: Landmarks)
    requires |h| >= HandPoints
  {
    CurledCount(h) >= 2
  }

  /** Counting to two is the same as some pair being curled. */
  lemma BottomCurledPairs(h: Landmarks)
    requires |h| >= HandPoints
    ensures
      var m := FingerCurled(h, MiddleTip, MiddleMcp);
      var g := FingerCurled(h, RingTip, RingMcp);
      var p := FingerCurled(h, PinkyTip, PinkyMcp);
      BottomFingersCurled(h) <==> (m && g) || (m && p) || (g && p)
  {
  }

  /** For non-negative distances, `dt < dm * 1.8` holds exactly when the
      squared comparison does. */
  lemma CurlBySquares(dt: real, dm: real)
    requires dt >= 0.0 && dm >= 0.0
    ensures dt < dm * 1.8 <==> dt * dt < CurlRatioSquared * (dm * dm)
  {
    var e := dm * 1.8;
    assert e * e == CurlRatioSquared * (dm * dm);
    if dt < e {
      MulStrict(dt, e, dt, e);
    } else {
      MulMono(e, dt, e, dt);
    }
  }

  /** Products of non-negative reals grow with their factors. */
  lemma MulMono(a: real, b: real, c: real, d: real)
    requires 0.0 <= a <= b && 0.0 <= c <= d
    ensures a * c <= b * d
  {
    assert a * c <= b * c;
    assert b * c <= b * d;
  }

  lemma MulStrict(a: real, b: real, c: real, d: real)
    requires 0.0 <= a < b && 0.0 <= c < d
    ensures a * c < b * d
  {
    assert a * c <= b * c;
    assert b * c < b * d;
  }

  /** The squared test agrees with the source's square-root distances,
      whatever non-negative roots the floating-point `** 0.5` produces. */
  lemma FingerCurledByDistance(h: Landmarks, tip: nat, mcp: nat, dt: real, dm: real)
    requires tip < |h| && mcp < |h| && Wrist < |h|
    requires dt >= 0.0 && dm >= 0.0
    requires dt * dt == Dist2(h[tip], h[Wrist])
    requires dm * dm == Dist2(h[mcp], h[Wrist])
    ensures FingerCurled(h, tip, mcp) <==> dt < dm * 1.8
  {
    CurlBySquares(dt, dm);
  }

  /** A similarity of the image plane: rotate and scale by the matrix
      [[c, -s], [s, c]], then translate by (ox, oy). With c^2 + s^2 = 1 it
      is a rotation. */
  function RotatedPoint(p: Point, c: real, s: real, ox: real, oy: real): Point
  {
    Point(ox + c * p.x - s * p.y, oy + s * p.x + c * p.y)
  }

  function Rotated(h: Landmarks, c: real, s: real, ox: real, oy: real): (r: Landmarks)
    ensures |r| == |h|
    ensures forall i :: 0 <= i < |h| ==> r[i] == RotatedPoint(h[i], c, s, ox, oy)
  {
    seq(|h|, i requires 0 <= i < |h| => RotatedPoint(h[i], c, s, ox, oy))
  }

  /** The factor a similarity applies to squared distances. */
  function Scale(c: real, s: real): real
  {
    c * c + s * s
  }

  /** A similarity multiplies every squared distance by c^2 + s^2. */
  lemma RotationScalesDist2(p: Point, q: Point, c: real, s: real, ox: real, oy: real)
    ensures Dist2(RotatedPoint(p, c, s, ox, oy), RotatedPoint(q, c, s, ox, oy))
         == Scale(c, s) * Dist2(p, q)
  {
    var dx := p.x - q.x;
    var dy := p.y - q.y;
    var p' := RotatedPoint(p, c, s, ox, oy);
    var q' := RotatedPoint(q, c, s, ox, oy);
    assert p'.x - q'.x == c * dx - s * dy;
    assert p'.y - q'.y == s * dx + c * dy;
    assert (c * dx - s * dy) * (c * dx - s * dy) + (s * dx + c * dy) * (s * dx + c * dy)
        == (c * c + s * s) * (dx * dx + dy * dy);
  }

  lemma FingerCurledRotated(h: Landmarks, tip: nat, mcp: nat, c: real, s: real, ox: real, oy: real)
    requires tip < |h| && mcp < |h| && Wrist < |h|
    requires c * c + s * s == 1.0
    ensures FingerCurled(Rotated(h, c, s, ox, oy), tip, mcp) == FingerCurled(h, tip, mcp)
  {
    var g := Rotated(h, c, s, ox, oy);
    RotationScalesDist2(h[tip], h[Wrist], c, s, ox, oy);
    RotationScalesDist2(h[mcp], h[Wrist], c, s, ox, oy);
    assert Dist2(g[tip], g[Wrist]) == Dist2(h[tip], h[Wrist]);
    assert Dist2(g[mcp], g[Wrist]) == Dist2(h[mcp], h[Wrist]);
  }

  /** The "rotation-proof" promise of `are_bottom_fingers_curled`: turning
      the hand by any angle (cos c, sin s) about any point, or moving it in
      the image, never changes its verdict. */
  lemma BottomCurledIsRotationProof(h: Landmarks, c: real, s: real, ox: real, oy: real)
    requires |h| >= HandPoints
    requires c * c + s * s == 1.0
    ensures BottomFingersCurled(Rotated(h, c, s, ox, oy)) == BottomFingersCurled(h)
  {
    FingerCurledRotated(h, MiddleTip, MiddleMcp, c, s, ox, oy);
    FingerCurledRotated(h, RingTip, RingMcp, c, s, ox, oy);
    FingerCurledRotated(h, PinkyTip, PinkyMcp, c, s, ox, oy);
  }

  // ---------------------------------------------------------------------
  // Gun gesture, thumb, left hand
  // ---------------------------------------------------------------------

  /** `is_gun_gesture`: index extended, middle, ring and pinky not; no hand
      is no gun. */
  function IsGunGesture(ext: FingerTest, hand: Option<Landmarks>): (r: bool)
    requires hand.Some? ==> |hand.value| >= HandPoints
    ensures hand.None? ==> !r
    ensures r <==> hand.Some? && ext(hand.value, 8, 6, 5)
                   && FingersDown(ext, hand.value) == (if ext(hand.value, 4, 3, 2) then 3 else 4)
  {
    match hand
    case None => false
    case Some(h) =>
      ext(h, 8, 6, 5) && !ext(h, 12, 10, 9) && !ext(h, 16, 14, 13) && !ext(h, 20, 18, 17)
  }

  /** `is_thumb_down`: the thumb tip lies below (larger y) its IP joint. */
  predicate IsThumbDown(h: Landmarks)
    requires |h| > ThumbTip
  {
    h[ThumbTip].y > h[ThumbIp].y
  }

  datatype LeftGesture = Invalid | OneDown | FourDown | Unknown

  /** How many of thumb, index, middle, ring and pinky are not extended. */
  function FingersDown(ext: FingerTest, h: Landmarks): (n: nat)
    ensures n <= 5
  {
    (if ext(h, 4, 3, 2) then 0 else 1)
    + (if ext(h, 8, 6, 5) then 0 else 1)
    + (if ext(h, 12, 10, 9) then 0 else 1)
    + (if ext(h, 16, 14, 13) then 0 else 1)
    + (if ext(h, 20, 18, 17) then 0 else 1)
  }

  /** `detect_left_hand_gestures`: the gesture read from a left hand and
      the key it maps to. */
  function DetectLeftHand(ext: FingerTest, h: Landmarks): (r: (LeftGesture, Option<Key>))
    ensures |h| < HandPoints <==> r.0 == Invalid
    ensures r.1 == Some(Ctrl) <==> |h| >= HandPoints && FingersDown(ext, h) == 1
    ensures r.1 == Some(Space) <==> |h| >= HandPoints && FingersDown(ext, h) == 4
    ensures r.1.None? <==> r.0 == Invalid || r.0 == Unknown
    ensures r.0 == OneDown <==> r.1 == Some(Ctrl)
    ensures r.0 == FourDown <==> r.1 == Some(Space)
  {
    if |h| < HandPoints then (Invalid, None)
    else
      var n := FingersDown(ext, h);
      if n == 1 then (OneDown, Some(Ctrl))
      else if n == 4 then (FourDown, Some(Space))
      else (Unknown, None)
  }

  /** A hand in the gun pose has its three bottom fingers down, so read as a
      left hand it is never the one-finger crouch gesture; it is the jump
      gesture exactly when the thumb is folded as well. */
  lemma GunHandIsNeverCrouch(ext: FingerTest, h: Landmarks)
    requires |h| >= HandPoints
    requires IsGunGesture(ext, Some(h))
    ensures DetectLeftHand(ext, h).0 != OneDown
    ensures DetectLeftHand(ext, h).0 == FourDown <==> !ext(h, 4, 3, 2)
  {
  }

  // ---------------------------------------------------------------------
  // Head pose, body lean, mouth
  // ---------------------------------------------------------------------

  /** Face-mesh indices: left and right eye corners, nose tip, chin, forehead. */
  const LeftEye := 33
  const RightEye := 263
  const NoseTip := 1
  const Chin := 152
  const Forehead := 10

  /** `calculate_head_pose`: (yaw, pitch). Yaw is the eye-height difference
      times 200; pitch places the nose within the forehead-to-chin span,
      recentred and times 100. A mesh too short to index falls into the
      source's exception handler and yields (0, 0). */
  function HeadPose(face: Landmarks): (r: (real, real))
    ensures |face| <= RightEye ==> r == (0.0, 0.0)
    ensures |face| > RightEye ==>
      (r.0 > 0.0 <==> face[RightEye].y > face[LeftEye].y)
      && (r.0 == 0.0 <==> face[RightEye].y == face[LeftEye].y)
    ensures |face| > RightEye && face[Chin].y <= face[Forehead].y ==> r.1 == 0.0
    ensures |face| > RightEye && face[Chin].y > face[Forehead].y ==>
      (-50.0 <= r.1 <= 50.0 <==> face[Forehead].y <= face[NoseTip].y <= face[Chin].y)
      && (r.1 == 0.0 <==> face[NoseTip].y - face[Forehead].y == face[Chin].y - face[NoseTip].y)
  {
    if |face| <= RightEye then (0.0, 0.0)
    else
      var yaw := (face[RightEye].y - face[LeftEye].y) * 200.0;
      var faceHeight := face[Chin].y - face[Forehead].y;
      var pitch := if faceHeight > 0.0 then
        ((face[NoseTip].y - face[Forehead].y) / faceHeight - 0.5) * 100.0
      else 0.0;
      PitchSpan(face[NoseTip].y - face[Forehead].y, faceHeight);
      (yaw, pitch)
  }

  lemma PitchSpan(n: real, fh: real)
    ensures fh > 0.0 ==>
      (-50.0 <= (n / fh - 0.5) * 100.0 <= 50.0 <==> 0.0 <= n <= fh)
      && ((n / fh - 0.5) * 100.0 == 0.0 <==> n == fh - n)
  {
    if fh > 0.0 {
      var q := n / fh;
      assert n == q * fh;
      if 0.0 <= n <= fh {
        assert 0.0 <= q <= 1.0;
      }
      if 0.0 <= q <= 1.0 {
        assert 0.0 <= q * fh <= fh;
      }
      if q == 0.5 {
        assert n == fh - n;
      }
      if n == fh - n {
        assert q == 0.5;
      }
    }
  }

  /** Pose indices of the shoulders and hips (MediaPipe pose model). */
  const LeftShoulder := 11
  const RightShoulder := 12
  const LeftHip := 23
  const RightHip := 24

  /** `calculate_lean_pose`: horizontal offset of the torso centre from the
      frame centre, times 100; 0 when the pose is too short to index. With
      the torso inside the frame the lean lies in [-50, 50]. */
  function LeanPose(pose: Landmarks): (r: real)
    ensures |pose| <= RightHip ==> r == 0.0
    ensures |pose| > RightHip
      && 0.0 <= pose[LeftShoulder].x <= 1.0 && 0.0 <= pose[RightShoulder].x <= 1.0
      && 0.0 <= pose[LeftHip].x <= 1.0 && 0.0 <= pose[RightHip].x <= 1.0
      ==> -50.0 <= r <= 50.0
  {
    if |pose| <= RightHip then 0.0
    else
      var shoulderX := (pose[LeftShoulder].x + pose[RightShoulder].x) / 2.0;
      var hipX := (pose[LeftHip].x + pose[RightHip].x) / 2.0;
      ((shoulderX + hipX) / 2.0 - 0.5) * 100.0
  }

  /** The landmarks of a horizontally mirrored frame. */
  function Mirror(h: Landmarks): (r: Landmarks)
    ensures |r| == |h|
    ensures forall i :: 0 <= i < |h| ==> r[i] == Point(1.0 - h[i].x, h[i].y)
  {
    seq(|h|, i requires 0 <= i < |h| => Point(1.0 - h[i].x, h[i].y))
  }

  /** Leaning is symmetric: mirroring the frame turns a left lean into the
      same-sized right lean. */
  lemma LeanMirrors(pose: Landmarks)
    ensures LeanPose(Mirror(pose)) == -LeanPose(pose)
  {
  }

  /** Lean is positive exactly when the mean of the four torso points is
      right of the frame centre. */
  lemma LeanSign(pose: Landmarks)
    requires |pose| > RightHip
    ensures LeanPose(pose) > 0.0 <==>
      pose[LeftShoulder].x + pose[RightShoulder].x + pose[LeftHip].x + pose[RightHip].x > 2.0
  {
  }

  /** Inner-lip indices and the fixed opening threshold. */
  const UpperLip := 13
  const LowerLip := 14
  const MouthThreshold := 0.015

  /** `detect_mouth_open`: the inner lips are more than 0.015 apart
      vertically; false when the mesh is too short to index. */
  function MouthOpen(face: Landmarks): (r: bool)
    ensures r <==> (|face| > LowerLip
                    && (face[UpperLip].y > face[LowerLip].y + MouthThreshold
                        || face[LowerLip].y > face[UpperLip].y + MouthThreshold))
  {
    |face| > LowerLip && Abs(face[UpperLip].y - face[LowerLip].y) > MouthThreshold
  }

  /** The thumb test reads heights only: mirroring the hand left to right
      does not change it. */
  lemma ThumbDownIgnoresMirror(h: Landmarks)
    requires |h| > ThumbTip
    ensures IsThumbDown(Mirror(h)) == IsThumbDown(h)
  {
  }

  /** All landmarks moved by the same offset. */
  function Shift(h: Landmarks, dx: real, dy: real): (r: Landmarks)
    ensures |r| == |h|
    ensures forall i :: 0 <= i < |h| ==> r[i] == Point(h[i].x + dx, h[i].y + dy)
  {
    seq(|h|, i requires 0 <= i < |h| => Point(h[i].x + dx, h[i].y + dy))
  }

  /** The mouth and thumb tests depend only on relative vertical positions:
      moving the head or hand in the frame does not change them. */
  lemma RelativeTestsIgnoreShift(h: Landmarks, dx: real, dy: real)
    ensures MouthOpen(Shift(h, dx, dy)) == MouthOpen(h)
    ensures |h| > ThumbTip ==> IsThumbDown(Shift(h, dx, dy)) == IsThumbDown(h)
  {
    var g := Shift(h, dx, dy);
    if |h| > LowerLip {
      assert g[UpperLip].y - g[LowerLip].y == h[UpperLip].y - h[LowerLip].y;
    }
  }

  // ---------------------------------------------------------------------
  // Which hand is which
  // ---------------------------------------------------------------------

  /** `identify_hands`: (left, right). A single hand is taken as the right
      hand; of two or more, the first two are ordered by wrist x, the one
      further left (smaller x) being the left hand, ties going to the
      second. Further hands are ignored. */
  function IdentifyHands(hands: seq<Landmarks>): (r: (Option<Landmarks>, Option<Landmarks>))
    requires |hands| >= 2 ==> |hands[0]| > Wrist && |hands[1]| > Wrist
    ensures |hands| == 0 <==> r.1.None?
    ensures |hands| <= 1 <==> r.0.None?
    ensures |hands| == 1 ==> r.1 == Some(hands[0])
    ensures |hands| >= 2 ==>
      r.0.Some? && r.1.Some?
      && multiset{r.0.value, r.1.value} == multiset{hands[0], hands[1]}
      && r.0.value[Wrist].x <= r.1.value[Wrist].x
      && (r.0.value[Wrist].x == r.1.value[Wrist].x ==> r.0.value == hands[1])
  {
    if |hands| == 0 then (None, None)
    else if |hands| == 1 then (None, Some(hands[0]))
    else if hands[0][Wrist].x < hands[1][Wrist].x then (Some(hands[0]), Some(hands[1]))
    else (Some(hands[1]), Some(hands[0]))
  }
}
