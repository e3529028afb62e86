/** `KrunkerStyleMouseController` of backend/leaning_control_system.py: the
    camera loop adds each frame's index-fingertip movement to a pending
    pixel target; a background cursor thread drains a fixed fraction of the
    target per tick into whole-pixel relative mouse moves.

    The thread is modelled by its effect: each `Tick` is one locked pass
    of its loop body, and a run of the controller is any interleaving of
    samples, ticks and stops. Sleeping and joining are left out. */
module Cursor {
  import opened Prelude
  import opened Actions
  import opened Classifiers

  datatype Cursor = Cursor(
    targetX: real,          // pending horizontal movement, pixels
    targetY: real,          // pending vertical movement, pixels
    currentX: real,         // `current_delta_x`: only ever cleared
    currentY: real,         // `current_delta_y`: only ever cleared
    last: Option<Point>,    // last fingertip position, pixels
    sensitivity: real,
    deadZone: real,
    running: bool)          // whether the cursor thread runs

  /** Fraction of the pending target drained per tick (`interpolation_speed`). */
  const Alpha: real := 0.15
  /** Pending movement at or below this (per axis) is ignored by the thread. */
  const Epsilon: real := 0.1
  const DefaultDeadZone: real := 0.8
  /** The fingertip's normalised coordinates are scaled to a 1920x1080 screen. */
  const ScreenWidth: real := 1920.0
  const ScreenHeight: real := 1080.0

  function Init(sensitivity: real): Cursor
  {
    Cursor(0.0, 0.0, 0.0, 0.0, None, sensitivity, DefaultDeadZone, false)
  }

  /** The thread has nothing to do. */
  predicate AtRest(c: Cursor)
  {
    !(Abs(c.targetX) > Epsilon || Abs(c.targetY) > Epsilon)
  }

  /** A stopped thread has no pending movement. */
  predicate Idle(c: Cursor)
  {
    !c.running ==> c.targetX == 0.0 && c.targetY == 0.0 && c.currentX == 0.0 && c.currentY == 0.0
  }

  /** One pass of the cursor thread's loop: move by the whole-pixel part of
      a fraction of the target and drain that fraction, or clear a target
      too small to yield a pixel on either axis. */
  function Tick(c: Cursor): (r: (Cursor, seq<Action>))
    ensures r.0.last == c.last && r.0.running == c.running
    ensures r.0.sensitivity == c.sensitivity && r.0.deadZone == c.deadZone
    ensures |r.1| <= 1
    ensures AtRest(c) ==> r == (c, [])
    ensures r.1 != [] ==>
      r.1 == [MouseMove(Trunc(Alpha * c.targetX), Trunc(Alpha * c.targetY))]
      && (Abs(Alpha * c.targetX) >= 1.0 || Abs(Alpha * c.targetY) >= 1.0)
      && r.0.targetX == (1.0 - Alpha) * c.targetX && r.0.targetY == (1.0 - Alpha) * c.targetY
    ensures !AtRest(c) && r.1 == [] ==> r.0.targetX == 0.0 && r.0.targetY == 0.0
  {
    if Abs(c.targetX) > Epsilon || Abs(c.targetY) > Epsilon then
      var mx := c.targetX * Alpha;
      var my := c.targetY * Alpha;
      if Abs(mx) >= 1.0 || Abs(my) >= 1.0 then
        (c.(targetX := c.targetX - mx, targetY := c.targetY - my), [MouseMove(Trunc(mx), Trunc(my))])
      else
        (c.(targetX := 0.0, targetY := 0.0), [])
    else
      (c, [])
  }

  /** `stop_cursor_thread`: clear the pending movement and stop the thread. */
  function Stop(c: Cursor): (r: Cursor)
    ensures !r.running && r.targetX == 0.0 && r.targetY == 0.0
    ensures r.currentX == 0.0 && r.currentY == 0.0
    ensures r.last == c.last && r.sensitivity == c.sensitivity && r.deadZone == c.deadZone
  {
    c.(targetX := 0.0, targetY := 0.0, currentX := 0.0, currentY := 0.0, running := false)
  }

  /** Stopping twice is the same as stopping once. */
  lemma StopIdempotent(c: Cursor)
    ensures Stop(Stop(c)) == Stop(c)
  {
  }

  /** The dead-zone test on a raw delta, by squares: the source compares the
      square root of the squared magnitude with the dead zone. */
  predicate InDeadZone(dx: real, dy: real, deadZone: real)
  {
    deadZone > 0.0 && dx * dx + dy * dy < deadZone * deadZone
  }

  /** The squared test agrees with the square-root comparison for any
      non-negative root `m` of the squared magnitude. */
  lemma DeadZoneBySqrt(dx: real, dy: real, deadZone: real, m: real)
    requires m >= 0.0 && m * m == dx * dx + dy * dy
    ensures InDeadZone(dx, dy, deadZone) <==> m < deadZone
  {
    if m < deadZone {
      MulStrict(m, deadZone, m, deadZone);
    } else if deadZone > 0.0 {
      MulMono(deadZone, m, deadZone, m);
    }
  }

  /** `update`: one camera frame's contribution to the pending target. */
  function Sample(c: Cursor, hand: Option<Landmarks>, gunActive: bool): (r: Cursor)
    ensures r.sensitivity == c.sensitivity && r.deadZone == c.deadZone
    ensures gunActive && hand.Some? ==> r.currentX == c.currentX && r.currentY == c.currentY
    ensures !gunActive || hand.None? ==> r == Stop(c)
    ensures gunActive && hand.Some? ==> r.running
    ensures gunActive && hand.Some? && |hand.value| <= IndexTip ==> r == c.(running := true)
    ensures gunActive && hand.Some? && |hand.value| > IndexTip ==>
      var tip := hand.value[IndexTip];
      var p := Point(tip.x * ScreenWidth, tip.y * ScreenHeight);
      r.last == Some(p)
      && (c.last.None? ==> r.targetX == c.targetX && r.targetY == c.targetY)
      && (c.last.Some? ==>
            var dx := (p.x - c.last.value.x) * c.sensitivity;
            var dy := (p.y - c.last.value.y) * c.sensitivity;
            if InDeadZone(dx, dy, c.deadZone) then r.targetX == c.targetX && r.targetY == c.targetY
            else r.targetX == c.targetX + dx && r.targetY == c.targetY + dy)
  {
    if !gunActive || hand.None? then Stop(c)
    else
      var c1 := c.(running := true);
      var h := hand.value;
      if |h| <= IndexTip then c1
      else
        var p := Point(h[IndexTip].x * ScreenWidth, h[IndexTip].y * ScreenHeight);
        match c.last
        case None => c1.(last := Some(p))
        case Some(q) =>
          var dx := (p.x - q.x) * c.sensitivity;
          var dy := (p.y - q.y) * c.sensitivity;
          if InDeadZone(dx, dy, c.deadZone) then c1.(last := Some(p))
          else c1.(targetX := c.targetX + dx, targetY := c.targetY + dy, last := Some(p))
  }

  /** A fingertip that has not moved adds nothing to the target. */
  lemma StillHandAddsNothing(c: Cursor, hand: Landmarks)
    requires |hand| > IndexTip && c.last.Some?
    requires c.last.value == Point(hand[IndexTip].x * ScreenWidth, hand[IndexTip].y * ScreenHeight)
    ensures Sample(c, Some(hand), true) == c.(running := true)
  {
  }

  // ---------------------------------------------------------------------
  // Draining: the thread comes to rest, without overshooting
  // ---------------------------------------------------------------------

  function Span(c: Cursor): real
  {
    Max(Abs(c.targetX), Abs(c.targetY))
  }

  /** Decreases on every tick that is not at rest. */
  function Pending(c: Cursor): nat
  {
    if AtRest(c) then 0 else Span(c).Floor as nat + 2
  }

  lemma TickShrinks(c: Cursor)
    requires !AtRest(c)
    ensures Pending(Tick(c).0) < Pending(c)
  {
    var (c', acts) := Tick(c);
    if acts != [] {
      assert Abs(c'.targetX) == (1.0 - Alpha) * Abs(c.targetX);
      assert Abs(c'.targetY) == (1.0 - Alpha) * Abs(c.targetY);
      assert Span(c') == (1.0 - Alpha) * Span(c);
      assert Span(c') <= Span(c) - 1.0;
    }
  }

  /** Total horizontal and vertical pixels of the moves in a trace. */
  function SumX(acts: seq<Action>): int
  {
    if acts == [] then 0
    else (if acts[0].MouseMove? then acts[0].dx else 0) + SumX(acts[1..])
  }

  function SumY(acts: seq<Action>): int
  {
    if acts == [] then 0
    else (if acts[0].MouseMove? then acts[0].dy else 0) + SumY(acts[1..])
  }

  lemma {:induction false} SumsAppend(a: seq<Action>, b: seq<Action>)
    ensures SumX(a + b) == SumX(a) + SumX(b) && SumY(a + b) == SumY(a) + SumY(b)
  {
    if a == [] {
      assert a + b == b;
    } else {
      assert (a + b)[1..] == a[1..] + b;
      SumsAppend(a[1..], b);
    }
  }

  /** The thread left alone: tick until at rest. Returns the final cursor,
      the moves made and the number of ticks. */
  function Drain(c: Cursor): (r: (Cursor, seq<Action>, nat))
    ensures AtRest(r.0)
    ensures AtRest(c) ==> r == (c, [], 0)
    ensures !AtRest(c) ==> r.0.targetX == 0.0 && r.0.targetY == 0.0
    ensures r.0.running == c.running && r.0.last == c.last
    ensures r.2 <= Pending(c)
    ensures |r.1| <= r.2
    ensures c.targetX >= 0.0 ==> 0 <= SumX(r.1) && SumX(r.1) as real <= c.targetX
    ensures c.targetX <= 0.0 ==> SumX(r.1) <= 0 && c.targetX <= SumX(r.1) as real
    ensures c.targetY >= 0.0 ==> 0 <= SumY(r.1) && SumY(r.1) as real <= c.targetY
    ensures c.targetY <= 0.0 ==> SumY(r.1) <= 0 && c.targetY <= SumY(r.1) as real
    decreases Pending(c)
  {
    if AtRest(c) then (c, [], 0)
    else
      TickShrinks(c);
      var (c1, a1) := Tick(c);
      var (c2, a2, n) := Drain(c1);
      SumsAppend(a1, a2);
      (c2, a1 + a2, n + 1)
  }

  // ---------------------------------------------------------------------
  // Interleavings of the camera loop and the cursor thread
  // ---------------------------------------------------------------------

  datatype Event =
    | Frame(hand: Option<Landmarks>, gunActive: bool)
    | Pass                                  // one pass of the thread's loop
    | Halt                                  // an explicit `stop_cursor_thread`

  /** One event. A thread pass happens only while the thread runs. */
  function Apply(c: Cursor, e: Event): (r: (Cursor, seq<Action>))
    ensures Idle(c) ==> Idle(r.0)
    ensures !c.running && !(e.Frame? && e.gunActive && e.hand.Some?) ==> !r.0.running && r.1 == []
  {
    match e
    case Frame(hand, gunActive) => (Sample(c, hand, gunActive), [])
    case Pass => if c.running then Tick(c) else (c, [])
    case Halt => (Stop(c), [])
  }

  function Run(c: Cursor, events: seq<Event>): (Cursor, seq<Action>)
    decreases |events|
  {
    if events == [] then (c, [])
    else
      var (c1, a1) := Apply(c, events[0]);
      var (c2, a2) := Run(c1, events[1..]);
      (c2, a1 + a2)
  }

  /** Every interleaving keeps a stopped thread without pending movement. */
  lemma {:induction false} RunKeepsIdle(c: Cursor, events: seq<Event>)
    requires Idle(c)
    ensures Idle(Run(c, events).0)
    decreases |events|
  {
    if events != [] {
      RunKeepsIdle(Apply(c, events[0]).0, events[1..]);
    }
  }

  /** Once the gun is lost the mouse stays still: from a stopped thread,
      no interleaving without an active gun sample moves the mouse. */
  lemma {:induction false} StoppedStaysStill(c: Cursor, events: seq<Event>)
    requires !c.running
    requires forall i :: 0 <= i < |events| ==>
      !(events[i].Frame? && events[i].gunActive && events[i].hand.Some?)
    ensures Run(c, events).1 == [] && !Run(c, events).0.running
    decreases |events|
  {
    if events != [] {
      StoppedStaysStill(Apply(c, events[0]).0, events[1..]);
    }
  }
}
