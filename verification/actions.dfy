/** The discrete actions the control layer hands to the operating system's
    input-injection primitives (pyautogui and Quartz in the source). Each
    value stands for one call; a step emits a sequence of them, in order. */
module Actions {

  /** The keyboard keys the control layer ever touches. */
  datatype Key = W | A | S | D | Ctrl | Space | T

  datatype Action =
    | KeyDown(key: Key)
    | KeyUp(key: Key)
    /** `pyautogui.press`: a down and an up in one call. */
    | Press(key: Key)
    | MouseDown
    | MouseUp
    /** A relative mouse move, in whole pixels. */
    | MouseMove(dx: int, dy: int)

  /** Number of `MouseDown` calls in a trace. */
  function MouseDowns(acts: seq<Action>): nat
  {
    if acts == [] then 0
    else (if acts[0].MouseDown? then 1 else 0) + MouseDowns(acts[1..])
  }

  /** Number of `MouseUp` calls in a trace. */
  function MouseUps(acts: seq<Action>): nat
  {
    if acts == [] then 0
    else (if acts[0].MouseUp? then 1 else 0) + MouseUps(acts[1..])
  }

  /** Number of `Press(k)` calls in a trace. */
  function Presses(acts: seq<Action>, k: Key): nat
  {
    if acts == [] then 0
    else (if acts[0] == Press(k) then 1 else 0) + Presses(acts[1..], k)
  }

  lemma {:induction false} MouseDownsAppend(a: seq<Action>, b: seq<Action>)
    ensures MouseDowns(a + b) == MouseDowns(a) + MouseDowns(b)
  {
    if a != [] {
      assert (a + b)[1..] == a[1..] + b;
      MouseDownsAppend(a[1..], b);
    } else {
      assert a + b == b;
    }
  }

  lemma {:induction false} MouseUpsAppend(a: seq<Action>, b: seq<Action>)
    ensures MouseUps(a + b) == MouseUps(a) + MouseUps(b)
  {
    if a != [] {
      assert (a + b)[1..] == a[1..] + b;
      MouseUpsAppend(a[1..], b);
    } else {
      assert a + b == b;
    }
  }

  lemma {:induction false} PressesAppend(a: seq<Action>, b: seq<Action>, k: Key)
    ensures Presses(a + b, k) == Presses(a, k) + Presses(b, k)
  {
    if a != [] {
      assert (a + b)[1..] == a[1..] + b;
      PressesAppend(a[1..], b, k);
    } else {
      assert a + b == b;
    }
  }

  /** The set of keys held down after a trace of calls, starting from
      `held`: a `KeyDown` adds its key, a `KeyUp` removes it, a `Press`
      leaves the set as it was. */
  function Keyboard(held: set<Key>, acts: seq<Action>): set<Key>
    decreases |acts|
  {
    if acts == [] then held
    else
      var held' := match acts[0]
        case KeyDown(k) => held + {k}
        case KeyUp(k) => held - {k}
        case _ => held;
      Keyboard(held', acts[1..])
  }

  lemma {:induction false} KeyboardAppend(held: set<Key>, a: seq<Action>, b: seq<Action>)
    ensures Keyboard(held, a + b) == Keyboard(Keyboard(held, a), b)
    decreases |a|
  {
    if a == [] {
      assert a + b == b;
    } else {
      assert (a + b)[1..] == a[1..] + b;
      var held' := match a[0]
        case KeyDown(k) => held + {k}
        case KeyUp(k) => held - {k}
        case _ => held;
      KeyboardAppend(held', a[1..], b);
    }
  }

  /** The keys of a sequence, as a set. */
  function Elems(ks: seq<Key>): (r: set<Key>)
    ensures forall k :: k in r <==> k in ks
  {
    set k | k in ks
  }

  /** One `keyUp` call per key, in order. */
  function Ups(ks: seq<Key>): (r: seq<Action>)
    ensures |r| == |ks| && forall i :: 0 <= i < |ks| ==> r[i] == KeyUp(ks[i])
  {
    seq(|ks|, i requires 0 <= i < |ks| => KeyUp(ks[i]))
  }

  /** One `keyDown` call per key, in order. */
  function Downs(ks: seq<Key>): (r: seq<Action>)
    ensures |r| == |ks| && forall i :: 0 <= i < |ks| ==> r[i] == KeyDown(ks[i])
  {
    seq(|ks|, i requires 0 <= i < |ks| => KeyDown(ks[i]))
  }

  lemma {:induction false} KeyboardUps(held: set<Key>, ks: seq<Key>)
    ensures Keyboard(held, Ups(ks)) == held - Elems(ks)
    decreases |ks|
  {
    if ks != [] {
      assert Ups(ks)[1..] == Ups(ks[1..]);
      KeyboardUps(held - {ks[0]}, ks[1..]);
      assert Elems(ks) == {ks[0]} + Elems(ks[1..]);
    }
  }

  lemma {:induction false} KeyboardDowns(held: set<Key>, ks: seq<Key>)
    ensures Keyboard(held, Downs(ks)) == held + Elems(ks)
    decreases |ks|
  {
    if ks != [] {
      assert Downs(ks)[1..] == Downs(ks[1..]);
      KeyboardDowns(held + {ks[0]}, ks[1..]);
      assert Elems(ks) == {ks[0]} + Elems(ks[1..]);
    }
  }

  /** A trace of key calls holds no mouse button calls. */
  lemma {:induction false} KeyCallsOnly(acts: seq<Action>)
    requires forall i :: 0 <= i < |acts| ==> acts[i].KeyUp? || acts[i].KeyDown?
    ensures MouseDowns(acts) == 0 && MouseUps(acts) == 0
  {
    if acts != [] {
      KeyCallsOnly(acts[1..]);
    }
  }
}
