/** `TongueController` of backend/leaning_control_system.py: a mouth-open
    (tongue-out) signal held for `debounce_frames` consecutive frames sends
    one press of 't'; a frame with the mouth closed re-arms it. */
module Tongue {
  import opened Prelude
  import opened Actions
  import opened Classifiers

  datatype Pulse = Pulse(framesHeld: nat, lastTongueOut: bool)

  const Init := Pulse(0, false)
  const DefaultDebounceFrames: nat := 10

  /** The run length at which a press fires: `frames_held` is incremented
      before the comparison, so a debounce of 0 behaves like 1. */
  function FireAt(debounce: nat): nat
  {
    if debounce == 0 then 1 else debounce
  }

  /** One enabled frame with a face, given the mouth-open reading. The
      third component is the `tongue_out` flag the source returns. */
  function Step(p: Pulse, debounce: nat, open: bool): (r: (Pulse, seq<Action>, bool))
    ensures r.2 == open
    ensures !open ==> r.0 == Init && r.1 == []
    ensures open ==> r.0.framesHeld == p.framesHeld + 1
    ensures r.1 == [] || r.1 == [Press(T)]
    ensures r.1 == [Press(T)] <==> open && p.framesHeld + 1 >= debounce && !p.lastTongueOut
    ensures open ==> r.0.lastTongueOut == (p.lastTongueOut || r.1 == [Press(T)])
  {
    if open then
      var held := p.framesHeld + 1;
      if held >= debounce && !p.lastTongueOut then (Pulse(held, true), [Press(T)], true)
      else (Pulse(held, p.lastTongueOut), [], true)
    else
      (Init, [], false)
  }

  /** `TongueController.update`: disabled control or no face re-arms the
      controller without pressing anything. */
  function Update(p: Pulse, debounce: nat, face: Option<Landmarks>, enabled: bool): (r: (Pulse, seq<Action>, bool))
    ensures !enabled || face.None? ==> r == (Init, [], false)
    ensures enabled && face.Some? ==> r.2 == MouthOpen(face.value)
    ensures enabled && face.Some? && !MouthOpen(face.value) ==> r.0 == Init && r.1 == []
    ensures r.1 == [Press(T)] <==>
      enabled && face.Some? && MouthOpen(face.value)
      && p.framesHeld + 1 >= debounce && !p.lastTongueOut
    ensures r.1 == [] || r.1 == [Press(T)]
  {
    if !enabled || face.None? then (Init, [], false)
    else Step(p, debounce, MouthOpen(face.value))
  }

  /** A sequence of enabled frames, each given by its mouth-open reading. */
  function Signals(p: Pulse, debounce: nat, opens: seq<bool>): (Pulse, seq<Action>)
    decreases |opens|
  {
    if opens == [] then (p, [])
    else
      var (p1, a1, _) := Step(p, debounce, opens[0]);
      var (p2, a2) := Signals(p1, debounce, opens[1..]);
      (p2, a1 + a2)
  }

  lemma {:induction false} SignalsAppend(p: Pulse, debounce: nat, xs: seq<bool>, ys: seq<bool>)
    ensures Signals(p, debounce, xs + ys).0 == Signals(Signals(p, debounce, xs).0, debounce, ys).0
    ensures Signals(p, debounce, xs + ys).1
         == Signals(p, debounce, xs).1 + Signals(Signals(p, debounce, xs).0, debounce, ys).1
    decreases |xs|
  {
    if xs == [] {
      assert xs + ys == ys;
    } else {
      assert (xs + ys)[1..] == xs[1..] + ys;
      var (p1, a1, _) := Step(p, debounce, xs[0]);
      SignalsAppend(p1, debounce, xs[1..], ys);
    }
  }

  /** `n` frames of open mouth. */
  function Open(n: nat): (r: seq<bool>)
    ensures |r| == n && forall i :: 0 <= i < n ==> r[i]
  {
    seq(n, _ => true)
  }

  /** Inside a continuous open run the controller remembers whether it has
      already fired: it has exactly when the run has reached `FireAt`. */
  lemma {:induction false} OpenRunFrom(k: nat, debounce: nat, n: nat)
    ensures Signals(Pulse(k, k >= FireAt(debounce)), debounce, Open(n))
         == (Pulse(k + n, k + n >= FireAt(debounce)),
             if k < FireAt(debounce) <= k + n then [Press(T)] else [])
    decreases n
  {
    if n > 0 {
      var m := FireAt(debounce);
      var p := Pulse(k, k >= m);
      var (p1, a1, _) := Step(p, debounce, true);
      assert p1 == Pulse(k + 1, k + 1 >= m);
      assert a1 == (if k + 1 == m then [Press(T)] else []);
      assert Open(n)[0] && Open(n)[1..] == Open(n - 1);
      OpenRunFrom(k + 1, debounce, n - 1);
      var rest := Signals(p1, debounce, Open(n - 1));
      assert Signals(p, debounce, Open(n)) == (rest.0, a1 + rest.1);
      if k + 1 == m {
        assert rest.1 == [];
        assert a1 + rest.1 == [Press(T)];
      } else {
        assert a1 == [];
        assert a1 + rest.1 == rest.1;
      }
    }
  }

  /** A continuous open run of length L from a re-armed controller presses
      't' exactly once if L reaches the debounce count, and never
      otherwise. */
  lemma OpenRunPressesOnce(debounce: nat, len: nat)
    ensures Signals(Init, debounce, Open(len)).1
         == (if len >= FireAt(debounce) then [Press(T)] else [])
    ensures Presses(Signals(Init, debounce, Open(len)).1, T)
         == (if len >= FireAt(debounce) then 1 else 0)
  {
    OpenRunFrom(0, debounce, len);
  }

  /** A closed-mouth frame between two open runs re-arms the controller:
      each run gets its own single press. */
  lemma SeparatedRunsPressSeparately(debounce: nat, len1: nat, len2: nat)
    ensures Presses(Signals(Init, debounce, Open(len1) + [false] + Open(len2)).1, T)
         == (if len1 >= FireAt(debounce) then 1 else 0)
          + (if len2 >= FireAt(debounce) then 1 else 0)
  {
    var xs := Open(len1);
    var ys := Open(len2);
    SignalsAppend(Init, debounce, xs + [false], ys);
    SignalsAppend(Init, debounce, xs, [false]);
    OpenRunFrom(0, debounce, len1);
    var p1 := Signals(Init, debounce, xs).0;
    assert Signals(p1, debounce, [false]) == (Init, []);
    OpenRunFrom(0, debounce, len2);
    var a := Signals(Init, debounce, xs).1;
    var b := Signals(Init, debounce, ys).1;
    assert Signals(Init, debounce, xs + [false] + ys).1 == a + [] + b;
    assert a + [] + b == a + b;
    PressesAppend(a, b, T);
  }
}
