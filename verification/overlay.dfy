/** The configuration-editing state machine of `MediaPipeOverlay` in
    backend/ui/overlay.py: panel flags, the selected configuration item, the
    edit mode, clamped value adjustment and the key dispatch; plus the
    WASD indicators its status overlay derives from the configuration.
    Drawing is left out. Where Python would raise (adding a number to a
    stored value that is not one), the model returns `None`. */
module Overlay {
  import opened Prelude
  import opened ConfigStore
  import Wasd
  import Actions

  datatype Panel = MainPanel | ConfigPanel | GesturesPanel | HelpPanel

  datatype Ui = Ui(
    showConfig: bool,
    showGestures: bool,
    showHelp: bool,
    panel: Panel,
    selected: int,
    editing: bool)

  const InitUi := Ui(false, false, false, MainPanel, 0, false)

  /** The six configuration items, in panel order. */
  const Items: seq<string> := [
    "mouse_sensitivity", "mouse_smoothing", "mouse_deadzone",
    "lean_threshold", "pitch_threshold_forward", "pitch_threshold_backward"]

  /** The live mouse-controller fields the panel writes through to. */
  datatype MouseTuning = MouseTuning(sensitivity: real, smoothing: real, deadZone: real)

  /** The selected item always names one of the six items. */
  predicate ValidUi(u: Ui)
  {
    0 <= u.selected < |Items|
  }

  /** `switch_ui_panel`: main, config, gestures, help, and round again. */
  function SwitchPanel(u: Ui): (r: Ui)
    ensures r == u.(panel := r.panel) && r.panel != u.panel
  {
    u.(panel := match u.panel
      case MainPanel => ConfigPanel
      case ConfigPanel => GesturesPanel
      case GesturesPanel => HelpPanel
      case HelpPanel => MainPanel)
  }

  /** Four switches come back to the start, and no fewer do. */
  lemma SwitchPanelCycles(u: Ui)
    ensures SwitchPanel(SwitchPanel(SwitchPanel(SwitchPanel(u)))) == u
    ensures SwitchPanel(SwitchPanel(u)) != u && SwitchPanel(SwitchPanel(SwitchPanel(u))) != u
  {
  }

  /** `navigate_ui`: with the config panel shown, move the selection by
      `dir` around the six items; otherwise nothing changes. */
  function Navigate(u: Ui, dir: int): (r: Ui)
    requires ValidUi(u)
    ensures ValidUi(r)
    ensures !u.showConfig ==> r == u
    ensures u.showConfig ==>
      r == u.(selected := r.selected) && (r.selected - u.selected - dir) % |Items| == 0
  {
    if u.showConfig then u.(selected := (u.selected + dir) % |Items|) else u
  }

  /** Navigating down then up returns to the same item. */
  lemma NavigateBack(u: Ui)
    requires ValidUi(u)
    ensures Navigate(Navigate(u, 1), -1) == u
  {
  }

  /** `confirm_ui_selection`: toggles edit mode, only with the config panel
      shown. */
  function Confirm(u: Ui): (r: Ui)
    ensures u.showConfig ==> r == u.(editing := !u.editing)
    ensures !u.showConfig ==> r == u
  {
    if u.showConfig then u.(editing := !u.editing) else u
  }

  /** Enter twice is no change at all; the panels and the selection are
      never touched by it. */
  lemma ConfirmTwice(u: Ui)
    ensures Confirm(Confirm(u)) == u
    ensures Confirm(u) == u.(editing := Confirm(u).editing)
  {
  }

  /** The range `adjust_config_value` clamps each item to. */
  function Range(item: string): (r: (real, real))
    ensures r.0 <= r.1
  {
    if item == "mouse_sensitivity" then (0.1, 5.0)
    else if item == "mouse_smoothing" then (0.1, 1.0)
    else if item == "mouse_deadzone" then (0.0, 2.0)
    else if item == "lean_threshold" then (1.0, 20.0)
    else if item == "pitch_threshold_forward" then (1.0, 30.0)
    else if item == "pitch_threshold_backward" then (1.0, 30.0)
    else (0.0, 10.0)
  }

  /** A stored value read as a number: absent is 0.0 (the item default),
      and a boolean counts as 0 or 1 as in Python. Other values make the
      addition raise. */
  function AsNumber(v: Option<Value>, absent: real): (r: Option<real>)
    ensures v.None? ==> r == Some(absent)
    ensures v.Some? && v.value.Num? ==> r == Some(v.value.n)
    ensures v.Some? && v.value.Flag? ==> r == Some(if v.value.b then 1.0 else 0.0)
    ensures r.None? <==> v.Some? && !v.value.Num? && !v.value.Flag?
  {
    match v
    case None => Some(absent)
    case Some(Num(n)) => Some(n)
    case Some(Flag(b)) => Some(if b then 1.0 else 0.0)
    case Some(_) => None
  }

  function Lookup(cfg: Config, key: string): Option<Value>
  {
    if key in cfg then Some(cfg[key]) else None
  }

  function Clamp(lo: real, hi: real, x: real): (r: real)
    requires lo <= hi
    ensures lo <= r <= hi
    ensures lo <= x <= hi ==> r == x
    ensures x < lo ==> r == lo
    ensures x > hi ==> r == hi
  {
    Max(lo, if hi <= x then hi else x)
  }

  /** Whether the selected item's stored value reads as a number. */
  predicate Readable(u: Ui, cfg: Config)
    requires ValidUi(u)
  {
    AsNumber(Lookup(cfg, Items[u.selected]), 0.0).Some?
  }

  /** The selected item's value before and after an adjustment by `delta`. */
  function Current(u: Ui, cfg: Config): real
    requires ValidUi(u) && Readable(u, cfg)
  {
    AsNumber(Lookup(cfg, Items[u.selected]), 0.0).value
  }

  function Target(u: Ui, cfg: Config, delta: real): real
    requires ValidUi(u) && Readable(u, cfg)
  {
    Clamp(Range(Items[u.selected]).0, Range(Items[u.selected]).1, Current(u, cfg) + delta)
  }

  /** `adjust_config_value`: outside edit mode nothing changes; otherwise
      the selected item moves by `delta`, clamped to its range, and is
      written back only if it changed; the live mouse field follows for the
      three mouse items when a live controller exists. */
  function Adjust(u: Ui, cfg: Config, mouse: Option<MouseTuning>, delta: real): (r: Option<(Config, Option<MouseTuning>)>)
    requires ValidUi(u)
    ensures r.Some? ==> (r.value.1.None? <==> mouse.None?)
    ensures !(u.showConfig && u.editing) ==> r == Some((cfg, mouse))
    ensures r.None? <==> u.showConfig && u.editing && !Readable(u, cfg)
  {
    if !u.showConfig || !u.editing then Some((cfg, mouse))
    else if !Readable(u, cfg) then None
    else
      var item := Items[u.selected];
      var v := Target(u, cfg, delta);
      if v == Current(u, cfg) then Some((cfg, mouse))
      else
        var mouse' := match mouse
          case None => None
          case Some(m) => Some(Tune(m, item, v));
        Some((WriteItem(cfg, u.selected, v), mouse'))
  }

  /** `update_config({item: value})`: an item name has no dot, so the
      store's update is a plain top-level write of that one entry. */
  function WriteItem(cfg: Config, i: int, v: real): (r: Config)
    requires 0 <= i < |Items|
    ensures r == cfg[Items[i] := Num(v)]
    ensures forall k :: k in cfg && k != Items[i] ==> r[k] == cfg[k]
  {
    ItemUndotted(i);
    UndottedSetsTopLevel(cfg, Items[i], Num(v));
    UpdateConfig(cfg, [(Items[i], Num(v))]).0
  }

  /** The write-through to the live mouse controller. */
  function Tune(m: MouseTuning, item: string, v: real): MouseTuning
  {
    if item == "mouse_sensitivity" then m.(sensitivity := v)
    else if item == "mouse_smoothing" then m.(smoothing := v)
    else if item == "mouse_deadzone" then m.(deadZone := v)
    else m
  }

  /** Each selectable item reaches its own field, and only the first three
      reach any. */
  lemma TuneBySelection(m: MouseTuning, i: int, v: real)
    requires 0 <= i < |Items|
    ensures i == 0 ==> Tune(m, Items[i], v) == m.(sensitivity := v)
    ensures i == 1 ==> Tune(m, Items[i], v) == m.(smoothing := v)
    ensures i == 2 ==> Tune(m, Items[i], v) == m.(deadZone := v)
    ensures i >= 3 ==> Tune(m, Items[i], v) == m
  {
    var item := Items[i];
    if i >= 3 {
      assert item[0] != 'm';
      assert item != "mouse_sensitivity" && item != "mouse_smoothing" && item != "mouse_deadzone";
    } else if i == 1 {
      assert item != "mouse_sensitivity" by { assert item[7] != "mouse_sensitivity"[7]; }
    } else if i == 2 {
      assert item != "mouse_sensitivity" by { assert item[6] != "mouse_sensitivity"[6]; }
      assert item != "mouse_smoothing" by { assert item[6] != "mouse_smoothing"[6]; }
    }
  }

  /** In edit mode the selected item, and no other entry, becomes the
      clamped sum when that differs from its old value; the value written
      lies in the item's range. */
  lemma AdjustWritesClamped(u: Ui, cfg: Config, mouse: Option<MouseTuning>, delta: real)
    requires ValidUi(u) && u.showConfig && u.editing && Readable(u, cfg)
    ensures Adjust(u, cfg, mouse, delta).Some?
    ensures Target(u, cfg, delta) == Current(u, cfg) ==> Adjust(u, cfg, mouse, delta).value.0 == cfg
    ensures Target(u, cfg, delta) != Current(u, cfg) ==>
      Adjust(u, cfg, mouse, delta).value.0 == cfg[Items[u.selected] := Num(Target(u, cfg, delta))]
    ensures Range(Items[u.selected]).0 <= Target(u, cfg, delta) <= Range(Items[u.selected]).1
  {
  }

  /** No item name contains a dot, so writing one is a top-level write. */
  lemma ItemUndotted(i: int)
    requires 0 <= i < |Items|
    ensures '.' !in Items[i]
  {
  }

  /** The live mouse settings follow a changed value only for the three
      mouse items, each into its own field. */
  lemma AdjustTunesMouse(u: Ui, cfg: Config, m: MouseTuning, delta: real)
    requires ValidUi(u) && u.showConfig && u.editing && Readable(u, cfg)
    ensures Adjust(u, cfg, Some(m), delta).Some?
    ensures var m' := Adjust(u, cfg, Some(m), delta).value.1;
      var v := Target(u, cfg, delta);
      m'.Some?
      && (v == Current(u, cfg) || u.selected >= 3 ==> m' == Some(m))
      && (v != Current(u, cfg) && u.selected == 0 ==> m' == Some(m.(sensitivity := v)))
      && (v != Current(u, cfg) && u.selected == 1 ==> m' == Some(m.(smoothing := v)))
      && (v != Current(u, cfg) && u.selected == 2 ==> m' == Some(m.(deadZone := v)))
  {
    var v := Target(u, cfg, delta);
    TuneBySelection(m, u.selected, v);
  }

  /** At the top of its range, pushing a value further up writes nothing. */
  lemma AdjustAtTopIsNoOp(u: Ui, cfg: Config, mouse: Option<MouseTuning>, delta: real)
    requires ValidUi(u) && u.showConfig && u.editing
    requires Items[u.selected] in cfg
    requires cfg[Items[u.selected]] == Num(Range(Items[u.selected]).1)
    requires delta >= 0.0
    ensures Adjust(u, cfg, mouse, delta) == Some((cfg, mouse))
  {
  }

  // ---------------------------------------------------------------------
  // Key dispatch
  // ---------------------------------------------------------------------

  /** What a key code means to `handle_keyboard_input`, in the order its
      branches test them. */
  datatype Command =
    | ToggleConfig | ToggleHelp | ToggleGestures | NextPanel | ConfirmKey
    | Up | Down | Left | Right | Unhandled

  /** The codes of each arrow direction once the branch order is taken
      into account: the arrow codes, the extended arrow codes and the
      letters, with 83 ('S' and right arrow) going to the right arrow. */
  const UpCodes: set<int> := {82, 0, 2555904, 119, 87}
  const DownCodes: set<int> := {84, 1, 2555906, 115}
  const LeftCodes: set<int> := {81, 2, 2555905, 97, 65}
  const RightCodes: set<int> := {83, 3, 2555907, 100, 68}

  /** Which branch of `handle_keyboard_input` a key code takes. */
  function Classify(key: int): Command
  {
    if key == 99 || key == 67 then ToggleConfig              // c C
    else if key == 104 || key == 72 then ToggleHelp          // h H
    else if key == 109 || key == 77 then ToggleGestures      // m M
    else if key == 9 then NextPanel                          // Tab
    else if key == 13 then ConfirmKey                        // Enter
    else if key == 82 || key == 0 then Up
    else if key == 84 || key == 1 then Down
    else if key == 81 || key == 2 then Left
    else if key == 83 || key == 3 then Right
    else if key == 2555904 then Up
    else if key == 2555906 then Down
    else if key == 2555905 then Left
    else if key == 2555907 then Right
    else if key == 119 || key == 87 then Up                  // w W
    else if key == 115 || key == 83 then Down                // s S
    else if key == 97 || key == 65 then Left                 // a A
    else if key == 100 || key == 68 then Right               // d D
    else Unhandled
  }

  /** Each branch is taken for exactly its own codes once the earlier
      branches have claimed theirs; every other code is unhandled. */
  lemma ClassifyCodes(key: int)
    ensures Classify(key) == ToggleConfig <==> key in {99, 67}
    ensures Classify(key) == ToggleHelp <==> key in {104, 72}
    ensures Classify(key) == ToggleGestures <==> key in {109, 77}
    ensures Classify(key) == NextPanel <==> key == 9
    ensures Classify(key) == ConfirmKey <==> key == 13
    ensures Classify(key) == Up <==> key in UpCodes
    ensures Classify(key) == Down <==> key in DownCodes
    ensures Classify(key) == Left <==> key in LeftCodes
    ensures Classify(key) == Right <==> key in RightCodes
    ensures Classify(key) == Unhandled <==>
      key !in {99, 67, 104, 72, 109, 77, 9, 13} + UpCodes + DownCodes + LeftCodes + RightCodes
  {
  }

  /** The code of upper-case 'S' is also the right-arrow code, and the
      arrow branch comes first: 'S' adjusts up by 0.01 instead of moving down. */
  lemma UpperSIsRightArrow()
    ensures 'S' as int == 83 && Classify('S' as int) == Right
    ensures Classify('s' as int) == Down
  {
  }

  /** The result of one key: the interface state, the configuration, the
      live mouse settings and whether the key was handled. */
  datatype Outcome = Outcome(ui: Ui, cfg: Config, mouse: Option<MouseTuning>, handled: bool)

  /** `handle_keyboard_input`. `None` when the adjustment raised. */
  function HandleKey(u: Ui, cfg: Config, mouse: Option<MouseTuning>, key: int): (r: Option<Outcome>)
    requires ValidUi(u)
    ensures r.Some? ==> ValidUi(r.value.ui)
    ensures r.Some? ==> (r.value.handled <==> Classify(key) != Unhandled)
    ensures Classify(key) == Unhandled ==> r == Some(Outcome(u, cfg, mouse, false))
    ensures Classify(key) == ToggleConfig ==> r == Some(Outcome(u.(showConfig := !u.showConfig), cfg, mouse, true))
    ensures Classify(key) == ToggleHelp ==> r == Some(Outcome(u.(showHelp := !u.showHelp), cfg, mouse, true))
    ensures Classify(key) == ToggleGestures ==> r == Some(Outcome(u.(showGestures := !u.showGestures), cfg, mouse, true))
    ensures Classify(key) == NextPanel ==> r == Some(Outcome(SwitchPanel(u), cfg, mouse, true))
    ensures Classify(key) == ConfirmKey ==> r == Some(Outcome(Confirm(u), cfg, mouse, true))
    ensures !(u.showConfig && u.editing) && Classify(key) in {Left, Right} ==> r == Some(Outcome(u, cfg, mouse, true))
    ensures !(u.showConfig && u.editing) && Classify(key) == Up ==> r == Some(Outcome(Navigate(u, -1), cfg, mouse, true))
    ensures !(u.showConfig && u.editing) && Classify(key) == Down ==> r == Some(Outcome(Navigate(u, 1), cfg, mouse, true))
    ensures u.showConfig && u.editing && Classify(key) in {Up, Down, Left, Right} ==>
      var delta := match Classify(key) case Up => 0.05 case Down => -0.05 case Left => -0.01 case _ => 0.01;
      match Adjust(u, cfg, mouse, delta)
      case None => r.None?
      case Some((c, m)) => r == Some(Outcome(u, c, m, true))
  {
    var cmd := Classify(key);
    match cmd
    case ToggleConfig => Some(Outcome(u.(showConfig := !u.showConfig), cfg, mouse, true))
    case ToggleHelp => Some(Outcome(u.(showHelp := !u.showHelp), cfg, mouse, true))
    case ToggleGestures => Some(Outcome(u.(showGestures := !u.showGestures), cfg, mouse, true))
    case NextPanel => Some(Outcome(SwitchPanel(u), cfg, mouse, true))
    case ConfirmKey => Some(Outcome(Confirm(u), cfg, mouse, true))
    case Unhandled => Some(Outcome(u, cfg, mouse, false))
    case Up => Arrow(u, cfg, mouse, 0.05, Some(-1))
    case Down => Arrow(u, cfg, mouse, -0.05, Some(1))
    case Left => Arrow(u, cfg, mouse, -0.01, None)
    case Right => Arrow(u, cfg, mouse, 0.01, None)
  }

  /** An arrow key: adjust by `delta` in edit mode, otherwise move the
      selection by `step` if the key has one. */
  function Arrow(u: Ui, cfg: Config, mouse: Option<MouseTuning>, delta: real, step: Option<int>): Option<Outcome>
    requires ValidUi(u)
  {
    if u.showConfig && u.editing then
      match Adjust(u, cfg, mouse, delta)
      case None => None
      case Some((c, m)) => Some(Outcome(u, c, m, true))
    else if step.Some? then Some(Outcome(Navigate(u, step.value), cfg, mouse, true))
    else Some(Outcome(u, cfg, mouse, true))
  }

  // ---------------------------------------------------------------------
  // The WASD indicators of the status overlay
  // ---------------------------------------------------------------------

  datatype Indicators = Indicators(w: bool, a: bool, s: bool, d: bool)

  /** The `wasd_states` of `draw_gesture_overlay`: W when the pitch is
      below minus the backward threshold, S above the forward threshold,
      A and D when the lean passes the lean threshold either way.
      Thresholds default to 12, 8 and 3 when absent. */
  function WasdIndicators(cfg: Config, pitch: real, lean: real): (r: Option<Indicators>)
    ensures r.Some? <==>
      AsNumber(Lookup(cfg, "pitch_threshold_backward"), 12.0).Some?
      && AsNumber(Lookup(cfg, "pitch_threshold_forward"), 8.0).Some?
      && AsNumber(Lookup(cfg, "lean_threshold"), 3.0).Some?
    ensures r.Some? ==>
      var back := AsNumber(Lookup(cfg, "pitch_threshold_backward"), 12.0).value;
      var fwd := AsNumber(Lookup(cfg, "pitch_threshold_forward"), 8.0).value;
      var lean0 := AsNumber(Lookup(cfg, "lean_threshold"), 3.0).value;
      (r.value.w <==> pitch < -back) && (r.value.s <==> pitch > fwd)
      && (r.value.a <==> lean < -lean0) && (r.value.d <==> lean > lean0)
  {
    match (AsNumber(Lookup(cfg, "pitch_threshold_backward"), 12.0),
           AsNumber(Lookup(cfg, "pitch_threshold_forward"), 8.0),
           AsNumber(Lookup(cfg, "lean_threshold"), 3.0))
    case (Some(back), Some(fwd), Some(lean0)) =>
      Some(Indicators(pitch < -back, lean < -lean0, pitch > fwd, lean > lean0))
    case _ => None
  }

  /** Opposite indicators are never lit together once the thresholds are
      non-negative. */
  lemma IndicatorsExclusive(cfg: Config, pitch: real, lean: real)
    requires WasdIndicators(cfg, pitch, lean).Some?
    requires AsNumber(Lookup(cfg, "pitch_threshold_backward"), 12.0).value >= 0.0
    requires AsNumber(Lookup(cfg, "pitch_threshold_forward"), 8.0).value >= 0.0
    requires AsNumber(Lookup(cfg, "lean_threshold"), 3.0).value >= 0.0
    ensures var i := WasdIndicators(cfg, pitch, lean).value;
      !(i.w && i.s) && !(i.a && i.d)
  {
  }

  /** The overlay's W/S reading is the reverse of the controller's: at a
      pitch of 13 degrees with the default thresholds the controller starts
      holding W while the overlay lights S. */
  lemma IndicatorsReverseController()
    ensures WasdIndicators(map[], 13.0, 0.0) == Some(Indicators(false, false, true, false))
    ensures Wasd.Desired({}, Wasd.DefaultConfig, 0.0, 13.0) == {Actions.W}
  {
    assert Wasd.Desired({}, Wasd.DefaultConfig, 0.0, 13.0) == {Actions.W};
  }
}
