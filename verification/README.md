# fingerguns: gesture-to-input control layer, modelled in Dafny

fingerguns turns webcam gestures into game input. Hand, face and pose landmarks
come from MediaPipe. The control layer turns them into mouse and keyboard
events:

- **Right hand.** A finger-gun pose locks a sticky gun detector. Folding the
  thumb holds the left mouse button. Index-finger motion feeds a cursor that a
  background thread drains smoothly.
- **Left hand.** One finger down presses Ctrl (crouch). Four down press Space
  (jump).
- **Head.** Tilt holds A/D, either continuously for a strong lean or in 1-second
  taps for a small one. Pitch holds W/S, with hysteresis.
- **Mouth.** Open for ten frames presses T (spray).
- **Control keys.** 'g' toggles control. '+'/'-' change the mouse sensitivity.
- **Overlay.** A configuration overlay edits thresholds with clamped steps and
  stores them through a dotted-key configuration store.

The model is purely functional:

- Each controller is an immutable datatype.
- Each `update` is a function returning the new state and the input actions it
  emits (`Actions.Action`: key down/up, key press, mouse button down/up, relative
  mouse move).
- Traces of actions are read back by small interpreters:
  - `Actions.Keyboard` gives the set of keys held down.
  - `ThumbTrigger.Replay` gives the mouse button state.
  - `LeftHand.LastPressed` gives the last key pressed.
- The properties are stated against those interpreters, so a contract says what
  the user's machine sees, not how the step is coded.

Modules, one per file:

| module | file |
|---|---|
| `Prelude` | `Option`, `Abs`, `Max`, and Python's truncating `int()` as `Trunc` |
| `Actions` | keys, emitted actions, counting and keyboard-replay helpers |
| `Classifiers` | landmark tests: gun pose, thumb, bottom-finger curl, left-hand gestures, head pose, lean, mouth, hand identification |
| `StickyGun` | `StickyGunDetector` |
| `ThumbTrigger` | `ThumbShootingController`, as written and corrected |
| `Cursor` | `KrunkerStyleMouseController`: frame sampling and the drain thread |
| `LeftHand` | `LeftHandGestureController` |
| `Wasd` | `WASDController`, as written and corrected |
| `Tongue` | `TongueController` |
| `Session` | the control loop's own state: toggle, sensitivity keys, the right-hand pipeline |
| `ConfigStore` | `ConfigManager`: dotted-key updates and gesture settings |
| `Overlay` | `MediaPipeOverlay`: panel state, key dispatch, clamped adjustment, WASD indicators |

Modelling choices:

- **Finger test.** `is_finger_extended` (an angle computed with `arccos`) is the
  uninterpreted parameter `ext: FingerTest`. Every property holds for any such
  test.
- **Distances.** Euclidean distances are compared through their squares.
  `Classifiers.FingerCurledByDistance` and `Cursor.DeadZoneBySqrt` prove this
  agrees with the square-root comparison the code makes.
- **Clock.** Time is an explicit `now` parameter.
- **Numbers.** Python floats are modelled as exact `real`s.
- **Cursor thread.** The thread is modelled as atomic events interleaved with
  frames: `Cursor.Event`.
- **Key order.** Python's `set` iteration order when releasing or pressing keys
  is unspecified. The model emits keys in the order W, A, S, D. Contracts speak
  about the resulting set of held keys, which does not depend on that order.
- **Errors.** Where Python would raise, the model returns `None` or a `false`
  flag:
  - a dotted key whose prefix is not a mapping;
  - a configuration value that is not a number.

## Model

| member | source | states |
|---|---|---|
| Prelude.Trunc | backend/leaning_control_system.py:384 | `int()` truncates toward zero: the result is the floor for non-negative input and the ceiling for negative input |
| Prelude.TruncShrinks | backend/leaning_control_system.py:384 | a truncated move is never larger in magnitude than the real move and differs from it by less than one pixel |
| Actions.KeyboardUps | backend/leaning_control_system.py:663-665 | a key-up for each of a set of keys leaves exactly the held keys minus that set |
| Actions.KeyboardDowns | backend/leaning_control_system.py:669-676 | a key-down for each of a set of keys leaves exactly the held keys plus that set |
| Actions.KeyCallsOnly | backend/leaning_control_system.py:1012-1014 | a trace made only of key calls never presses or releases the mouse button |
| Classifiers.CurlBySquares | backend/leaning_control_system.py:119-143 | the tip-below-1.8×-knuckle test is equivalent on squared distances |
| Classifiers.FingerCurledByDistance | backend/leaning_control_system.py:119-143 | the squared-distance curl test agrees with the source's square-root distance ratio test |
| Classifiers.BottomCurledPairs | backend/leaning_control_system.py:119-143 | the bottom-finger test holds exactly when some pair of middle, ring and pinky is curled |
| Classifiers.FingerCurledRotated | backend/leaning_control_system.py:119-143 | a finger's curl reading is unchanged when the whole hand is rotated about any point |
| Classifiers.BottomCurledIsRotationProof | backend/leaning_control_system.py:119-143 | the bottom-three-fingers test (at least two curled) is invariant under rotating the hand, as its docstring claims |
| Classifiers.DetectLeftHand | backend/leaning_control_system.py:146-174 | fewer than 21 landmarks is invalid; exactly one finger down maps to Ctrl, exactly four to Space, anything else to no key, each as an if-and-only-if |
| Classifiers.IsGunGesture | backend/leaning_control_system.py:97-107 | a gun exactly when a hand is present, its index finger is extended, and it counts three fingers down, or four when the thumb is folded too |
| Classifiers.GunHandIsNeverCrouch | backend/leaning_control_system.py:97-107 | a hand in the gun pose read as a left hand is never the crouch gesture, and is the jump gesture exactly when its thumb is folded |
| Classifiers.ThumbDownIgnoresMirror | backend/leaning_control_system.py:109-117 | the thumb-down test reads heights only, so a mirrored hand gives the same answer |
| Classifiers.HeadPose | backend/leaning_control_system.py:52-95 | yaw is positive exactly when the right eye sits lower; pitch lies in [-50, 50] exactly when the nose is between forehead and chin, is 0 exactly when centred, and is 0 for a degenerate face; a short mesh gives (0, 0) |
| Classifiers.PitchSpan | backend/leaning_control_system.py:52-95 | the pitch formula's range and zero characterised in terms of the nose's position in the face span |
| Classifiers.LeanPose | backend/leaning_control_system.py:177-200 | a pose too short to index gives 0; with the four torso points inside the frame the lean lies in [-50, 50] |
| Classifiers.LeanMirrors | backend/leaning_control_system.py:177-200 | mirroring the frame negates the lean |
| Classifiers.LeanSign | backend/leaning_control_system.py:177-200 | the lean is positive exactly when the torso's mean x lies right of the frame centre |
| Classifiers.MouthOpen | backend/leaning_control_system.py:202-219 | open exactly when the mesh reaches the lower lip and either lip is more than 0.015 beyond the other; a short mesh reads as closed |
| Classifiers.RelativeTestsIgnoreShift | backend/leaning_control_system.py:202-219 | mouth-open and thumb-down are unchanged by translating all landmarks |
| Classifiers.IdentifyHands | backend/leaning_control_system.py:776-796 | no hands gives neither; one hand is taken as the right hand; of two, both are returned, the one whose wrist has the smaller x as the left and, on a tie, the second |
| StickyGun.NoHandStep | backend/leaning_control_system.py:230-243 | without a hand an unlocked detector stays unlocked; a locked one counts the missing frame and stays locked up to the grace period, then fully resets |
| StickyGun.HandStep | backend/leaning_control_system.py:245-265 | with a hand, an unlocked detector locks exactly on the gun pose; a locked one stays locked exactly while the bottom fingers stay curled; the lock-frame counter follows |
| StickyGun.Update | backend/leaning_control_system.py:229-265 | the returned flag is the lock state; a new lock requires the gun pose; losing the hand only unlocks by a full reset |
| StickyGun.GracePeriodHolds | backend/leaning_control_system.py:231-240 | up to the grace period of missing frames the lock holds and only the counter moves |
| StickyGun.GracePeriodExpires | backend/leaning_control_system.py:231-238 | a fresh lock survives exactly 30 (the grace period) missing frames and is reset by the 31st |
| StickyGun.NoHandFramesSplit | backend/leaning_control_system.py:229-243 | n+1 missing frames are n missing frames followed by one more |
| StickyGun.UnlockedStaysUnlocked | backend/leaning_control_system.py:241-243 | an unlocked detector stays unlocked without a hand |
| StickyGun.ResetOnDisable | backend/leaning_control_system.py:966-971 | disabling control unlocks the detector and clears the lock counter, keeping the grace state |
| ThumbTrigger.ForceRelease | backend/leaning_control_system.py:301-304 | the button ends released, with one mouse-up exactly when it was held and never a mouse-down |
| ThumbTrigger.ForceReleaseIdempotent | backend/leaning_control_system.py:301-304 | a second force release does nothing |
| ThumbTrigger.Step | backend/leaning_control_system.py:278-299 | as written: mouse-down exactly on a thumb-down edge while released, mouse-up exactly on a thumb-up edge while held, and the early returns leave the remembered thumb state stale |
| ThumbTrigger.Update | backend/leaning_control_system.py:273-299 | a press needs an active gun and a folded thumb; an inactive gun or a lost hand releases; the emitted clicks alternate with the button state |
| ThumbTrigger.RunAlternates | backend/leaning_control_system.py:273-304 | over any run of frames the mouse-downs and mouse-ups strictly alternate, and replaying them gives the final button state |
| ThumbTrigger.AlternatingBalance | backend/leaning_control_system.py:273-304 | in an alternating trace the downs and ups balance up to the start and end button states |
| ThumbTrigger.RunBalanced | backend/leaning_control_system.py:273-304 | from the initial state, downs minus ups is 1 exactly when the button ends held, else 0 |
| ThumbTrigger.StuckStaysStuck | backend/leaning_control_system.py:280-294 | as written, a held button with a remembered "thumb up" is never released by any number of thumb-up frames |
| ThumbTrigger.OneFrameTapSticks | backend/leaning_control_system.py:280-294 | as written, a one-frame thumb tap presses the button and it stays held through any number of thumb-up frames |
| ThumbTrigger.StepFixed | backend/leaning_control_system.py:278-299 | corrected step: the same press and release edges, and the thumb state is always remembered |
| ThumbTrigger.UpdateFixed | backend/leaning_control_system.py:273-299 | corrected update keeps the button held only while the gun is active and the thumb is folded |
| ThumbTrigger.FixedTapReleases | backend/leaning_control_system.py:280-294 | corrected: a one-frame tap presses and the next thumb-up frame releases |
| Cursor.Tick | backend/leaning_control_system.py:376-392 | at rest nothing happens; otherwise either a truncated 15% move is emitted and subtracted from the target, or a sub-pixel target is cleared |
| Cursor.Stop | backend/leaning_control_system.py:407-420 | stopping clears targets and currents and the running flag, keeping the last position |
| Cursor.StopIdempotent | backend/leaning_control_system.py:407-420 | stopping twice is stopping once |
| Cursor.DeadZoneBySqrt | backend/leaning_control_system.py:452-455 | the squared dead-zone test agrees with comparing the Euclidean magnitude |
| Cursor.Sample | backend/leaning_control_system.py:422-470 | without an active gun the cursor stops; otherwise the thread runs, the index tip in pixels becomes the last position, and a move outside the dead zone is added to the target scaled by the sensitivity |
| Cursor.StillHandAddsNothing | backend/leaning_control_system.py:446-460 | a hand that has not moved adds nothing to the target |
| Cursor.TickShrinks | backend/leaning_control_system.py:376-392 | every non-resting tick strictly shrinks the pending movement, so draining terminates |
| Cursor.Drain | backend/leaning_control_system.py:372-392 | draining ends at rest with the target cleared, within the pending bound of ticks, and the emitted moves never overshoot the target in either axis |
| Cursor.Apply | backend/leaning_control_system.py:368-470 | an idle cursor stays idle; a stopped cursor emits nothing unless a gun frame restarts it |
| Cursor.RunKeepsIdle | backend/leaning_control_system.py:422-433 | idleness is preserved by any interleaving of frames, thread ticks and stops |
| Cursor.StoppedStaysStill | backend/leaning_control_system.py:399-437 | with no active gun frame, a stopped cursor emits no mouse move in any interleaving |
| LeftHand.Update | backend/leaning_control_system.py:493-516 | a press happens exactly for a valid gesture with a key that differs from the last pressed gesture and more than 0.1 s after the last press; it records gesture and time; nothing else changes state |
| LeftHand.RunNeverRepeats | backend/leaning_control_system.py:505-510 | over any run of frames no key is pressed twice in a row, and the last key pressed is the remembered gesture |
| LeftHand.SameKeyAtMostOnce | backend/leaning_control_system.py:505-510 | a non-repeating trace of one key has at most one press |
| LeftHand.OneGestureOnePress | backend/leaning_control_system.py:505-514 | holding one gesture for any number of frames presses its key at most once |
| LeftHand.OnlyKeyPressed | backend/leaning_control_system.py:499-510 | frames that never show the other gesture only ever press this gesture's key |
| Tongue.Step | backend/leaning_control_system.py:712-724 | an open mouth counts a frame and presses T exactly when the count reaches the debounce and no press is latched; a closed mouth resets |
| Tongue.Update | backend/leaning_control_system.py:706-724 | control off or no face resets and reports closed; otherwise the mouth-open test drives the step |
| Tongue.OpenRunFrom | backend/leaning_control_system.py:714-722 | n open frames from any count press T exactly when the firing count is crossed within them |
| Tongue.OpenRunPressesOnce | backend/leaning_control_system.py:714-722 | an open run presses T once if it reaches the debounce count (10 by default) and never otherwise |
| Tongue.SeparatedRunsPressSeparately | backend/leaning_control_system.py:714-722 | two long-enough open runs split by a closed frame press T twice |
| Wasd.ReleaseAll | backend/leaning_control_system.py:690-696 | the held set is emptied with a key-up for exactly its keys; the tap keys are untouched |
| Wasd.TapStep | backend/leaning_control_system.py:592-609 | a released tap presses once its 75 ms wait has passed; a held one releases after its 1 s hold; otherwise nothing changes |
| Wasd.Desired | backend/leaning_control_system.py:579-660 | each of W, A, S, D is desired exactly per its hysteresis rule: held keys stay until the release threshold, new ones need the press threshold (strong lean for A/D) |
| Wasd.SyncKeyboard | backend/leaning_control_system.py:662-678 | the release, press and re-press loops leave exactly the old keys minus the dropped ones plus the desired ones held |
| Wasd.CentreRelease | backend/leaning_control_system.py:566-575 | returning to centre releases a held tap key with one key-up |
| Wasd.LeanTap | backend/leaning_control_system.py:566-609 | the centre release and the tap timer together change the keyboard only for the tap's own key, as the tap's held flag records |
| Wasd.EnabledFrame | backend/leaning_control_system.py:558-688 | the held set becomes the desired set; at the centre both taps end released |
| Wasd.DisabledFrame | backend/leaning_control_system.py:546-556 | disabling releases every key the controller believes down, held or tapped |
| Wasd.Update | backend/leaning_control_system.py:541-688 | as written: keys stay in W, A, S, D; disabled leaves nothing down; an enabled frame leaves every desired key down and holds exactly the desired set; every key left down is one the controller believes down |
| Wasd.UpdateFixed | backend/leaning_control_system.py:579-609 | corrected: no lean key is claimed by both the held set and a tap, and the keyboard after a frame equals exactly the keys believed down |
| Wasd.TapsKeyboard | backend/leaning_control_system.py:566-641 | the two tap sections change only the tap keys, consistently with their held flags |
| Wasd.EnabledKeyboard | backend/leaning_control_system.py:558-688 | an enabled frame leaves only believed keys down, and exactly the believed keys when the state was consistent and the hand-over is applied |
| Wasd.StrongLeanDuringTapDesyncs | backend/leaning_control_system.py:579-609 | as written: a strong left lean during an A tap leaves A both held and tapped, and a lean right then leaves the tap believing A is down while the keyboard holds only D |
| Wasd.NeverOpposite | backend/leaning_control_system.py:579-660 | with positive thresholds, A and D are never desired together, nor W and S |
| Wasd.HysteresisBand | backend/leaning_control_system.py:562-660 | inside the hysteresis band a key keeps its held state: held keys stay, unheld ones are not pressed |
| Session.Init | backend/leaning_control_system.py:752-767 | the initial session (control off, sensitivity 0.5, multiplier derived from it, every controller at rest) satisfies the loop invariant |
| Session.SetSensitivity | backend/leaning_control_system.py:1019-1026 | a new sensitivity in [0.1, 1.0] keeps the loop invariant, the cursor multiplier at 2.5 times it, and leaves the toggle, gun, trigger, movement keys and the rest of the cursor untouched |
| Session.HandleKey | backend/leaning_control_system.py:1007-1027 | 'q'/ESC quit; 'g' toggles control and on disabling releases the button and every held movement key; '+'/'=' and '-'/'_' step the sensitivity within [0.1, 1.0]; other keys change nothing |
| Session.RightHandFrame | backend/leaning_control_system.py:949-971 | the right-hand pipeline keeps the invariant (the button is held only while enabled and locked), never presses while unlocked, and never stops a running cursor |
| Session.KeysKeepSensitivity | backend/leaning_control_system.py:1018-1026 | any sequence of keys keeps the sensitivity in [0.1, 1.0] and the multiplier at 2.5 times it |
| Session.LoopNeverStopsCursor | backend/leaning_control_system.py:949-971 | once running, the cursor thread is never stopped by the loop, whatever the hands do |
| ConfigStore.Split | backend/ui/config_manager.py:77 | splitting a key yields at least one dot-free part, exactly one when the key has no dot |
| ConfigStore.JoinSplit | backend/ui/config_manager.py:77 | joining the parts with dots restores the key |
| ConfigStore.SplitJoin | backend/ui/config_manager.py:77 | splitting a dot-joined list of dot-free parts restores the list |
| ConfigStore.SetPath | backend/ui/config_manager.py:78-83 | the nested write succeeds exactly when every existing prefix is a mapping, adds only the first key at top level and keeps every other top-level entry |
| ConfigStore.SetThenGet | backend/ui/config_manager.py:78-83 | after a successful nested write, reading the same path gives the written value |
| ConfigStore.SetKeepsOthers | backend/ui/config_manager.py:78-83 | a nested write leaves every diverging path's value unchanged |
| ConfigStore.UpdateOne | backend/ui/config_manager.py:75-85 | an undotted key is a plain top-level assignment; a dotted key succeeds exactly when walkable and then reads back |
| ConfigStore.UpdateConfig | backend/ui/config_manager.py:72-86 | no entries is a success that changes nothing; a failing first entry changes nothing and reports failure; entries without dots always succeed; after a success the last entry's path reads back its value |
| ConfigStore.UpdateConfigAppend | backend/ui/config_manager.py:74-85 | updating with a + b is updating with a and then with b |
| ConfigStore.LastEntryWins | backend/ui/config_manager.py:74-85 | after a successful update, a key's last entry is what reading its path gives |
| ConfigStore.NoRecovery | backend/ui/config_manager.py:74-85 | once an entry fails, the whole update reports failure |
| ConfigStore.UndottedSetsTopLevel | backend/ui/config_manager.py:84-85 | an undotted key sets exactly that top-level entry and nothing else |
| ConfigStore.GetGestureConfig | backend/ui/config_manager.py:90-92 | a missing section or gesture reads as an empty mapping, a present one as stored; a non-mapping section raises |
| ConfigStore.IsGestureEnabled | backend/ui/config_manager.py:101-104 | defined exactly when the gesture's settings are an object; a gesture with no "enabled" entry, or no settings, is enabled; otherwise the stored entry is returned |
| ConfigStore.SetGestureConfig | backend/ui/config_manager.py:94-98 | the gesture reads back as written; the section is created if missing; every other top-level entry and every other gesture is kept |
| ConfigStore.EnableThenQuery | backend/ui/config_manager.py:106-110 | enabling or disabling a gesture succeeds exactly when its section and entry are mappings, and the query then returns the flag set |
| ConfigStore.EnableGesture | backend/ui/config_manager.py:106-110 | succeeds exactly when the gesture's settings are an object; afterwards the gesture reads as enabled exactly when asked, and every top-level key but "gestures" is unchanged |
| Overlay.SwitchPanel | backend/ui/overlay.py:443-447 | Tab changes only the panel, and always to a different one |
| Overlay.SwitchPanelCycles | backend/ui/overlay.py:443-447 | four Tabs return to the starting panel and two or three do not |
| Overlay.Navigate | backend/ui/overlay.py:450-458 | with the config panel shown the selection moves by the direction modulo 6 and stays a valid item; otherwise nothing changes |
| Overlay.NavigateBack | backend/ui/overlay.py:450-453 | moving down then up restores the selection |
| Overlay.Confirm | backend/ui/overlay.py:460-470 | Enter toggles edit mode only with the config panel shown |
| Overlay.ConfirmTwice | backend/ui/overlay.py:460-470 | Enter twice restores the interface state; Enter never touches the panels or the selection |
| Overlay.Range | backend/ui/overlay.py:487-496 | every item's clamp range is non-empty |
| Overlay.AsNumber | backend/ui/overlay.py:484 | a missing item reads as the default, `True` as 1 and `False` as 0, a number as itself; any other value makes the arithmetic fail |
| Overlay.Clamp | backend/ui/overlay.py:497 | the clamped value lies in range and equals the input when the input does |
| Overlay.Adjust | backend/ui/overlay.py:472-511 | outside edit mode nothing changes; in edit mode it fails exactly when the stored value is not a number; live mouse settings are produced exactly when a live controller exists |
| Overlay.AdjustWritesClamped | backend/ui/overlay.py:481-502 | in edit mode the selected item, and no other entry, becomes the clamped sum when that differs from the old value, and the value written lies in the item's range |
| Overlay.AdjustTunesMouse | backend/ui/overlay.py:499-511 | a changed value updates the live sensitivity, smoothing or dead zone for the three mouse items, each its own field, and leaves the live settings alone for every other item |
| Overlay.WriteItem | backend/ui/overlay.py:500-502 | writing an item through the store's dotted-key update is a top-level write of that one entry, every other entry kept |
| Overlay.AdjustAtTopIsNoOp | backend/ui/overlay.py:497-500 | at the top of its range, an upward step writes nothing |
| Overlay.UpperSIsRightArrow | backend/ui/overlay.py:385-423 | upper-case 'S' shares code 83 with the right arrow, whose branch comes first, so it fine-adjusts up instead of moving down; lower-case 's' moves down |
| Overlay.ClassifyCodes | backend/ui/overlay.py:348-441 | each branch is taken for exactly its key codes once earlier branches have claimed theirs (83 goes to the right arrow, not to 'S'); any other code is unhandled |
| Overlay.HandleKey | backend/ui/overlay.py:346-441 | each key class does its branch: toggles flip one flag; Tab switches panel and Enter confirms; arrows adjust in edit mode and navigate otherwise; unhandled keys report false and change nothing; the selection stays valid |
| Overlay.WasdIndicators | backend/ui/overlay.py:60-66 | the indicators are computable exactly when the three thresholds read as numbers (defaults 12, 8 and 3); W lights exactly below minus the backward threshold, S exactly above the forward one, A and D exactly past minus and plus the lean threshold |
| Overlay.IndicatorsExclusive | backend/ui/overlay.py:60-66 | with non-negative thresholds, W and S are never lit together, nor A and D |
| Overlay.IndicatorsReverseController | backend/ui/overlay.py:61-63 | at pitch 13 with default thresholds the controller holds W while the overlay lights S: the two read pitch with opposite signs |

## Left out

- Floating-point rounding is not modelled: values are exact reals. A comparison at a boundary can differ from Python's, e.g. `0.15 - 0.05` is `0.09999999999999999` in the overlay's clamp, and five `+0.1` steps from 0.5 reach `0.9999999999999999` for the sensitivity. No stated property depends on rounding.
- The camera loop's I/O is not modelled. This covers capture, MediaPipe inference, drawing, FPS printing, the every-third-frame pose and face cache, and the exception handlers that print and continue. The per-frame controllers are modelled one by one, and `Session` composes the right-hand pipeline and the keyboard handling.
- `is_finger_extended` and `calculate_angle` (floating-point `arccos`) are a parameter, not a definition.
- `pyautogui` and the macOS `CGEvent` mouse calls are modelled as emitted `Action` values. The screen position itself is not tracked.
- The cursor thread's sleep, rate and lock are left out. Thread interleaving is modelled as a sequence of atomic frame, tick and stop events, which matches the lock around each section.
- `SmoothMouseController` is a one-line delegation to the Krunker-style controller and has no member of its own.
- `save_config` and `load_config` (JSON file I/O, default merging) are not modelled. The store is the in-memory map.
- `display_status`, `_draw_panel`, `_draw_wasd_overlay` and the overlay's drawing methods are rendering only. The indicator values the overlay derives are modelled (`Overlay.WasdIndicators`).
- The cleanup at the end of `run` is not modelled. It releases held movement keys, as `Wasd.ReleaseAll` does, but not a key held by a small-lean tap.
- `StickyGun.Update`: the loop only ever calls it with a hand present. The no-hand grace period is modelled and proved for the class, but the loop itself never reaches it.
- `LeftHand.Update`: the remembered gesture is never cleared when the hand shows no gesture. Repeating the same gesture after relaxing therefore never presses again (`LeftHand.OneGestureOnePress`). This is modelled as written.
- `Overlay.Adjust`: the smoothing value written to the live controller goes to a field the cursor never reads, so it has no further effect in the model.
- `Overlay.HandleKey`: the printed messages and the no-op navigation of the gesture-mapping panel are left out.

## Findings

| source | as written | input that shows it | evidently intended | confidence | as-written member | corrected member |
|---|---|---|---|---|---|---|
| backend/leaning_control_system.py:280-294 | the press and release branches return before `last_thumb_down` is updated, so after a press the remembered thumb state stays "up" | thumb folded for one frame, then up for any number of frames: the mouse button stays held | remember the thumb state on every frame, so the next thumb-up frame releases the button | high, not executed | ThumbTrigger.OneFrameTapSticks | ThumbTrigger.FixedTapReleases |
| backend/leaning_control_system.py:579-609 | a strong lean adds A to the held set while a small-lean tap still flags A as held; the two bookkeepings then disagree | tap holding A since t=10, lean −10° at t=10.5, then +5° at t=10.6: the keyboard holds only D while the controller still believes A is down | when the strong lean takes the key over, the tap gives up its claim, so the controller's belief matches the keyboard | medium, not executed | Wasd.StrongLeanDuringTapDesyncs | Wasd.UpdateFixed |
