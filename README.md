# Steering wheel: marker persistence and steering ladder

A model of the decision logic of `steering_wheel_org.py`, a program that
watches two coloured markers (rose and green) on a hand-held wheel through a
webcam, turns the angle of the line between them into presses of the game keys
`A` (left) and `D` (right), and holds `W` throughout.

Two pieces are modelled:

- **Marker persistence** (`tracking.dfy`, module `Tracking`). The colour
  segmentation is reduced to its outcome, one optional point per colour band.
  `Located` and the method `DetectAndTrack` build the returned list: rose point
  first, then green point, or the previous list untouched when neither band
  found anything.
- **Steering ladder** (`steering.dfy`, module `Steering`). `Classify` gives the
  branch of the `if/elif` ladder an angle takes. `Ladder` gives the new
  `key_pressed` and the key events the branch sends. `key_pressed` is an
  `Option<string>`, so the guards `key_pressed != 'left'` and `!= 'right'`
  appear exactly as written. `Pressed` says which keys the injection layer
  holds down after a list of events. With it the lemmas can say which keys
  really end up down.
- **Frame loop** (`main_loop.dfy`, module `MainLoop`). `NextFrame` and `Run`
  are the loop of `main` as functions on a `LoopState` (`prev_center_points`,
  `key_pressed`, the events sent so far). The class `Controller` performs the
  same loop imperatively. Its methods are proved equal to those functions.
  `calculate_angle` is passed in as a function parameter `angleOf`.

Behaviour of the code that the model states precisely:

- The release branch is tested first, so -10 and 10 release. The small bands
  are therefore [-20, -10) and (10, 20].
- Angles strictly inside (20, 21) or (30, 31) match no branch. They send
  nothing and change nothing.
- `key_pressed` is only ever `None`, `'A'` or `'D'`, so the guards never block.
  A directional band sends its whole burst on every frame it is seen. Its result
  does not depend on which key was recorded (`DirectionalIgnoresHeld`).
- The small bands press and release their key, yet record it as held. After
  them the recorded key is not down (`LadderKeys`).
- A and D are never down together at a frame boundary (`Invariant`,
  `RunKeepsInvariant`).
- A frame in which neither marker is found reuses a remembered pair. It
  therefore steers again on the stale angle (`DropoutSteersOnStalePair`).

The guards of the directional branches look meant to give hysteresis: no new
burst while that side's key is already held. They compare `key_pressed` with
names that are never stored, so the code has no hysteresis, and neither does
the model. Likewise, steering is not limited to two freshly found points. When
both bands drop out, the fallback list is used, and that list may be a
remembered pair.

## Model

| member | source | states |
|---|---|---|
| Tracking.Located | steering_wheel_org.py:27-54 | with no band found, the result is the previous list unchanged; otherwise it is exactly the found points, rose first and green last, of length 1 or 2, with nothing from the previous list; the result has length 2 exactly when both bands found a point or both dropped out over a stored pair; it never exceeds 2 when the previous list does not |
| Tracking.DetectAndTrack | steering_wheel_org.py:27-54 | the append-then-fall-back code returns exactly `Located` of its inputs |
| Steering.Classify | steering_wheel_org.py:95-167 | the branch taken, as exact disjoint intervals after priority: [-10,10] releases, [-20,-10), [-30,-20), [-50,-30), below -50 steer right, (10,20], [21,30], [31,50], above 50 steer left, and (20,21) and (30,31) take no branch |
| Steering.Repeat | steering_wheel_org.py:111-112 | the events of a `for` loop of n key presses: n copies of the event |
| Steering.Ladder | steering_wheel_org.py:95-167 | the release band records None and sends keyUp of the recorded key only when one is recorded; the gaps send nothing and keep the key; a directional band whose guard passes records its side's key and sends keyUp of the other key, then keyDown of its key 1, 2, 3 or 1 times by band, then in the small bands keyUp of its key |
| Steering.DirectionalIgnoresHeld | steering_wheel_org.py:99-167 | for every value key_pressed can hold, the guards pass, the burst is sent in full and the result is the same as from no key held |
| Steering.StraightLeftLeftStraight | steering_wheel_org.py:95-149 | angles 0, 15, 25, -5 from rest: no events; tap on A; a second medium burst on A although A is recorded; release of A |
| Steering.LadderWellFormed | steering_wheel_org.py:95-167 | the ladder only ever records None, 'A' or 'D' |
| Steering.LadderKeys | steering_wheel_org.py:95-167 | from a consistent key state the ladder never leaves A and D down together; the release band leaves neither down; medium, medium-large and large bands leave their key down and the other up; the small bands record a key that is not down |
| MainLoop.NextFrame | steering_wheel_org.py:74-169 | a frame appends keyDown('W') before anything else and only extends the trace; when the located list does not have length 2, the remembered points, key_pressed and the rest of the trace stay as they were; when it does, it becomes the remembered list, and key_pressed and the events after W are those of `Ladder` on the angle from its first point to its second |
| MainLoop.BothBandsSteerOnFreshPair | steering_wheel_org.py:83-169 | a frame in which both bands find a marker remembers [rose, green] and steers on the angle from rose to green, sending W and then the ladder's events |
| MainLoop.OneBandChangesNothing | steering_wheel_org.py:83-169 | a frame in which exactly one band finds a marker sends only W and keeps the remembered points and key_pressed |
| MainLoop.Run | steering_wheel_org.py:74-176 | running frames only extends the trace, by at least one event per frame |
| MainLoop.FrameKeepsInvariant | steering_wheel_org.py:71-169 | a frame keeps the remembered list empty or a pair, key_pressed within None/'A'/'D', and no steering key down except the recorded one |
| MainLoop.RunKeepsInvariant | steering_wheel_org.py:71-176 | that invariant holds after any number of frames |
| MainLoop.LocatedAtMostTwo | steering_wheel_org.py:71-85 | in any run from the initial state the located list never holds more than two points |
| MainLoop.RunPrevIsLastFull | steering_wheel_org.py:83-169 | across any run of frames the remembered points are those of the last frame in which both bands found a marker, or the initial ones if there was none |
| MainLoop.DropoutSteersOnStalePair | steering_wheel_org.py:83-169 | a frame with no detection and a remembered pair runs the ladder again on the remembered pair's angle |
| MainLoop.Controller.constructor | steering_wheel_org.py:71-72 | the loop starts with no remembered points, no key recorded and no events, and satisfies the invariant |
| MainLoop.Controller.PressRepeatedly | steering_wheel_org.py:111-112 | the loop sends n keyDown events for the key and nothing else |
| MainLoop.Controller.Steer | steering_wheel_org.py:95-167 | the imperative ladder leaves key_pressed and the trace exactly as `Ladder` says |
| MainLoop.Controller.Frame | steering_wheel_org.py:74-169 | one loop pass leaves the state exactly as `NextFrame` says and keeps the invariant |
| MainLoop.Controller.RunFrames | steering_wheel_org.py:74-176 | the loop over a finite list of frames leaves the state exactly as `Run` says |

## Left out

- OpenCV image work (colour conversion, `inRange`, erosion and dilation, contours, largest contour, enclosing circle, drawing circles, lines 9-48): library calls on images. Each band's outcome is an input, an optional point.
- `calculate_angle` (lines 57-61): `arctan2` and the conversion to degrees are floating-point numerics. The angle is an uninterpreted real function `angleOf` of the two points. Floating-point special values (NaN) are not modelled.
- `pyautogui` calls: modelled as events appended to a trace. Which keys are down is modelled by `Pressed`; the effect on the operating system is not.
- `time.sleep(0.005)` (lines 104, 137): a delay with no effect on the state.
- Camera opening and capture, the failed-capture exit, `imshow`, `waitKey` and the quit key, `release` and `destroyAllWindows`: I/O. The unbounded `while True` loop is modelled over a finite list of frames, the ones captured before it stops. `Run` and `RunFrames` leave out the keyDown('W') that the last pass sends (line 75) before its capture fails and the loop breaks (lines 77-80).
- The `print` diagnostics and the unused `abs_angle` (line 91): they have no effect on the state.
- A key still held when the program exits stays held. The source does nothing about this, and neither does the model.
