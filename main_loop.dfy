/**
 * The frame loop of main() in steering_wheel_org.py: per frame, hold W, locate
 * the markers, and when exactly two points come back, steer on their angle and
 * remember them as the previous points.
 *
 * The camera, the angle computation (calculate_angle, arctan2 in degrees) and
 * the key-injection layer stay outside: a frame arrives as its two per-band
 * detections, the angle function is a parameter, and the key events are
 * appended to a trace.
 */
module MainLoop {
  import opened Optional
  import opened Tracking
  import opened Steering

  /** What one camera frame yields once the colour work is done. */
  datatype Detection = Detection(rose: Option<Point>, green: Option<Point>)

  /** prev_center_points, key_pressed, and every key event sent so far. */
  datatype LoopState = LoopState(prev: seq<Point>, held: Option<string>, sent: seq<KeyEvent>)

  /** The state main() sets up before its loop. */
  const Start: LoopState := LoopState([], None, [])

  /**
   * What holds between frames: the remembered points are none or a pair,
   * key_pressed is None, 'A' or 'D', and no steering key is down except the
   * recorded one (so A and D are never down together).
   */
  predicate Invariant(s: LoopState)
  {
    && (|s.prev| == 0 || |s.prev| == 2)
    && Consistent(s.held, Pressed({}, s.sent))
  }

  /** One iteration of the loop in main(). */
  function NextFrame(s: LoopState, f: Detection, angleOf: (Point, Point) -> real): (t: LoopState)
    // the trace only grows, and every frame starts by pressing W
    ensures s.sent + [KeyDown(KeyW)] <= t.sent
    // prev_center_points changes only on a frame that returns a pair, and then to that pair
    ensures |Located(f.rose, f.green, s.prev)| == 2 ==> t.prev == Located(f.rose, f.green, s.prev)
    ensures |Located(f.rose, f.green, s.prev)| != 2 ==> t.prev == s.prev && t.held == s.held
    ensures |Located(f.rose, f.green, s.prev)| != 2 ==> t.sent == s.sent + [KeyDown(KeyW)]
    // a pair is steered on, first point to second, and the ladder's events follow W
    ensures |Located(f.rose, f.green, s.prev)| == 2 ==>
              var c := Located(f.rose, f.green, s.prev);
              var r := Ladder(s.held, angleOf(c[0], c[1]));
              t.held == r.held && t.sent == s.sent + [KeyDown(KeyW)] + r.events
  {
    var centers := Located(f.rose, f.green, s.prev);
    var sent := s.sent + [KeyDown(KeyW)];
    if |centers| == 2 then
      var r := Ladder(s.held, angleOf(centers[0], centers[1]));
      LoopState(centers, r.held, sent + r.events)
    else
      LoopState(s.prev, s.held, sent)
  }

  /** The loop over a finite run of frames (those before quit or a failed capture). */
  function Run(s: LoopState, frames: seq<Detection>, angleOf: (Point, Point) -> real): (t: LoopState)
    ensures s.sent <= t.sent
    ensures |t.sent| >= |s.sent| + |frames|
    decreases |frames|
  {
    if frames == [] then s else Run(NextFrame(s, frames[0], angleOf), frames[1..], angleOf)
  }

  lemma FrameKeepsInvariant(s: LoopState, f: Detection, angleOf: (Point, Point) -> real)
    requires Invariant(s)
    ensures Invariant(NextFrame(s, f, angleOf))
  {
    var centers := Located(f.rose, f.green, s.prev);
    var w := s.sent + [KeyDown(KeyW)];
    PressedAppend({}, s.sent, [KeyDown(KeyW)]);
    assert Pressed({}, w) == Pressed({}, s.sent) + {KeyW};
    if |centers| == 2 {
      var r := Ladder(s.held, angleOf(centers[0], centers[1]));
      LadderKeys(s.held, Pressed({}, w), angleOf(centers[0], centers[1]));
      PressedAppend({}, w, r.events);
    }
  }

  /** The invariant holds on every frame boundary of every run from Start. */
  lemma {:induction false} RunKeepsInvariant(s: LoopState, frames: seq<Detection>, angleOf: (Point, Point) -> real)
    requires Invariant(s)
    ensures Invariant(Run(s, frames, angleOf))
    decreases |frames|
  {
    if frames != [] {
      FrameKeepsInvariant(s, frames[0], angleOf);
      RunKeepsInvariant(NextFrame(s, frames[0], angleOf), frames[1..], angleOf);
    }
  }

  /** The list detect_and_track_points returns never holds more than two points. */
  lemma LocatedAtMostTwo(frames: seq<Detection>, f: Detection, angleOf: (Point, Point) -> real)
    ensures |Located(f.rose, f.green, Run(Start, frames, angleOf).prev)| <= 2
  {
    assert Invariant(Start) by {
      assert Pressed({}, []) == {};
    }
    RunKeepsInvariant(Start, frames, angleOf);
  }

  /** A frame in which both bands found a marker. */
  predicate Full(f: Detection)
  {
    f.rose.Some? && f.green.Some?
  }

  /** The pair from the last frame of a run in which both bands found a marker, or d if none did. */
  function LastFull(frames: seq<Detection>, d: seq<Point>): seq<Point>
    decreases |frames|
  {
    if frames == [] then d
    else LastFull(frames[1..], if Full(frames[0]) then [frames[0].rose.value, frames[0].green.value] else d)
  }

  /**
   * Persistence across dropouts: however many frames lose one or both
   * markers, the remembered points are those of the last frame that saw both.
   */
  lemma {:induction false} RunPrevIsLastFull(s: LoopState, frames: seq<Detection>, angleOf: (Point, Point) -> real)
    ensures Run(s, frames, angleOf).prev == LastFull(frames, s.prev)
    decreases |frames|
  {
    if frames != [] {
      var f := frames[0];
      var t := NextFrame(s, f, angleOf);
      assert t.prev == if Full(f) then [f.rose.value, f.green.value] else s.prev;
      RunPrevIsLastFull(t, frames[1..], angleOf);
    }
  }

  /**
   * A frame in which both bands find a marker remembers the pair, rose first,
   * and steers on the angle from the rose point to the green one.
   */
  lemma BothBandsSteerOnFreshPair(s: LoopState, f: Detection, angleOf: (Point, Point) -> real)
    requires Full(f)
    ensures var r := Ladder(s.held, angleOf(f.rose.value, f.green.value));
            NextFrame(s, f, angleOf)
              == LoopState([f.rose.value, f.green.value], r.held, s.sent + [KeyDown(KeyW)] + r.events)
  {
  }

  /** A frame in which only one band finds a marker steers nothing and remembers nothing. */
  lemma OneBandChangesNothing(s: LoopState, f: Detection, angleOf: (Point, Point) -> real)
    requires f.rose.Some? != f.green.Some?
    ensures NextFrame(s, f, angleOf) == LoopState(s.prev, s.held, s.sent + [KeyDown(KeyW)])
  {
  }

  /**
   * A frame in which neither band finds anything, after a pair has been
   * remembered, is steered again on the stale pair: the ladder runs and may
   * send its burst once more.
   */
  lemma DropoutSteersOnStalePair(s: LoopState, f: Detection, angleOf: (Point, Point) -> real)
    requires f.rose.None? && f.green.None?
    requires |s.prev| == 2
    ensures var r := Ladder(s.held, angleOf(s.prev[0], s.prev[1]));
            NextFrame(s, f, angleOf) == LoopState(s.prev, r.held, s.sent + [KeyDown(KeyW)] + r.events)
  {
  }

  /** main() as an object: the two variables its loop updates and the keys it has sent. */
  class Controller {
    var prev: seq<Point>
    var keyPressed: Option<string>
    var sent: seq<KeyEvent>

    function State(): LoopState
      reads this
    {
      LoopState(prev, keyPressed, sent)
    }

    constructor ()
      ensures State() == Start
      ensures Invariant(State())
    {
      prev := [];
      keyPressed := None;
      sent := [];
    }

    /** One pyautogui.keyDown / keyUp call. */
    method Inject(e: KeyEvent)
      modifies this`sent
      ensures sent == old(sent) + [e]
    {
      sent := sent + [e];
    }

    /** `for i in range(n): pyautogui.keyDown(k)` */
    method PressRepeatedly(k: string, n: nat)
      modifies this`sent
      ensures sent == old(sent) + Repeat(KeyDown(k), n)
    {
      for i := 0 to n
        invariant sent == old(sent) + Repeat(KeyDown(k), i)
      {
        Inject(KeyDown(k));
      }
    }

    /** The if/elif ladder of main(), updating key_pressed and sending key events. */
    method Steer(angle: real)
      modifies this`sent, this`keyPressed
      ensures keyPressed == Ladder(old(keyPressed), angle).held
      ensures sent == old(sent) + Ladder(old(keyPressed), angle).events
    {
      if -10.0 <= angle <= 10.0 {
        if keyPressed != None {
          Inject(KeyUp(keyPressed.value));
          keyPressed := None;
        }
      } else if -20.0 <= angle <= -10.0 {
        if keyPressed != Some("left") {
          Inject(KeyUp(KeyA));
          Inject(KeyDown(KeyD));
          Inject(KeyUp(KeyD));
          keyPressed := Some(KeyD);
        }
      } else if -30.0 <= angle < -20.0 {
        if keyPressed != Some("left") {
          Inject(KeyUp(KeyA));
          PressRepeatedly(KeyD, 2);
          keyPressed := Some(KeyD);
        }
      } else if -50.0 <= angle < -30.0 {
        if keyPressed != Some("left") {
          Inject(KeyUp(KeyA));
          PressRepeatedly(KeyD, 3);
          keyPressed := Some(KeyD);
        }
      } else if angle < -50.0 {
        if keyPressed != Some("left") {
          Inject(KeyUp(KeyA));
          Inject(KeyDown(KeyD));
          keyPressed := Some(KeyD);
        }
      } else if 10.0 <= angle <= 20.0 {
        if keyPressed != Some("right") {
          Inject(KeyUp(KeyD));
          Inject(KeyDown(KeyA));
          Inject(KeyUp(KeyA));
          keyPressed := Some(KeyA);
        }
      } else if 21.0 <= angle <= 30.0 {
        if keyPressed != Some("right") {
          Inject(KeyUp(KeyD));
          PressRepeatedly(KeyA, 2);
          keyPressed := Some(KeyA);
        }
      } else if 31.0 <= angle <= 50.0 {
        if keyPressed != Some("right") {
          Inject(KeyUp(KeyD));
          PressRepeatedly(KeyA, 3);
          keyPressed := Some(KeyA);
        }
      } else if angle > 50.0 {
        if keyPressed != Some("right") {
          Inject(KeyUp(KeyD));
          Inject(KeyDown(KeyA));
          keyPressed := Some(KeyA);
        }
      }
    }

    /** One pass of the while loop in main(). */
    method Frame(f: Detection, angleOf: (Point, Point) -> real)
      modifies this
      ensures State() == NextFrame(old(State()), f, angleOf)
      ensures Invariant(old(State())) ==> Invariant(State())
    {
      ghost var before := State();
      Inject(KeyDown(KeyW));
      var centers := DetectAndTrack(f.rose, f.green, prev);
      if |centers| == 2 {
        var angle := angleOf(centers[0], centers[1]);
        Steer(angle);
        prev := centers;
      }
      if Invariant(before) {
        FrameKeepsInvariant(before, f, angleOf);
      }
    }

    /** The while loop of main() over the frames captured before it stops. */
    method RunFrames(frames: seq<Detection>, angleOf: (Point, Point) -> real)
      modifies this
      ensures State() == Run(old(State()), frames, angleOf)
    {
      var i := 0;
      while i < |frames|
        invariant 0 <= i <= |frames|
        invariant Run(old(State()), frames, angleOf) == Run(State(), frames[i..], angleOf)
      {
        assert frames[i..][1..] == frames[i + 1..];
        Frame(frames[i], angleOf);
        i := i + 1;
      }
    }
  }
}
