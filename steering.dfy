/**
 * The steering ladder of main() in steering_wheel_org.py: the angle between the
 * two markers selects a branch, and the branch sends key events and records the
 * key it considers held (key_pressed).
 *
 * key_pressed is a Python value that the program only ever sets to None, 'A' or
 * 'D'; it is modelled as Option<string> so that the guards of the directional
 * branches, which compare it against the names 'left' and 'right', can be
 * written as they are.
 */
module Steering {
  import opened Optional

  const KeyA: string := "A"
  const KeyD: string := "D"
  const KeyW: string := "W"

  /** One call into the key-injection layer. */
  datatype KeyEvent = KeyDown(key: string) | KeyUp(key: string)

  /** The branches of the ladder; Uncovered is the fall-through no branch takes. */
  datatype Band =
    | Straight
    | RightSmall | RightMedium | RightMediumLarge | RightLarge
    | LeftSmall | LeftMedium | LeftMediumLarge | LeftLarge
    | Uncovered

  datatype Side = Neither | Right | Left

  /** What one pass through the ladder leaves behind: the new key_pressed and the events sent. */
  datatype Step = Step(held: Option<string>, events: seq<KeyEvent>)

  function SideOf(b: Band): Side
  {
    match b
    case Straight | Uncovered => Neither
    case RightSmall | RightMedium | RightMediumLarge | RightLarge => Right
    case LeftSmall | LeftMedium | LeftMediumLarge | LeftLarge => Left
  }

  /**
   * The branch the if/elif ladder takes for an angle. The ladder's tests are
   * tried in order, so an angle on a shared boundary goes to the earlier one:
   * -10 and 10 are Straight, which leaves the small bands half open, and
   * nothing catches (20, 21) or (30, 31).
   */
  function Classify(angle: real): (b: Band)
    ensures b == Straight <==> -10.0 <= angle <= 10.0
    ensures b == RightSmall <==> -20.0 <= angle < -10.0
    ensures b == RightMedium <==> -30.0 <= angle < -20.0
    ensures b == RightMediumLarge <==> -50.0 <= angle < -30.0
    ensures b == RightLarge <==> angle < -50.0
    ensures b == LeftSmall <==> 10.0 < angle <= 20.0
    ensures b == LeftMedium <==> 21.0 <= angle <= 30.0
    ensures b == LeftMediumLarge <==> 31.0 <= angle <= 50.0
    ensures b == LeftLarge <==> 50.0 < angle
    ensures b == Uncovered <==> (20.0 < angle < 21.0) || (30.0 < angle < 31.0)
  {
    if -10.0 <= angle <= 10.0 then Straight
    else if -20.0 <= angle <= -10.0 then RightSmall
    else if -30.0 <= angle < -20.0 then RightMedium
    else if -50.0 <= angle < -30.0 then RightMediumLarge
    else if angle < -50.0 then RightLarge
    else if 10.0 <= angle <= 20.0 then LeftSmall
    else if 21.0 <= angle <= 30.0 then LeftMedium
    else if 31.0 <= angle <= 50.0 then LeftMediumLarge
    else if angle > 50.0 then LeftLarge
    else Uncovered
  }

  /** The key a side steers with. */
  function SteerKey(s: Side): string
    requires s != Neither
  {
    if s == Right then KeyD else KeyA
  }

  /** The key a side releases first. */
  function OtherKey(s: Side): string
    requires s != Neither
  {
    if s == Right then KeyA else KeyD
  }

  /** The name a side's guard compares key_pressed against. */
  function GuardName(s: Side): string
    requires s != Neither
  {
    if s == Right then "left" else "right"
  }

  /** How many times a directional band sends keyDown for its key. */
  function Presses(b: Band): nat
  {
    match b
    case RightMedium | LeftMedium => 2
    case RightMediumLarge | LeftMediumLarge => 3
    case RightSmall | LeftSmall | RightLarge | LeftLarge => 1
    case Straight | Uncovered => 0
  }

  /** The small bands end their burst by releasing the key again. */
  predicate IsTap(b: Band)
  {
    b == RightSmall || b == LeftSmall
  }

  /** The events of `for i in range(n): keyDown(k)`. */
  function Repeat(e: KeyEvent, n: nat): (r: seq<KeyEvent>)
    ensures |r| == n
    ensures forall i :: 0 <= i < n ==> r[i] == e
  {
    if n == 0 then [] else Repeat(e, n - 1) + [e]
  }

  /**
   * One pass through the ladder, branch by branch as the program has it.
   * Every directional branch sends its whole burst whenever its guard holds,
   * and (by the contract below) the burst is the band's entry in a table:
   * release the other side's key, press this side's key Presses(b) times,
   * and in the small bands release it again.
   */
  function Ladder(held: Option<string>, angle: real): (r: Step)
    ensures Classify(angle) == Straight ==>
              && r.held == None
              && r.events == (if held.Some? then [KeyUp(held.value)] else [])
    ensures Classify(angle) == Uncovered ==> r == Step(held, [])
    ensures SideOf(Classify(angle)) != Neither ==>
              var b := Classify(angle);
              var s := SideOf(b);
              if held == Some(GuardName(s)) then r == Step(held, [])
              else
                && r.held == Some(SteerKey(s))
                && r.events == [KeyUp(OtherKey(s))] + Repeat(KeyDown(SteerKey(s)), Presses(b))
                                + (if IsTap(b) then [KeyUp(SteerKey(s))] else [])
  {
    match Classify(angle)
    case Straight =>
      if held != None then Step(None, [KeyUp(held.value)]) else Step(held, [])
    case RightSmall =>
      if held != Some("left") then Step(Some(KeyD), [KeyUp(KeyA), KeyDown(KeyD), KeyUp(KeyD)])
      else Step(held, [])
    case RightMedium =>
      if held != Some("left") then Step(Some(KeyD), [KeyUp(KeyA)] + Repeat(KeyDown(KeyD), 2))
      else Step(held, [])
    case RightMediumLarge =>
      if held != Some("left") then Step(Some(KeyD), [KeyUp(KeyA)] + Repeat(KeyDown(KeyD), 3))
      else Step(held, [])
    case RightLarge =>
      if held != Some("left") then Step(Some(KeyD), [KeyUp(KeyA), KeyDown(KeyD)])
      else Step(held, [])
    case LeftSmall =>
      if held != Some("right") then Step(Some(KeyA), [KeyUp(KeyD), KeyDown(KeyA), KeyUp(KeyA)])
      else Step(held, [])
    case LeftMedium =>
      if held != Some("right") then Step(Some(KeyA), [KeyUp(KeyD)] + Repeat(KeyDown(KeyA), 2))
      else Step(held, [])
    case LeftMediumLarge =>
      if held != Some("right") then Step(Some(KeyA), [KeyUp(KeyD)] + Repeat(KeyDown(KeyA), 3))
      else Step(held, [])
    case LeftLarge =>
      if held != Some("right") then Step(Some(KeyA), [KeyUp(KeyD), KeyDown(KeyA)])
      else Step(held, [])
    case Uncovered =>
      Step(held, [])
  }

  /** The only values key_pressed is ever given. */
  predicate WellFormed(held: Option<string>)
  {
    held == None || held == Some(KeyA) || held == Some(KeyD)
  }

  /**
   * The guards never block: since key_pressed is never 'left' or 'right', a
   * directional band sends its full burst on every frame it is seen, whether or
   * not that side's key is already recorded, and what it does does not depend
   * on the recorded key at all.
   */
  lemma DirectionalIgnoresHeld(held: Option<string>, angle: real)
    requires WellFormed(held)
    requires SideOf(Classify(angle)) != Neither
    ensures held != Some(GuardName(SideOf(Classify(angle))))
    ensures Ladder(held, angle) == Ladder(None, angle)
    ensures Ladder(held, angle).held == Some(SteerKey(SideOf(Classify(angle))))
    ensures 2 <= |Ladder(held, angle).events|
  {
  }

  /**
   * Angles 0, 15, 25 and -5 from rest: 15 taps A and records it; 25 sends the
   * medium left burst again although A is already recorded; -5 releases A.
   */
  lemma StraightLeftLeftStraight()
    ensures Ladder(None, 0.0) == Step(None, [])
    ensures Ladder(None, 15.0) == Step(Some(KeyA), [KeyUp(KeyD), KeyDown(KeyA), KeyUp(KeyA)])
    ensures Ladder(Some(KeyA), 25.0) == Step(Some(KeyA), [KeyUp(KeyD), KeyDown(KeyA), KeyDown(KeyA)])
    ensures Ladder(Some(KeyA), -5.0) == Step(None, [KeyUp(KeyA)])
  {
  }

  /** The ladder only ever records None, 'A' or 'D'. */
  lemma LadderWellFormed(held: Option<string>, angle: real)
    requires WellFormed(held)
    ensures WellFormed(Ladder(held, angle).held)
  {
  }

  // ----- The keys the injection layer holds down -----

  function Send(down: set<string>, e: KeyEvent): (d: set<string>)
  {
    match e
    case KeyDown(k) => down + {k}
    case KeyUp(k) => down - {k}
  }

  /** The set of keys held down after sending events, starting from down. */
  function Pressed(down: set<string>, events: seq<KeyEvent>): (d: set<string>)
    // a key that no event names keeps its state
    ensures forall k :: (forall i :: 0 <= i < |events| ==> events[i].key != k) ==> (k in d <==> k in down)
    decreases |events|
  {
    if events == [] then down else Pressed(Send(down, events[0]), events[1..])
  }

  lemma {:induction false} PressedAppend(down: set<string>, a: seq<KeyEvent>, b: seq<KeyEvent>)
    ensures Pressed(down, a + b) == Pressed(Pressed(down, a), b)
    decreases |a|
  {
    if a == [] {
      assert a + b == b;
    } else {
      assert (a + b)[1..] == a[1..] + b;
      PressedAppend(Send(down, a[0]), a[1..], b);
    }
  }

  /** The last event naming a key decides whether it is down. */
  lemma PressedLast(down: set<string>, events: seq<KeyEvent>, e: KeyEvent)
    ensures e.KeyDown? ==> e.key in Pressed(down, events + [e])
    ensures e.KeyUp? ==> e.key !in Pressed(down, events + [e])
  {
    PressedAppend(down, events, [e]);
  }

  /** Pressing a key one or more times leaves it, and only it, newly down. */
  lemma {:induction false} PressedRepeat(down: set<string>, k: string, n: nat)
    requires 1 <= n
    ensures Pressed(down, Repeat(KeyDown(k), n)) == down + {k}
  {
    if n > 1 {
      PressedRepeat(down, k, n - 1);
      PressedAppend(down, Repeat(KeyDown(k), n - 1), [KeyDown(k)]);
    }
  }

  /** No steering key is down except the one key_pressed records. */
  predicate Consistent(held: Option<string>, down: set<string>)
  {
    && WellFormed(held)
    && (KeyA in down ==> held == Some(KeyA))
    && (KeyD in down ==> held == Some(KeyD))
  }

  /**
   * What a ladder pass does to the keys actually held down: it never leaves A
   * and D down together; the straight band leaves neither down; the larger
   * directional bands leave exactly their own key down; and the small bands
   * record their key as held although it has just been released.
   */
  lemma LadderKeys(held: Option<string>, down: set<string>, angle: real)
    requires Consistent(held, down)
    ensures var r := Ladder(held, angle);
            var d := Pressed(down, r.events);
            && Consistent(r.held, d)
            && !(KeyA in d && KeyD in d)
            && (Classify(angle) == Straight ==> KeyA !in d && KeyD !in d)
            && (IsTap(Classify(angle)) ==> r.held.Some? && r.held.value !in d)
            && (SideOf(Classify(angle)) != Neither && !IsTap(Classify(angle)) ==>
                  var s := SideOf(Classify(angle));
                  SteerKey(s) in d && OtherKey(s) !in d)
  {
    var b := Classify(angle);
    var r := Ladder(held, angle);
    if SideOf(b) == Neither {
      if b == Straight && held.Some? {
        assert Pressed(down, r.events) == down - {held.value};
      }
    } else {
      var s := SideOf(b);
      var k, o := SteerKey(s), OtherKey(s);
      DirectionalIgnoresHeld(held, angle);
      var burst := [KeyUp(o)] + Repeat(KeyDown(k), Presses(b));
      assert Pressed(down, [KeyUp(o)]) == down - {o};
      PressedAppend(down, [KeyUp(o)], Repeat(KeyDown(k), Presses(b)));
      PressedRepeat(down - {o}, k, Presses(b));
      assert Pressed(down, burst) == down - {o} + {k};
      if IsTap(b) {
        PressedAppend(down, burst, [KeyUp(k)]);
        assert r.events == burst + [KeyUp(k)];
        PressedLast(down, burst, KeyUp(k));
        assert Pressed(down, r.events) == down - {o} - {k};
      } else {
        assert r.events == burst;
      }
    }
  }
}
