/** The motion state machine of the Sunshine rotator driver.

    A move request only stores a target; the position is advanced locally,
    one timer tick at a time, and no movement command is ever sent to the
    device. The state is the current angle (the goto property's value), the
    target angle and the goto property's state.
 */
module Motion {
  import opened Angles

  /** Degrees moved per tick, and also the tolerance within which a tick
      snaps onto the target. */
  const ROTATION_RATE: real := 10.0

  /** The target before any move request: outside every value `range360`
      returns, so "no target" cannot be mistaken for a 0 degree target. */
  const NO_TARGET: real := -1.0

  /** The INDI property state (IPState) used for the goto property. */
  datatype PropertyState = Idle | Ok | Busy | Alert

  datatype MotionState = MotionState(current: real, target: real, status: PropertyState)

  /** The direction of one step: +1 when the signed difference target -
      current lies in [0, 180] or in [-360, -180], -1 otherwise. */
  function StepSign(target: real, current: real): (sign: int)
    ensures sign == 1 || sign == -1
  {
    var d := target - current;
    if (d >= 0.0 && d <= 180.0) || (d <= -180.0 && d >= -360.0) then 1 else -1
  }

  /** For two angles in [0, 360] the sign rule picks the increasing direction
      exactly when the forward arc is the shorter one (ties go forward). The
      only pair left out is target 360 with current 0. */
  lemma StepSignIsShortestArc(target: real, current: real)
    requires InCircle(target) && InCircle(current)
    requires target - current != 360.0
    ensures StepSign(target, current) == 1 <==> ForwardArc(current, target) <= 180.0
  {
    Mod360Window(target - current);
  }

  /** The pair the previous lemma leaves out: the two angles name the same
      position, yet the rule says to step backwards. */
  lemma FullTurnStepsBackward()
    ensures ForwardArc(0.0, 360.0) == 0.0
    ensures StepSign(360.0, 0.0) == -1
  {
    Mod360Window(360.0);
  }

  /** The snap test: the LINEAR difference is within one step. */
  predicate WithinTolerance(m: MotionState)
    ensures WithinTolerance(m) <==> -ROTATION_RATE <= m.target - m.current <= ROTATION_RATE
  {
    Abs(m.target - m.current) <= ROTATION_RATE
  }

  /** The target a move request stores: the requested angle, or 360 minus it
      when the reverse switch is on, normalised by `wrap`. */
  function MoveTarget(angle: real, reversed: bool, wrap: real -> real): (t: real)
    ensures IsRange360(wrap) ==> InCircle(t) && t != NO_TARGET
  {
    wrap(if reversed then 360.0 - angle else angle)
  }

  /** Every stored target lies in [0, 360], so it is never the sentinel, and
      it is the requested (or mirrored) angle up to whole turns. */
  lemma MoveTargetLands(angle: real, reversed: bool, wrap: real -> real)
    requires IsRange360(wrap)
    ensures InCircle(MoveTarget(angle, reversed, wrap))
    ensures MoveTarget(angle, reversed, wrap) != NO_TARGET
    ensures reversed ==> IsMultipleOf360(MoveTarget(angle, reversed, wrap) + angle - 360.0)
    ensures !reversed ==> IsMultipleOf360(MoveTarget(angle, reversed, wrap) - angle)
  {
  }

  /** A request strictly inside (0, 360) is stored as it is, or as its
      mirror image when the reverse switch is on. */
  lemma MoveTargetInterior(angle: real, reversed: bool, wrap: real -> real)
    requires IsRange360(wrap)
    requires 0.0 < angle < 360.0
    ensures MoveTarget(angle, reversed, wrap) == if reversed then 360.0 - angle else angle
  {
    WrapFixesInterior(wrap, if reversed then 360.0 - angle else angle);
  }

  /** With the reverse switch on, a request for 30 degrees stores 330. */
  lemma ReversedThirtyIsThreeThirty(wrap: real -> real)
    requires IsRange360(wrap)
    ensures MoveTarget(30.0, true, wrap) == 330.0
  {
    WrapFixesInterior(wrap, 330.0);
  }

  /** One timer tick. While disconnected, or while the goto property is not
      Busy, nothing changes. A Busy tick within tolerance snaps onto the
      target and reports Ok; any other Busy tick moves one step in the
      direction of the sign rule and wraps the result. */
  function Tick(m: MotionState, connected: bool, wrap: real -> real): (r: MotionState)
    ensures r.target == m.target
    ensures r.status == m.status || (m.status == Busy && r.status == Ok)
    ensures r.status == Ok && m.status == Busy ==> r.current == m.target
  {
    if !connected || m.status != Busy then m
    else if WithinTolerance(m) then MotionState(m.target, m.target, Ok)
    else m.(current := wrap(m.current + ROTATION_RATE * StepSign(m.target, m.current) as real))
  }

  /** A tick that finds the driver disconnected or not Busy changes nothing. */
  lemma TickWhenNotMoving(m: MotionState, connected: bool, wrap: real -> real)
    requires !connected || m.status != Busy
    ensures Tick(m, connected, wrap) == m
  {
  }

  /** A Busy tick within tolerance lands exactly on the target and reports Ok. */
  lemma TickSnaps(m: MotionState, wrap: real -> real)
    requires m.status == Busy && WithinTolerance(m)
    ensures Tick(m, true, wrap) == MotionState(m.target, m.target, Ok)
  {
  }

  /** Any other Busy tick moves by exactly one step, either way, up to whole
      turns, stays Busy and leaves the target alone. */
  lemma TickSteps(m: MotionState, wrap: real -> real)
    requires IsRange360(wrap)
    requires m.status == Busy && !WithinTolerance(m)
    ensures var r := Tick(m, true, wrap);
      && r.status == Busy
      && r.target == m.target
      && InCircle(r.current)
      && (IsMultipleOf360(r.current - m.current - ROTATION_RATE)
          || IsMultipleOf360(r.current - m.current + ROTATION_RATE))
  {
  }

  /** Ticks keep the current angle in [0, 360] whenever a Busy driver has a
      target there. */
  lemma TickKeepsInCircle(m: MotionState, connected: bool, wrap: real -> real)
    requires IsRange360(wrap)
    requires InCircle(m.current)
    requires m.status == Busy ==> InCircle(m.target)
    ensures InCircle(Tick(m, connected, wrap).current)
  {
  }

  /** The heart of the termination argument. A Busy step that does not snap
      cuts the circular distance by exactly one step when that distance is at
      least a step. Otherwise the target is within a step only across 0/360,
      which the linear snap test does not see, and the step ends within
      tolerance of the target: it passes the target when it crosses 0/360
      (`OvershootAcrossZero`), and for current 0 with target 360, which name
      the same position, it steps back to 350. */
  lemma StepProgress(m: MotionState, wrap: real -> real)
    requires IsRange360(wrap)
    requires m.status == Busy && InCircle(m.current) && InCircle(m.target)
    requires !WithinTolerance(m)
    ensures var r := Tick(m, true, wrap);
      if CircularDistance(m.current, m.target) >= ROTATION_RATE
      then CircularDistance(r.current, r.target) == CircularDistance(m.current, m.target) - ROTATION_RATE
      else WithinTolerance(r)
  {
    var c, t := m.current, m.target;
    var sign := StepSign(t, c);
    var x := c + ROTATION_RATE * sign as real;
    WrapNear(wrap, x);
    var c' := wrap(x);
    assert Tick(m, true, wrap).current == c';
    Mod360Window(t - c);
    Mod360Window(t - c');
  }

  /** The termination measure: one tick left when within tolerance, else one
      more than the number of whole steps in the circular distance, plus the
      final snap. */
  function Measure(m: MotionState): (n: nat)
    ensures 1 <= n <= 20
  {
    if WithinTolerance(m) then 1
    else 2 + (CircularDistance(m.current, m.target) / ROTATION_RATE).Floor
  }

  lemma StepDecreasesMeasure(m: MotionState, wrap: real -> real)
    requires IsRange360(wrap)
    requires m.status == Busy && InCircle(m.current) && InCircle(m.target)
    requires !WithinTolerance(m)
    ensures Measure(Tick(m, true, wrap)) < Measure(m)
  {
    StepProgress(m, wrap);
    var r := Tick(m, true, wrap);
    if !WithinTolerance(r) {
      var d := CircularDistance(m.current, m.target);
      assert CircularDistance(r.current, r.target) / ROTATION_RATE == d / ROTATION_RATE - 1.0;
    }
  }

  /** `n` consecutive ticks of a connected driver. No run changes the
      target, a run that starts anywhere but Busy changes nothing, and a run
      ends either in the starting state or Ok with the current angle on the
      target. */
  function Run(m: MotionState, n: nat, wrap: real -> real): (r: MotionState)
    ensures r.target == m.target
    ensures m.status != Busy ==> r == m
    ensures r.status == m.status || (m.status == Busy && r.status == Ok && r.current == m.target)
    decreases n
  {
    if n == 0 then m else Run(Tick(m, true, wrap), n - 1, wrap)
  }

  /** Convergence: a connected driver that is Busy with both angles in
      [0, 360] reaches Ok with the current angle exactly on the target, after
      at most `Measure(m)` (never more than 20) ticks, and stays Busy until
      then. */
  lemma {:induction false} Settles(m: MotionState, wrap: real -> real) returns (n: nat)
    requires IsRange360(wrap)
    requires m.status == Busy && InCircle(m.current) && InCircle(m.target)
    ensures 1 <= n <= Measure(m)
    ensures Run(m, n, wrap) == MotionState(m.target, m.target, Ok)
    ensures forall i :: 0 <= i < n ==> Run(m, i, wrap).status == Busy
    decreases Measure(m)
  {
    var r := Tick(m, true, wrap);
    if WithinTolerance(m) {
      n := 1;
      assert Run(m, 1, wrap) == Run(r, 0, wrap);
    } else {
      StepDecreasesMeasure(m, wrap);
      TickSteps(m, wrap);
      var k := Settles(r, wrap);
      n := k + 1;
      assert Run(m, n, wrap) == Run(r, k, wrap);
      forall i | 0 <= i < n
        ensures Run(m, i, wrap).status == Busy
      {
        if i > 0 {
          assert Run(m, i, wrap) == Run(r, i - 1, wrap);
        }
      }
    }
  }

  /** From 350 degrees towards 10 the driver steps forwards through 0/360,
      the 20 degree arc, and not backwards along the 340 degree one. */
  lemma ThreeFiftyToTenGoesForward(wrap: real -> real)
    requires IsRange360(wrap)
    ensures StepSign(10.0, 350.0) == 1
    ensures var r := Tick(MotionState(350.0, 10.0, Busy), true, wrap);
      r.status == Busy && (r.current == 0.0 || r.current == 360.0)
  {
    WrapNear(wrap, 360.0);
  }

  /** The linear snap test lets a step pass the target: from 352 towards 1
      the first tick lands on 2, and only the second snaps onto 1. */
  lemma OvershootAcrossZero(wrap: real -> real)
    requires IsRange360(wrap)
    ensures Tick(MotionState(352.0, 1.0, Busy), true, wrap) == MotionState(2.0, 1.0, Busy)
    ensures Run(MotionState(352.0, 1.0, Busy), 2, wrap) == MotionState(1.0, 1.0, Ok)
  {
    WrapNear(wrap, 362.0);
    assert Run(MotionState(352.0, 1.0, Busy), 2, wrap)
        == Run(MotionState(2.0, 1.0, Busy), 1, wrap);
    assert Run(MotionState(2.0, 1.0, Busy), 1, wrap)
        == Run(MotionState(1.0, 1.0, Ok), 0, wrap);
  }

  /** Current 0 and target 360 name the same position, yet the linear snap
      test does not see it: the tick steps back to 350, and the next one
      snaps onto 360. */
  lemma FullTurnStepsAway(wrap: real -> real)
    requires IsRange360(wrap)
    ensures Tick(MotionState(0.0, 360.0, Busy), true, wrap) == MotionState(350.0, 360.0, Busy)
    ensures Run(MotionState(0.0, 360.0, Busy), 2, wrap) == MotionState(360.0, 360.0, Ok)
  {
    WrapNear(wrap, -10.0);
    assert Run(MotionState(0.0, 360.0, Busy), 2, wrap)
        == Run(MotionState(350.0, 360.0, Busy), 1, wrap);
    assert Run(MotionState(350.0, 360.0, Busy), 1, wrap)
        == Run(MotionState(360.0, 360.0, Ok), 0, wrap);
  }

  /** Re-entering Busy while already on the target resolves on the very next
      tick, without moving. */
  lemma BusyOnTargetResolves(angle: real, wrap: real -> real)
    ensures Tick(MotionState(angle, angle, Busy), true, wrap) == MotionState(angle, angle, Ok)
  {
  }
}
