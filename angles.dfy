/** Angle arithmetic in degrees, on exact reals.

    The driver normalises every angle with indicom's `range360`, whose
    definition is not part of this model. It is represented here only by its
    contract, `IsRange360`: a wrap function returns a value in [0, 360] that
    differs from its argument by a whole number of turns. Nothing is assumed
    about whether 360 itself maps to 0 or to 360.
 */
module Angles {

  /** True when `d` is a whole number of turns (an integer multiple of 360). */
  predicate IsMultipleOf360(d: real) {
    (d / 360.0).Floor as real == d / 360.0
  }

  /** The closed interval [0, 360]: every value `range360` can return. */
  predicate InCircle(a: real) {
    0.0 <= a <= 360.0
  }

  /** The contract of indicom's `range360`. */
  ghost predicate IsRange360(wrap: real -> real) {
    forall x :: InCircle(wrap(x)) && IsMultipleOf360(wrap(x) - x)
  }

  function Abs(x: real): (r: real)
    ensures r >= 0.0 && (r == x || r == -x)
  {
    if x < 0.0 then -x else x
  }

  /** The mathematical residue of `x` modulo 360, in [0, 360). */
  function Mod360(x: real): (r: real)
    ensures 0.0 <= r < 360.0
    ensures IsMultipleOf360(x - r)
  {
    var k := (x / 360.0).Floor;
    assert (x - (x - 360.0 * k as real)) / 360.0 == k as real;
    x - 360.0 * k as real
  }

  /** A multiple of 360 strictly between -720 and 720 is -360, 0 or 360. */
  lemma SmallMultiple(d: real)
    requires -720.0 < d < 720.0
    requires IsMultipleOf360(d)
    ensures d == -360.0 || d == 0.0 || d == 360.0
  {
    var k := (d / 360.0).Floor;
    assert d == 360.0 * k as real;
    assert -2 < k < 2;
  }

  /** The residue modulo 360 is the only value in [0, 360) congruent to `x`. */
  lemma Mod360Unique(x: real, r: real)
    requires 0.0 <= r < 360.0
    requires IsMultipleOf360(x - r)
    ensures Mod360(x) == r
  {
    var k1 := ((x - r) / 360.0).Floor;
    var k2 := (x / 360.0).Floor;
    assert x - r == 360.0 * k1 as real;
    assert Mod360(x) == x - 360.0 * k2 as real;
    assert Mod360(x) - r == 360.0 * (k1 - k2) as real;
    assert -1 < k1 - k2 < 1;
  }

  /** For a difference of two angles in [0, 360], the residue is one case
      split away: add one turn to a negative difference, and a full turn
      forward is no turn at all. */
  lemma Mod360Window(d: real)
    requires -360.0 <= d <= 360.0
    ensures Mod360(d) == if d < 0.0 then d + 360.0 else if d == 360.0 then 0.0 else d
  {
    var r := if d < 0.0 then d + 360.0 else if d == 360.0 then 0.0 else d;
    assert d - r == 0.0 || d - r == -360.0 || d - r == 360.0;
    assert ((d - r) / 360.0).Floor as real == (d - r) / 360.0;
    Mod360Unique(d, r);
  }

  /** The value a wrap function returns for an argument at most one turn
      outside [0, 360] is the argument moved by at most one turn. */
  lemma WrapNear(wrap: real -> real, x: real)
    requires IsRange360(wrap)
    requires -360.0 < x < 720.0
    ensures wrap(x) == x || wrap(x) == x - 360.0 || wrap(x) == x + 360.0
  {
    SmallMultiple(wrap(x) - x);
  }

  /** A value already strictly inside (0, 360) is a fixed point of every wrap
      function; 0 and 360 are the only ambiguous inputs in the circle. */
  lemma WrapFixesInterior(wrap: real -> real, x: real)
    requires IsRange360(wrap)
    requires 0.0 < x < 360.0
    ensures wrap(x) == x
  {
    SmallMultiple(wrap(x) - x);
  }

  /** How far one has to turn in the increasing direction to get from
      `from` to `to`. */
  function ForwardArc(from: real, to: real): (r: real)
    ensures 0.0 <= r < 360.0
    ensures IsMultipleOf360(to - from - r)
  {
    Mod360(to - from)
  }

  /** The length of the shorter of the two arcs between two angles. */
  function CircularDistance(a: real, b: real): (r: real)
    ensures 0.0 <= r <= 180.0
    ensures r == ForwardArc(a, b) || r == 360.0 - ForwardArc(a, b)
    ensures r <= ForwardArc(a, b) && r <= 360.0 - ForwardArc(a, b)
  {
    var f := ForwardArc(a, b);
    if f <= 180.0 then f else 360.0 - f
  }
}
