/** The shaping of stick values on their way into the mixer: expo, curves, and the speed limit of a mix. */
module Shaping {
  import opened Bits
  import opened Wire
  import opened Model
  import opened CrsfPacking
  import Mixer

  const SEGMENTS := 8
  const RANGE := 2048

  // ---------------------------------------------------------------- parts of a distance

  /** `distance` times `part` out of `whole`, rounded toward zero, lies between zero and the distance. */
  lemma Portion(distance: int, part: nat, whole: nat)
    requires part <= whole && whole > 0
    ensures var p := Truncate(distance * part, whole);
      (0 <= p <= distance || distance <= p <= 0) && (part == whole ==> p == distance)
  {
    if distance >= 0 {
      Mixer.PartOf(distance, part, whole);
      Whole(distance, whole);
    } else {
      Mixer.PartOf(-distance, part, whole);
      Whole(-distance, whole);
      Mirror(distance, part);
      TruncateOdd(distance * part, whole);
    }
  }

  lemma Mirror(x: int, y: int)
    ensures -(x * y) == (-x) * y
  {
  }

  lemma Whole(x: nat, whole: nat)
    requires whole > 0
    ensures x * whole / whole == x
  {
    var q := Mixer.Quotient(x * whole, whole);
    assert (x + 1) * whole == x * whole + whole && (q + 1) * whole == q * whole + whole;
    Below(x, q, whole);
    Below(q, x, whole);
  }

  lemma TruncateOdd(a: int, b: int)
    requires b > 0
    ensures Truncate(-a, b) == -Truncate(a, b)
  {
    assert 0 / b == 0;
  }

  // ---------------------------------------------------------------- curves

  /** The segment a value falls into; the upper end belongs to the last one. */
  function Segment(x: int): (i: nat)
    requires InResolution(x)
    ensures i < SEGMENTS && i * 256 - 1024 <= x <= (i + 1) * 256 - 1024
  {
    Clamp(0, (x + RESOLUTION) * SEGMENTS / RANGE, SEGMENTS - 1)
  }

  function ApplyCurve(input: int16, curve: Curve): int16 {
    if !curve.enabled then input
    else
      var x := Clamp(-RESOLUTION, input, RESOLUTION);
      var i := Segment(x);
      var a: int, b: int := curve.points[i], curve.points[i + 1];
      var rest := (x + RESOLUTION) * SEGMENTS - i * RANGE;
      Clamp(-RESOLUTION, a + Truncate((b - a) * rest, RANGE), RESOLUTION)
  }

  /** Within a segment the curve stays between the two points at its ends. */
  lemma CurveBetween(x: int16, curve: Curve)
    requires curve.enabled && InResolution(x) && ValuesOk(curve.points)
    ensures var i, y := Segment(x), ApplyCurve(x, curve);
      curve.points[i] <= y <= curve.points[i + 1] || curve.points[i + 1] <= y <= curve.points[i]
  {
    var i := Segment(x);
    var a: int, b: int := curve.points[i], curve.points[i + 1];
    Portion(b - a, (x + RESOLUTION) * SEGMENTS - i * RANGE, RANGE);
    assert InResolution(curve.points[i]) && InResolution(curve.points[i + 1]);
  }

  /** The curve passes through its nine points. */
  lemma CurveThroughPoints(k: nat, curve: Curve)
    requires curve.enabled && k < CURVE_POINTS && ValuesOk(curve.points)
    ensures ApplyCurve(256 * k - 1024, curve) == curve.points[k]
  {
    var x: int16 := 256 * k - 1024;
    var i := Segment(x);
    var a: int, b: int := curve.points[i], curve.points[i + 1];
    var rest := (x + RESOLUTION) * SEGMENTS - i * RANGE;
    assert InResolution(curve.points[i]) && InResolution(curve.points[i + 1]);
    assert if k == 8 then i == 7 && rest == RANGE else i == k && rest == 0;
    Portion(b - a, rest, RANGE);
    assert (b - a) * 0 == 0;
  }

  // ---------------------------------------------------------------- expo

  function Cubic(x: int): int {
    Truncate(Truncate(x * x, RESOLUTION) * x, RESOLUTION)
  }

  /** How far expo bends a value: a part of the way to its cube, or as far to the other side. */
  function Bend(x: int, percent: int8): int {
    Truncate((Cubic(x) - x) * Clamp(-100, percent, 100), 100)
  }

  function ApplyExpo(input: int16, percent: int8): int16 {
    var x := Clamp(-RESOLUTION, input, RESOLUTION);
    Clamp(-RESOLUTION, x + Bend(x, percent), RESOLUTION)
  }

  /** The cube of a stick value is no further from the centre than the value, on the same side. */
  lemma CubicInside(x: int)
    requires 0 <= x <= RESOLUTION
    ensures 0 <= Cubic(x) <= x
    ensures (x == 0 ==> Cubic(x) == 0) && (x == RESOLUTION ==> Cubic(x) == x)
  {
    Portion(x, x, RESOLUTION);
    var q := Truncate(x * x, RESOLUTION);
    Portion(x, q, RESOLUTION);
    assert q * x == x * q;
    assert x == 0 ==> x * x == 0 && q * x == 0;
  }

  lemma CubicOdd(x: int)
    ensures Cubic(-x) == -Cubic(x)
  {
    assert (-x) * (-x) == x * x;
    var q := Truncate(x * x, RESOLUTION);
    Mirror(x, q);
    assert q * (-x) == (-x) * q && x * q == q * x;
    TruncateOdd(q * x, RESOLUTION);
  }

  lemma BendOdd(x: int, percent: int8)
    ensures Bend(-x, percent) == -Bend(x, percent)
  {
    CubicOdd(x);
    hide Cubic;
    var amount := Clamp(-100, percent, 100);
    Mirror(Cubic(x) - x, amount);
    assert Cubic(-x) - (-x) == -(Cubic(x) - x);
    TruncateOdd((Cubic(x) - x) * amount, 100);
  }

  lemma BendInside(x: int, percent: int8)
    requires 0 <= x <= RESOLUTION
    ensures percent >= 0 ==> -x <= Bend(x, percent) <= 0
    ensures percent <= 0 ==> 0 <= Bend(x, percent) <= x
    ensures x == 0 || x == RESOLUTION ==> Bend(x, percent) == 0
  {
    CubicInside(x);
    hide Cubic;
    var amount := Clamp(-100, percent, 100);
    var distance := Cubic(x) - x;
    if amount >= 0 {
      Portion(distance, amount, 100);
    } else {
      Portion(-distance, -amount, 100);
      Mirror(distance, -amount);
      assert (-distance) * (-amount) == distance * amount;
    }
    assert distance == 0 ==> distance * amount == 0;
  }

  /** Expo is odd, keeps the centre and the ends, and stays on the stick's side; a positive percentage
      softens the stick, a negative one sharpens it. */
  lemma ExpoShape(x: int16, percent: int8)
    requires 0 <= x <= RESOLUTION
    ensures ApplyExpo(-(x as int), percent) == -(ApplyExpo(x, percent) as int)
    ensures 0 <= ApplyExpo(x, percent) <= RESOLUTION
    ensures percent >= 0 ==> ApplyExpo(x, percent) <= x
    ensures percent <= 0 ==> ApplyExpo(x, percent) >= x
    ensures x == 0 || x == RESOLUTION ==> ApplyExpo(x, percent) == x
  {
    BendInside(x, percent);
    BendOdd(x, percent);
    hide Bend, Cubic;
    assert ApplyExpo(x, percent) == Clamp(-RESOLUTION, x + Bend(x, percent), RESOLUTION);
  }

  // ---------------------------------------------------------------- the speed limit of a mix

  /** The most a limited mix may move in `deltaUs`; the product is cut to 32 bits. */
  function MaximumDelta(speed: uint16, deltaUs: nat): int {
    var delta := speed * deltaUs / 1000000 % 0x1_0000_0000;
    if 1 <= delta < 0x8000_0000 then delta else 1
  }

  function Slewed(value: int, target: int, speedUp: uint16, speedDown: uint16, deltaUs: nat): int {
    var speed := if target > value then speedUp else speedDown;
    if speed == 0 || deltaUs == 0 then target
    else
      var limit := MaximumDelta(speed, deltaUs);
      value + Clamp(-limit, target - value, limit)
  }

  /** A limited mix moves toward its target and never past it, by no more than its speed allows; a target
      within reach is met. */
  lemma SlewMoves(value: int, target: int, speedUp: uint16, speedDown: uint16, deltaUs: nat)
    ensures var next := Slewed(value, target, speedUp, speedDown, deltaUs);
      var speed := if target > value then speedUp else speedDown;
      && (value <= next <= target || target <= next <= value)
      && (speed > 0 && deltaUs > 0 ==>
          && -MaximumDelta(speed, deltaUs) <= next - value <= MaximumDelta(speed, deltaUs)
          && (-MaximumDelta(speed, deltaUs) <= target - value <= MaximumDelta(speed, deltaUs) <==> next == target))
      && (next == value ==> value == target)
  {
    hide MaximumDelta;
    var speed := if target > value then speedUp else speedDown;
    assert MaximumDelta(speed, deltaUs) >= 1 by {
      AtLeastOne(speed, deltaUs);
    }
  }

  lemma AtLeastOne(speed: uint16, deltaUs: nat)
    ensures MaximumDelta(speed, deltaUs) >= 1
  {
  }

  /** The limit is the one configured, at least one, exactly while the product fits 31 bits: for about nine
      hours between two frames at the highest speed. */
  lemma SlewLimitExact(speed: uint16, deltaUs: nat)
    ensures MaximumDelta(speed, deltaUs) == (if speed * deltaUs / 1000000 == 0 then 1 else speed * deltaUs / 1000000)
      <==> speed * deltaUs / 1000000 < 0x8000_0000
  {
    NotPositive(speed, deltaUs);
  }
}
