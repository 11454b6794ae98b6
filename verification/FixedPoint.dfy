/** Whole-number arithmetic in thousandths of a unit, on 32-bit values, truncating toward zero. */
module FixedPoint {
  const MAP := 2_000_000
  const PLAYER_RADIUS := 18_000
  const PROJECTILE_RADIUS := 6_000
  const PLAYER_SPEED := 280_000
  const PROJECTILE_SPEED := 720_000
  const RING := 700_000

  /** Division as the machine does it: toward zero. */
  function Trunc(a: int, b: int): int
    requires b > 0
  {
    if a >= 0 then a / b else -((-a) / b)
  }

  /** The value a 32-bit register holds after an operation whose exact result is `v`. */
  function Wrap32(v: int): int {
    var r := v % 0x1_0000_0000;
    if r < 0x8000_0000 then r else r - 0x1_0000_0000
  }

  predicate Fits32(v: int) {
    -0x8000_0000 <= v < 0x8000_0000
  }

  predicate Fits64(v: int) {
    -0x8000_0000_0000_0000 <= v < 0x8000_0000_0000_0000
  }

  function Clamp(v: int, lo: int, hi: int): int {
    if v < lo then lo else if v > hi then hi else v
  }

  function ClampDir(v: int): int {
    if v < -1 then -1 else if v > 1 then 1 else v
  }

  function Abs(v: int): nat {
    if v < 0 then -v else v
  }

  lemma Quotient(a: nat, b: nat)
    requires b > 0
    ensures 0 <= a - b * (a / b) < b && a / b >= 0 && b * (a / b) >= 0
  {
    assert a == b * (a / b) + a % b;
  }

  lemma MoreTimes(b: nat, x: int, y: int)
    requires x <= y
    ensures b * x <= b * y
  {
    assert b * (y - x) >= 0;
    assert b * (y - x) == b * y - b * x;
  }

  lemma AtLeastOnce(q: nat, b: nat)
    requires b >= 1
    ensures q <= b * q
  {
    MoreTimes(q, 1, b);
  }

  /** Truncation never leaves the exact quotient by a whole unit, and never past it. */
  lemma TruncIsClose(a: int, b: int)
    requires b > 0
    ensures -b < a - b * Trunc(a, b) < b
    ensures Abs(b * Trunc(a, b)) <= Abs(a)
    ensures a >= 0 ==> Trunc(a, b) >= 0
    ensures a <= 0 ==> Trunc(a, b) <= 0
  {
    if a >= 0 {
      Quotient(a, b);
    } else {
      var q := (-a) / b;
      Quotient(-a, b);
      assert b * -q == -(b * q);
    }
  }

  lemma TruncIsBounded(a: int, b: int, limit: nat)
    requires b > 0 && Abs(a) <= b * limit
    ensures Abs(Trunc(a, b)) <= limit
  {
    var q := Trunc(a, b);
    TruncIsClose(a, b);
    assert b * (limit + 1) == b * limit + b;
    assert b * -(limit as int + 1) == -(b * limit) - b;
    if q > limit {
      MoreTimes(b, limit + 1, q);
    }
    if q < 0 - limit {
      MoreTimes(b, q, -(limit as int + 1));
    }
  }

  /** Degrees, as any whole number of them, brought into one turn. */
  function Turned(d: int): (r: nat)
    ensures r < 360
  {
    d % 360
  }

  /** Bhaskara's approximation on half a turn, in thousandths. */
  function HalfSine(x: nat): int
    requires x <= 180
  {
    SineDenominator(x);
    (4000 * (x * (180 - x))) / (40500 - x * (180 - x))
  }

  lemma SineDenominator(x: nat)
    requires x <= 180
    ensures 0 <= x * (180 - x) <= 8100
  {
    assert 8100 - x * (180 - x) == (x - 90) * (x - 90);
    assert (x - 90) * (x - 90) >= 0;
  }

  function SinDeg(d: int): int {
    var t := Turned(d);
    if t > 180 then -HalfSine(t - 180) else HalfSine(t)
  }

  function CosDeg(d: int): int {
    SinDeg(d + 90)
  }

  /** Never longer than one, which is what bounds every speed and every muzzle. */
  lemma SineIsBounded(d: int)
    ensures Abs(SinDeg(d)) <= 1000 && Abs(CosDeg(d)) <= 1000
  {
    HalfSineIsBounded(if Turned(d) > 180 then Turned(d) - 180 else Turned(d));
    HalfSineIsBounded(if Turned(d + 90) > 180 then Turned(d + 90) - 180 else Turned(d + 90));
  }

  lemma HalfSineIsBounded(x: nat)
    requires x <= 180
    ensures 0 <= HalfSine(x) <= 1000
  {
    SineDenominator(x);
    RatioIsBounded(x * (180 - x));
  }

  lemma RatioIsBounded(q: nat)
    requires q <= 8100
    ensures 0 <= (4000 * q) / (40500 - q) <= 1000
  {
    TruncIsBounded(4000 * q, 40500 - q, 1000);
  }

  /** Exact at the quarter turns, odd under half a turn, symmetric about a quarter, the same after a whole one. */
  lemma SineTurns(d: int)
    ensures SinDeg(0) == 0 && SinDeg(90) == 1000 && CosDeg(0) == 1000 && CosDeg(90) == 0
    ensures SinDeg(d + 180) == -SinDeg(d) && SinDeg(180 - d) == SinDeg(d) && SinDeg(d + 360) == SinDeg(d)
  {
    SineLandmarks();
    HalfTurnOn(d);
    HalfTurnBack(d);
    HalfSineMirrors(Turned(d));
    HalfSineMirrors(Turned(d) - 180);
    SineOf(d);
    SineOf(d + 180);
    SineOf(180 - d);
    SineOf(d + 360);
    hide SinDeg, HalfSine, Turned;
  }

  lemma SineOf(d: int)
    ensures SinDeg(d) == if Turned(d) > 180 then -HalfSine(Turned(d) - 180) else HalfSine(Turned(d))
  {
  }

  lemma SineLandmarks()
    ensures SinDeg(0) == 0 && SinDeg(90) == 1000 && CosDeg(0) == 1000 && CosDeg(90) == 0
    ensures HalfSine(0) == 0 && HalfSine(180) == 0
  {
  }

  lemma HalfTurnOn(d: int)
    ensures Turned(d + 180) == if Turned(d) < 180 then Turned(d) + 180 else Turned(d) - 180
    ensures Turned(d + 360) == Turned(d)
  {
  }

  lemma HalfTurnBack(d: int)
    ensures Turned(180 - d) == if Turned(d) <= 180 then 180 - Turned(d) else 540 - Turned(d)
  {
  }

  lemma HalfSineMirrors(x: int)
    ensures 0 <= x <= 180 ==> HalfSine(180 - x) == HalfSine(x)
  {
    assert (180 - x) * (180 - (180 - x)) == x * (180 - x);
  }

  /** On the middle half of half a turn the sine is at least seven tenths. */
  lemma HalfSineIsLong(x: nat)
    requires 45 <= x <= 135
    ensures HalfSine(x) >= 705
  {
    SineDenominator(x);
    var q := x * (180 - x);
    assert 8100 - q == (x - 90) * (x - 90);
    SquareOfSmall(x - 90, 45);
    LongRatio(q);
  }

  lemma SquareOfSmall(a: int, b: nat)
    requires -(b as int) <= a <= b
    ensures a * a <= b * b
  {
    if a >= 0 {
      MoreTimes(a, a, b);
      MoreTimes(b, a, b);
    } else {
      MoreTimes(-a, -a, b);
      MoreTimes(b, -a, b);
      assert a * a == -a * -a;
    }
  }

  lemma LongRatio(q: nat)
    requires 6075 <= q <= 8100
    ensures (4000 * q) / (40500 - q) >= 705
  {
    Quotient(4000 * q, 40500 - q);
    var k := (4000 * q) / (40500 - q);
    if k <= 704 {
      MoreTimes(40500 - q, k, 704);
    }
  }

  /** The signs of the quarters, and whichever of sine and cosine is the longer is at least seven tenths. */
  lemma SineQuarters(d: int)
    ensures Turned(d) <= 180 ==> SinDeg(d) >= 0
    ensures Turned(d) > 180 ==> SinDeg(d) <= 0
    ensures Abs(SinDeg(d)) >= 705 || Abs(CosDeg(d)) >= 705
  {
    SineOf(d);
    SineOf(d + 90);
    QuarterOn(d);
    hide SinDeg, HalfSine, Turned;
    var t, u := Turned(d), Turned(d + 90);
    HalfSineIsBounded(if t > 180 then t - 180 else t);
    var x, y := if t > 180 then t - 180 else t, if u > 180 then u - 180 else u;
    if 45 <= x <= 135 {
      HalfSineIsLong(x);
    } else {
      HalfSineIsLong(y);
    }
  }

  lemma QuarterOn(d: int)
    ensures Turned(d + 90) == if Turned(d) < 270 then Turned(d) + 90 else Turned(d) - 270
  {
  }

  /** A speed scaled by a sine or cosine: `speed * d / 1000`. */
  function Along(speed: nat, unit: int): int {
    Trunc(speed * unit, 1000)
  }

  lemma AlongIsBounded(speed: nat, unit: int)
    requires Abs(unit) <= 1000
    ensures Abs(Along(speed, unit)) <= speed
  {
    assert Abs(speed * unit) <= 1000 * speed by {
      assert speed * unit <= speed * 1000;
      assert speed * unit >= speed * -1000;
    }
    TruncIsBounded(speed * unit, 1000, speed);
  }

  /** How far a player moves in one step along one axis. */
  function Stride(speed: nat, d: int, diagonal: bool): int
    requires -1 <= d <= 1
  {
    if diagonal then Trunc(speed * d * 707, 1000) else speed * d
  }

  function SpeedPerTick(speed: nat, tickRate: int): nat {
    speed / if tickRate > 0 then tickRate else 20
  }

  lemma PerTickIsLess(speed: nat, tickRate: int)
    ensures SpeedPerTick(speed, tickRate) <= speed
  {
    var d := if tickRate > 0 then tickRate else 20;
    Quotient(speed, d);
    AtLeastOnce(speed / d, d);
  }

  /** A second's ticks of it come to the speed, but for less than one unit a tick; twenty to the second unless told otherwise. */
  lemma PerTickIsItsShare(speed: nat, tickRate: int)
    ensures var d, step := if tickRate > 0 then tickRate else 20, SpeedPerTick(speed, tickRate); d * step <= speed < d * (step + 1)
  {
    var d := if tickRate > 0 then tickRate else 20;
    Quotient(speed, d);
    assert d * (speed / d + 1) == d * (speed / d) + d;
  }

  /** The ring of opening and respawn points. */
  function SpawnX(i: nat, n: nat): int {
    if n <= 1 then MAP / 2 else MAP / 2 + Trunc(CosDeg((360 * i) / n) * RING, 1000)
  }

  function SpawnY(i: nat, n: nat): int {
    if n <= 1 then MAP / 2 else MAP / 2 + Trunc(SinDeg((360 * i) / n) * RING, 1000)
  }

  predicate OnMap(x: int, y: int) {
    PLAYER_RADIUS <= x <= MAP - PLAYER_RADIUS && PLAYER_RADIUS <= y <= MAP - PLAYER_RADIUS
  }

  lemma SpawnIsOnMap(i: nat, n: nat)
    ensures OnMap(SpawnX(i, n), SpawnY(i, n))
  {
    if n > 1 {
      var angle := (360 * i) / n;
      SineIsBounded(angle);
      TruncIsBounded(CosDeg(angle) * RING, 1000, RING);
      TruncIsBounded(SinDeg(angle) * RING, 1000, RING);
    }
  }
}
