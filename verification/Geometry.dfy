/**
 Swept collision: what a shot crossed on one step is decided by its distance to the segment travelled, found
 by projecting and truncating. The exact geometry, over the reals, is what that is measured against.
 */
module Geometry {
  import opened FixedPoint

  const REACH := PLAYER_RADIUS + PROJECTILE_RADIUS

  function Dist2(sx: int, sy: int, ex: int, ey: int): nat {
    Square(sx - ex) + Square(sy - ey)
  }

  function Square(v: int): nat {
    assert v * v >= 0;
    v * v
  }

  /** How far P is from the step from S to E, squared, as whole-number arithmetic has it. */
  function SegDist2(px: int, py: int, sx: int, sy: int, ex: int, ey: int): nat {
    var dx, dy := ex - sx, ey - sy;
    var dot := (px - sx) * dx + (py - sy) * dy;
    var len2 := Square(dx) + Square(dy);
    if dx == 0 && dy == 0 then Dist2(px, py, sx, sy)
    else if dot <= 0 then Dist2(px, py, sx, sy)
    else if dot >= len2 then Dist2(px, py, ex, ey)
    else
      Dist2(px, py, sx + Trunc(dx * dot, len2), sy + Trunc(dy * dot, len2))
  }

  // ---- ranges ----

  /** A position a shot can have at the end of a step: on the map before it, and one step further. */
  predicate Reachable(a: int, b: int) {
    0 <= a <= MAP && Abs(b - a) <= PROJECTILE_SPEED
  }

  lemma ProductIsBounded(a: int, b: int, p: nat, q: nat)
    requires Abs(a) <= p && Abs(b) <= q
    ensures Abs(a * b) <= p * q
  {
    assert Abs(a * b) == Abs(a) * Abs(b);
    assert Abs(a) * Abs(b) <= p * Abs(b) <= p * q;
  }

  /** The values the sine goes through before its division, which is never by zero. */
  predicate SineFits(d: int) {
    var x := if Turned(d) > 180 then Turned(d) - 180 else Turned(d);
    var q := x * (180 - x);
    && Fits32(4 * x) && Fits32(4 * q) && Fits32(4000 * q) && Fits32(-4000 * q) && Fits32(q) && 0 < 40500 - q && Fits32(40500 - q)
  }

  lemma EverySineFits(d: int)
    ensures SineFits(d)
  {
    SineDenominator(if Turned(d) > 180 then Turned(d) - 180 else Turned(d));
  }

  /**
   At any tick rate and for any aim, every product behind a shot's start, a bot's stride or a spawn point fits, and so
   does what the sine and the cosine are computed from.
   */
  lemma AimedProductsFit(tickRate: int, aim: int, x: int, y: int)
    requires OnMap(x, y)
    ensures SineFits(aim) && SineFits(aim + 90)
    ensures var c, s, shot, walk := CosDeg(aim), SinDeg(aim), SpeedPerTick(PROJECTILE_SPEED, tickRate), SpeedPerTick(PLAYER_SPEED, tickRate);
      && Fits32(shot * c) && Fits32(shot * s) && Fits32(walk * c) && Fits32(walk * s)
      && Fits32(c * PLAYER_RADIUS) && Fits32(s * PLAYER_RADIUS) && Fits32(c * RING) && Fits32(s * RING)
      && Fits32(x + Trunc(c * PLAYER_RADIUS, 1000)) && Fits32(y + Trunc(s * PLAYER_RADIUS, 1000))
      && Fits32(x + Along(walk, c)) && Fits32(y + Along(walk, s))
  {
    EverySineFits(aim);
    EverySineFits(aim + 90);
    hide SinDeg, CosDeg, SpeedPerTick, Along, Trunc, SineFits;
    SineIsBounded(aim);
    UnitProductsFit(tickRate, CosDeg(aim), x);
    UnitProductsFit(tickRate, SinDeg(aim), y);
  }

  lemma UnitProductsFit(tickRate: int, unit: int, a: int)
    requires Abs(unit) <= 1000 && 0 <= a <= MAP
    ensures var shot, walk := SpeedPerTick(PROJECTILE_SPEED, tickRate), SpeedPerTick(PLAYER_SPEED, tickRate);
      && Fits32(shot * unit) && Fits32(walk * unit) && Fits32(unit * PLAYER_RADIUS) && Fits32(unit * RING)
      && Fits32(a + Trunc(unit * PLAYER_RADIUS, 1000)) && Fits32(a + Along(walk, unit))
  {
    hide Trunc, Along;
    var shot, walk := SpeedPerTick(PROJECTILE_SPEED, tickRate), SpeedPerTick(PLAYER_SPEED, tickRate);
    PerTickIsLess(PROJECTILE_SPEED, tickRate);
    PerTickIsLess(PLAYER_SPEED, tickRate);
    hide SpeedPerTick;
    ProductIsBounded(shot, unit, PROJECTILE_SPEED, 1000);
    ProductIsBounded(walk, unit, PLAYER_SPEED, 1000);
    TruncIsBounded(unit * PLAYER_RADIUS, 1000, PLAYER_RADIUS);
    AlongIsBounded(walk, unit);
  }

  /** At any tick rate, every intermediate value fits the register it is computed in. */
  lemma SweepFits(px: int, py: int, sx: int, sy: int, ex: int, ey: int)
    requires OnMap(px, py) && Reachable(sx, ex) && Reachable(sy, ey)
    ensures Fits32(ex - sx) && Fits32(ey - sy) && Fits32(px - sx) && Fits32(py - sy)
    ensures var dx, dy, wx, wy := ex - sx, ey - sy, px - sx, py - sy;
      var dot, len2 := wx * dx + wy * dy, dx * dx + dy * dy;
      && Fits64(wx * dx) && Fits64(wy * dy) && Fits64(dot) && Fits64(len2) && Fits64(dx * dot) && Fits64(dy * dot)
      && (0 < dot < len2 ==>
           && Fits32(Trunc(dx * dot, len2)) && Fits32(Trunc(dy * dot, len2))
           && Fits32(sx + Trunc(dx * dot, len2)) && Fits32(sy + Trunc(dy * dot, len2)))
  {
    var dx, dy, wx, wy := ex - sx, ey - sy, px - sx, py - sy;
    ProductIsBounded(wx, dx, MAP, PROJECTILE_SPEED);
    ProductIsBounded(wy, dy, MAP, PROJECTILE_SPEED);
    ProductIsBounded(dx, dx, PROJECTILE_SPEED, PROJECTILE_SPEED);
    ProductIsBounded(dy, dy, PROJECTILE_SPEED, PROJECTILE_SPEED);
    var dot, len2 := wx * dx + wy * dy, dx * dx + dy * dy;
    ProductIsBounded(dx, dot, PROJECTILE_SPEED, 2 * MAP * PROJECTILE_SPEED);
    ProductIsBounded(dy, dot, PROJECTILE_SPEED, 2 * MAP * PROJECTILE_SPEED);
    if 0 < dot < len2 {
      ShareIsPart(dx, dot, len2);
      ShareIsPart(dy, dot, len2);
    }
  }

  /** And so does what it comes to. */
  lemma SegDistFits(px: int, py: int, sx: int, sy: int, ex: int, ey: int)
    requires OnMap(px, py) && Reachable(sx, ex) && Reachable(sy, ey)
    ensures Fits64(SegDist2(px, py, sx, sy, ex, ey))
  {
    var dx, dy, wx, wy := ex - sx, ey - sy, px - sx, py - sy;
    var dot, len2 := wx * dx + wy * dy, Square(dx) + Square(dy);
    hide Dist2, Trunc, Square;
    DistanceFits(px, py, sx, sy);
    DistanceFits(px, py, ex, ey);
    if 0 < dot < len2 {
      ShareIsPart(dx, dot, len2);
      ShareIsPart(dy, dot, len2);
      DistanceFits(px, py, sx + Trunc(dx * dot, len2), sy + Trunc(dy * dot, len2));
    }
  }

  lemma DistanceFits(px: int, py: int, qx: int, qy: int)
    requires OnMap(px, py) && -PROJECTILE_SPEED <= qx <= MAP + PROJECTILE_SPEED && -PROJECTILE_SPEED <= qy <= MAP + PROJECTILE_SPEED
    ensures Fits32(px - qx) && Fits32(py - qy) && Fits64(Dist2(px, py, qx, qy))
  {
    ProductIsBounded(px - qx, px - qx, MAP + PROJECTILE_SPEED, MAP + PROJECTILE_SPEED);
    ProductIsBounded(py - qy, py - qy, MAP + PROJECTILE_SPEED, MAP + PROJECTILE_SPEED);
  }

  /** Part of the way along a step is no further than the step. */
  lemma ShareIsPart(d: int, dot: int, len2: int)
    requires 0 < dot < len2
    ensures Abs(Trunc(d * dot, len2)) <= Abs(d)
  {
    assert Abs(d * dot) <= len2 * Abs(d) by {
      assert Abs(d * dot) == Abs(d) * dot;
      assert Abs(d) * dot <= Abs(d) * len2;
    }
    TruncIsBounded(d * dot, len2, Abs(d));
  }

  // ---- the exact geometry ----

  function Sq(v: real): real { v * v }

  /** The squared distance from the point to where the path is at fraction `t`. */
  function PathDist2(px: int, py: int, sx: int, sy: int, ex: int, ey: int, t: real): real {
    Sq((px - sx) as real - t * (ex - sx) as real) + Sq((py - sy) as real - t * (ey - sy) as real)
  }

  /** Where along the path it comes closest. */
  function Nearest(px: int, py: int, sx: int, sy: int, ex: int, ey: int): real {
    var dx, dy := ex - sx, ey - sy;
    var dot := (px - sx) * dx + (py - sy) * dy;
    var len2 := Square(dx) + Square(dy);
    if dot <= 0 || (dx == 0 && dy == 0) then 0.0
    else if dot >= len2 then 1.0
    else dot as real / len2 as real
  }

  lemma Expand(w1: real, w2: real, d1: real, d2: real, t: real, u: real, L: real, D: real)
    requires L == d1 * d1 + d2 * d2 && D == w1 * d1 + w2 * d2
    ensures Sq(w1 - t * d1) + Sq(w2 - t * d2) - (Sq(w1 - u * d1) + Sq(w2 - u * d2)) == (t - u) * ((t + u) * L - 2.0 * D)
  {
    Difference(w1, d1, t, u);
    Difference(w2, d2, t, u);
    hide Sq;
    Gather(t - u, t + u, d1 * d1, d2 * d2, w1 * d1, w2 * d2);
  }

  lemma Gather(m: real, p: real, a: real, b: real, c: real, e: real)
    ensures m * (p * a - 2.0 * c) + m * (p * b - 2.0 * e) == m * (p * (a + b) - 2.0 * (c + e))
  {
    assert p * (a + b) == p * a + p * b;
    assert m * ((p * a - 2.0 * c) + (p * b - 2.0 * e)) == m * (p * a - 2.0 * c) + m * (p * b - 2.0 * e);
  }

  lemma Difference(w: real, d: real, t: real, u: real)
    ensures Sq(w - t * d) - Sq(w - u * d) == (t - u) * ((t + u) * (d * d) - 2.0 * (w * d))
  {
    var a, b := w - t * d, w - u * d;
    assert a * a - b * b == (a - b) * (a + b);
    assert a - b == (u - t) * d;
    assert a + b == 2.0 * w - (t + u) * d;
    calc {
      (u - t) * d * (2.0 * w - (t + u) * d);
      (u - t) * (d * (2.0 * w - (t + u) * d));
      (u - t) * (2.0 * (w * d) - (t + u) * (d * d));
      (t - u) * ((t + u) * (d * d) - 2.0 * (w * d));
    }
  }

  lemma RealProduct(a: int, b: int)
    ensures (a * b) as real == a as real * b as real
  {
  }

  /** The projection and the squared length, as the exact geometry sees them. */
  lemma RealProjection(wx: int, wy: int, dx: int, dy: int)
    ensures (wx * dx + wy * dy) as real == wx as real * dx as real + wy as real * dy as real
    ensures (Square(dx) + Square(dy)) as real == dx as real * dx as real + dy as real * dy as real
  {
    RealProduct(wx, dx);
    RealProduct(wy, dy);
    RealProduct(dx, dx);
    RealProduct(dy, dy);
  }

  /** What `Nearest` is, in terms of the real projection `D` and squared length `L`. */
  lemma NearestCases(px: int, py: int, sx: int, sy: int, ex: int, ey: int, L: real, D: real)
    requires L == (Square(ex - sx) + Square(ey - sy)) as real
    requires D == ((px - sx) * (ex - sx) + (py - sy) * (ey - sy)) as real
    ensures L >= 0.0
    ensures var u := Nearest(px, py, sx, sy, ex, ey);
      || (D <= 0.0 && u == 0.0) || (D >= L && u == 1.0) || (0.0 < D < L && u == D / L)
  {
    if ex == sx && ey == sy {
      assert (px - sx) * (ex - sx) == 0 && (py - sy) * (ey - sy) == 0;
    }
  }

  /** No point of the path is closer than the one the projection names. */
  lemma NearestIsNearest(px: int, py: int, sx: int, sy: int, ex: int, ey: int, t: real)
    requires 0.0 <= t <= 1.0
    ensures 0.0 <= Nearest(px, py, sx, sy, ex, ey) <= 1.0
    ensures PathDist2(px, py, sx, sy, ex, ey, Nearest(px, py, sx, sy, ex, ey)) <= PathDist2(px, py, sx, sy, ex, ey, t)
  {
    var u := Nearest(px, py, sx, sy, ex, ey);
    var L := (Square(ex - sx) + Square(ey - sy)) as real;
    var D := ((px - sx) * (ex - sx) + (py - sy) * (ey - sy)) as real;
    NearestCases(px, py, sx, sy, ex, ey, L, D);
    hide Nearest, Square;
    RealProjection(px - sx, py - sy, ex - sx, ey - sy);
    LeastAt((px - sx) as real, (py - sy) as real, (ex - sx) as real, (ey - sy) as real, t, u, L, D);
  }

  lemma LeastAt(w1: real, w2: real, d1: real, d2: real, t: real, u: real, L: real, D: real)
    requires 0.0 <= t <= 1.0 && 0.0 <= L == d1 * d1 + d2 * d2 && D == w1 * d1 + w2 * d2
    requires (D <= 0.0 && u == 0.0) || (D >= L && u == 1.0) || (0.0 < D < L && u == D / L)
    ensures 0.0 <= u <= 1.0
    ensures Sq(w1 - u * d1) + Sq(w2 - u * d2) <= Sq(w1 - t * d1) + Sq(w2 - t * d2)
  {
    hide Sq;
    SignOfGap(t, u, L, D);
    Expand(w1, w2, d1, d2, t, u, L, D);
  }

  lemma TimesAtLeastZero(a: real, b: real)
    requires (a >= 0.0 && b >= 0.0) || (a <= 0.0 && b <= 0.0)
    ensures a * b >= 0.0
  {
    if a < 0.0 {
      assert a * b == (-a) * (-b);
    }
  }

  /** The parabola of the squared distance has its least value on the unit interval where `Nearest` says. */
  lemma SignOfGap(t: real, u: real, L: real, D: real)
    requires 0.0 <= t <= 1.0 && L >= 0.0
    requires (D <= 0.0 && u == 0.0) || (D >= L && u == 1.0) || (0.0 < D < L && u == D / L)
    ensures 0.0 <= u <= 1.0
    ensures (t - u) * ((t + u) * L - 2.0 * D) >= 0.0
  {
    var slope := (t + u) * L - 2.0 * D;
    if 0.0 < D < L {
      assert u * L == D;
      assert slope == (t - u) * L;
      if t >= u {
        TimesAtLeastZero(t - u, L);
      } else {
        TimesAtLeastZero(u - t, L);
        assert (t - u) * L == -((u - t) * L);
      }
      TimesAtLeastZero(t - u, slope);
    } else if u == 1.0 && D >= L {
      TimesAtLeastZero(1.0 - t, L);
      assert (t + 1.0) * L == 2.0 * L - (1.0 - t) * L;
      TimesAtLeastZero(t - 1.0, slope);
    } else {
      TimesAtLeastZero(t, L);
      TimesAtLeastZero(t, slope);
    }
  }

  /** Two points within a unit of one another on each axis are nearly as far from anywhere. */
  lemma NearlyAsFar(vx: real, vy: real, ux: real, uy: real, r: real)
    requires r >= 0.0 && -1.0 <= ux - vx <= 1.0 && -1.0 <= uy - vy <= 1.0
    requires Sq(vx) + Sq(vy) <= Sq(r)
    ensures Sq(ux) + Sq(uy) <= Sq(r + 2.0)
  {
    SideIsShorter(vx, vy, r);
    SideIsShorter(vy, vx, r);
    OneAxis(vx, ux, r);
    OneAxis(vy, uy, r);
    assert Sq(r + 2.0) == Sq(r) + 4.0 * r + 4.0;
  }

  lemma SideIsShorter(a: real, b: real, r: real)
    requires r >= 0.0 && Sq(a) + Sq(b) <= Sq(r)
    ensures -r <= a <= r
  {
    TimesAtLeastZero(b, b);
    if a > r {
      LongerSquare(a, r);
    }
    assert Sq(-a) == Sq(a);
    if -a > r {
      LongerSquare(-a, r);
    }
  }

  lemma LongerSquare(a: real, r: real)
    requires 0.0 <= r < a
    ensures Sq(a) > Sq(r)
  {
    var e := a - r;
    assert Sq(a) == Sq(r) + 2.0 * (e * r) + e * e;
    TimesAtLeastZero(e, r);
  }

  lemma OneAxis(v: real, u: real, r: real)
    requires r >= 0.0 && -1.0 <= u - v <= 1.0 && -r <= v <= r
    ensures Sq(u) <= Sq(v) + 2.0 * r + 1.0
  {
    var e := u - v;
    assert Sq(u) == Sq(v) + 2.0 * (v * e) + Sq(e);
    assert v * e <= r by {
      if e >= 0.0 {
        assert v * e <= r * e <= r;
      } else {
        assert v * e == (-v) * (-e) <= r * (-e) <= r;
      }
    }
    assert Sq(e) <= 1.0;
  }

  /** The point the arithmetic measures to is within one unit, on each axis, of the exact closest point. */
  lemma TruncatedPointIsClose(d: int, dot: int, len2: int)
    requires 0 < dot < len2
    ensures -1.0 < Trunc(d * dot, len2) as real - (dot as real / len2 as real) * d as real < 1.0
  {
    TruncIsClose(d * dot, len2);
    var q := Trunc(d * dot, len2);
    Share(q, d, dot, len2);
  }

  lemma Share(q: int, d: int, dot: int, len2: int)
    requires len2 > 0 && -len2 < d * dot - len2 * q < len2
    ensures -1.0 < q as real - (dot as real / len2 as real) * d as real < 1.0
  {
    var L, share := len2 as real, dot as real / len2 as real;
    assert share * L == dot as real;
    var g := q as real - share * d as real;
    assert g * L == q as real * L - (share * L) * d as real;
    RealProduct(len2, q);
    RealProduct(d, dot);
    Cancel(g, 1.0, L);
    Cancel(-1.0, g, L);
  }

  lemma Cancel(g: real, h: real, L: real)
    requires L > 0.0 && g * L < h * L
    ensures g < h
  {
    assert (g - h) * L == g * L - h * L;
    if g >= h {
      TimesAtLeastZero(g - h, L);
    }
  }

  /** The whole-unit point the arithmetic measures to. */
  function Measured(px: int, py: int, sx: int, sy: int, ex: int, ey: int): (int, int) {
    var dx, dy := ex - sx, ey - sy;
    var dot := (px - sx) * dx + (py - sy) * dy;
    var len2 := Square(dx) + Square(dy);
    if dot <= 0 || (dx == 0 && dy == 0) then (sx, sy)
    else if dot >= len2 then (ex, ey)
    else (sx + Trunc(dx * dot, len2), sy + Trunc(dy * dot, len2))
  }

  /** It is within a unit, on each axis, of where the path comes closest. */
  lemma MeasuredIsClose(px: int, py: int, sx: int, sy: int, ex: int, ey: int)
    ensures var m, t := Measured(px, py, sx, sy, ex, ey), Nearest(px, py, sx, sy, ex, ey);
      && -1.0 <= m.0 as real - (sx as real + t * (ex - sx) as real) <= 1.0
      && -1.0 <= m.1 as real - (sy as real + t * (ey - sy) as real) <= 1.0
    ensures var m := Measured(px, py, sx, sy, ex, ey); SegDist2(px, py, sx, sy, ex, ey) == Dist2(px, py, m.0, m.1)
  {
    var dx, dy := ex - sx, ey - sy;
    var dot := (px - sx) * dx + (py - sy) * dy;
    var len2 := Square(dx) + Square(dy);
    hide Trunc, Square;
    if 0 < dot < len2 && !(dx == 0 && dy == 0) {
      TruncatedPointIsClose(dx, dot, len2);
      TruncatedPointIsClose(dy, dot, len2);
    }
  }

  lemma RealDistance(px: int, py: int, qx: int, qy: int)
    ensures Dist2(px, py, qx, qy) as real == Sq((px - qx) as real) + Sq((py - qy) as real)
  {
    RealProduct(px - qx, px - qx);
    RealProduct(py - qy, py - qy);
  }

  /** Some point of the path comes within `r` of the target. */
  ghost predicate PassesWithin(px: int, py: int, sx: int, sy: int, ex: int, ey: int, r: real) {
    exists t: real :: 0.0 <= t <= 1.0 && PathDist2(px, py, sx, sy, ex, ey, t) <= Sq(r)
  }

  /** Measured and exact distance, side by side: `v` is the exact offset of the path from the target, `u` the measured one. */
  lemma Offsets(px: int, py: int, sx: int, sy: int, ex: int, ey: int) returns (ux: real, uy: real, vx: real, vy: real)
    ensures -1.0 <= ux - vx <= 1.0 && -1.0 <= uy - vy <= 1.0
    ensures SegDist2(px, py, sx, sy, ex, ey) as real == Sq(ux) + Sq(uy)
    ensures PathDist2(px, py, sx, sy, ex, ey, Nearest(px, py, sx, sy, ex, ey)) == Sq(vx) + Sq(vy)
  {
    hide Nearest, Measured, SegDist2, Dist2, Sq;
    var u, m := Nearest(px, py, sx, sy, ex, ey), Measured(px, py, sx, sy, ex, ey);
    MeasuredIsClose(px, py, sx, sy, ex, ey);
    RealDistance(px, py, m.0, m.1);
    var tx, ty := u * (ex - sx) as real, u * (ey - sy) as real;
    ux, uy := (px - m.0) as real, (py - m.1) as real;
    vx, vy := (px - sx) as real - tx, (py - sy) as real - ty;
    assert ux - vx == -(m.0 as real - (sx as real + tx));
    assert uy - vy == -(m.1 as real - (sy as real + ty));
    hide PathDist2;
    PathDistIs(px, py, sx, sy, ex, ey, u, vx, vy);
  }

  lemma PathDistIs(px: int, py: int, sx: int, sy: int, ex: int, ey: int, t: real, vx: real, vy: real)
    requires vx == (px - sx) as real - t * (ex - sx) as real && vy == (py - sy) as real - t * (ey - sy) as real
    ensures PathDist2(px, py, sx, sy, ex, ey, t) == Sq(vx) + Sq(vy)
  {
  }

  /** A target some point of the path comes within two units less than the reach of is always found. */
  lemma NearIsFound(px: int, py: int, sx: int, sy: int, ex: int, ey: int)
    requires PassesWithin(px, py, sx, sy, ex, ey, (REACH - 2) as real)
    ensures SegDist2(px, py, sx, sy, ex, ey) <= REACH * REACH
  {
    hide Nearest, Measured, SegDist2, Dist2, Sq, PathDist2;
    var ux, uy, vx, vy := Offsets(px, py, sx, sy, ex, ey);
    var t :| 0.0 <= t <= 1.0 && PathDist2(px, py, sx, sy, ex, ey, t) <= Sq((REACH - 2) as real);
    NearestIsNearest(px, py, sx, sy, ex, ey, t);
    NearlyAsFar(vx, vy, ux, uy, (REACH - 2) as real);
    ReachSquared();
  }

  /** A target no point of the path comes within two units more than the reach of is never found. */
  lemma FoundIsNear(px: int, py: int, sx: int, sy: int, ex: int, ey: int)
    requires SegDist2(px, py, sx, sy, ex, ey) <= REACH * REACH
    ensures PassesWithin(px, py, sx, sy, ex, ey, (REACH + 2) as real)
  {
    hide Nearest, Measured, SegDist2, Dist2, Sq, PathDist2;
    var ux, uy, vx, vy := Offsets(px, py, sx, sy, ex, ey);
    var u := Nearest(px, py, sx, sy, ex, ey);
    NearestIsNearest(px, py, sx, sy, ex, ey, 0.0);
    ReachSquared();
    NearlyAsFar(ux, uy, vx, vy, REACH as real);
    assert 0.0 <= u <= 1.0 && PathDist2(px, py, sx, sy, ex, ey, u) <= Sq((REACH + 2) as real);
  }

  lemma ReachSquared()
    ensures Sq(REACH as real) == (REACH * REACH) as real
    ensures Sq((REACH - 2) as real + 2.0) == Sq(REACH as real) && Sq(REACH as real + 2.0) == Sq((REACH + 2) as real)
  {
  }
}
