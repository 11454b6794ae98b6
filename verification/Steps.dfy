/** Whole steps: what the clocks do, what shots do, and what a step leaves of the world's laws. */
module Steps {
  import opened FixedPoint
  import opened Geometry
  import opened SimTypes
  import opened Arena
  import opened Laws

  // ---- the clocks ----

  predicate Leaves(p: Player) {
    p.left && p.linger == 1
  }

  function Timed(p: Player): (t: Player)
    ensures t.id == p.id && t.left == p.left && t.bot == p.bot && t.score == p.score
    ensures FineSeat(p) ==> FineSeat(t) && (t.alive ==> p.alive)
  {
    var q := p.(protect := CountDown(p.protect));
    if Leaves(p) then q.(linger := 0, alive := false, hp := 0, respawn := 0)
    else if p.left && p.linger > 0 then q.(linger := p.linger - 1)
    else q
  }

  /** Every clock is charged exactly one tick, and only a seat whose linger runs out is announced. */
  lemma {:induction false} TimersCharge(r: Rules, w: State, n: nat)
    requires n <= |w.players| && FineSeats(w.players)
    ensures var t := Walk(r, w, Timers, n);
      && t == w.(players := t.players, events := t.events)
      && (forall i :: 0 <= i < |w.players| ==> t.players[i] == if i < n then Timed(w.players[i]) else w.players[i])
      && TotalScore(t.players) == TotalScore(w.players) && Kills(t.events) == Kills(w.events)
      && (forall id :: CountOf(t.events, EventKill, id) == CountOf(w.events, EventKill, id))
      && (forall i :: 0 <= i < |w.players| ==>
           CountOf(t.events, EventDepart, w.players[i].id)
           == CountOf(w.events, EventDepart, w.players[i].id) + if i < n && Leaves(w.players[i]) then 1 else 0)
  {
    hide TimerAt, CountOf, Kills, TotalScore, Timed, Leaves;
    if n > 0 {
      TimersCharge(r, w, n - 1);
      OneMoreTimer(w, Walk(r, w, Timers, n - 1), n - 1);
    }
  }

  lemma OneMoreTimer(w: State, a: State, i: nat)
    requires i < |w.players| == |a.players| && FineSeats(w.players)
    requires forall k :: 0 <= k < |w.players| ==> a.players[k].id == w.players[k].id
    requires a.players[i] == w.players[i]
    ensures var t := TimerAt(a, i);
      && t == a.(players := t.players, events := t.events)
      && t.players == a.players[i := Timed(w.players[i])]
      && TotalScore(t.players) == TotalScore(a.players) && Kills(t.events) == Kills(a.events)
      && (forall id :: CountOf(t.events, EventKill, id) == CountOf(a.events, EventKill, id))
      && (forall k :: 0 <= k < |w.players| ==>
           CountOf(t.events, EventDepart, w.players[k].id)
           == CountOf(a.events, EventDepart, w.players[k].id) + if k == i && Leaves(w.players[i]) then 1 else 0)
  {
    hide CountOf, Kills, TotalScore, FineSeat;
    ScoreAfter(a.players, i, Timed(w.players[i]));
    OneMoreEvent(a.events, Event(a.tick, EventDepart, 0, w.players[i].id, 0));
    forall k | 0 <= k < |w.players| && k != i
      ensures w.players[k].id != w.players[i].id
    {
      if k < i {
        assert w.players[k].id < w.players[i].id;
      } else {
        assert w.players[i].id < w.players[k].id;
      }
    }
  }

  // ---- shots ----

  function MuzzleX(s: Projectile): int {
    s.x - s.vx * (PROJECTILE_TTL - s.ttl)
  }

  function MuzzleY(s: Projectile): int {
    s.y - s.vy * (PROJECTILE_TTL - s.ttl)
  }

  /** A shot has flown straight from a muzzle on the map, one stride for every tick of its life spent. */
  predicate InFlight(r: Rules, s: Projectile) {
    && s.ttl <= PROJECTILE_TTL && Abs(s.vx) <= r.shot && Abs(s.vy) <= r.shot
    && 0 <= MuzzleX(s) <= MAP && 0 <= MuzzleY(s) <= MAP
  }

  predicate FineShot(r: Rules, s: Projectile) {
    InFlight(r, s) && !Spent(s)
  }

  ghost predicate FineShots(r: Rules, w: State) {
    && (forall i, j :: 0 <= i < j < |w.projectiles| ==> w.projectiles[i].id < w.projectiles[j].id)
    && (forall i :: 0 <= i < |w.projectiles| ==> FineShot(r, w.projectiles[i]) && w.projectiles[i].id < w.nextProj)
    && Owned(w.players, w.projectiles)
  }

  lemma FlightIsStraight(r: Rules, s: Projectile)
    requires InFlight(r, s) && s.ttl > 0
    ensures InFlight(r, Flown(s)) && MuzzleX(Flown(s)) == MuzzleX(s) && MuzzleY(Flown(s)) == MuzzleY(s)
  {
    Stretch(s.vx, PROJECTILE_TTL - s.ttl);
    Stretch(s.vy, PROJECTILE_TTL - s.ttl);
  }

  lemma Stretch(v: int, k: int)
    ensures v * (k + 1) == v * k + v
  {
  }

  lemma MuzzleIsOnMap(r: Rules, w: State, p: Player)
    requires OnMap(p.x, p.y)
    ensures FineShot(r, Muzzled(r, w, p)) && Muzzled(r, w, p).id == w.nextProj && Muzzled(r, w, p).owner == p.id
  {
    hide SinDeg;
    SineIsBounded(p.aim);
    AlongIsBounded(r.shot, CosDeg(p.aim));
    AlongIsBounded(r.shot, SinDeg(p.aim));
    TruncIsBounded(CosDeg(p.aim) * PLAYER_RADIUS, 1000, PLAYER_RADIUS);
    TruncIsBounded(SinDeg(p.aim) * PLAYER_RADIUS, 1000, PLAYER_RADIUS);
    hide CosDeg, Along, Trunc;
  }

  /** A hit changes seats and the feed, and nothing else. */
  lemma SweepLeavesShots(w: State, shot: Projectile, fx: int, fy: int)
    ensures var s := Sweep(w, shot, fx, fy).0; s == w.(players := s.players, events := s.events)
  {
    hide FirstStruck;
  }

  /** What part of a step may do to the shots in flight: add new ones after them. */
  ghost predicate Shooting(r: Rules, a: State, b: State) {
    && FineShots(r, b) && a.projectiles <= b.projectiles && a.nextProj <= b.nextProj
    && forall j :: |a.projectiles| <= j < |b.projectiles| ==>
      a.nextProj <= b.projectiles[j].id && b.projectiles[j].ttl >= PROJECTILE_TTL - MAX_LAG_TICKS
  }

  lemma {:induction false} CatchUpKeepsOrder(r: Rules, w: State, shot: Projectile, lag: nat)
    requires FineShot(r, shot)
    ensures var c := CatchUp(w, shot, lag);
      && c.nextProj == w.nextProj
      && (c.projectiles == w.projectiles
          || (|c.projectiles| == |w.projectiles| + 1 && w.projectiles <= c.projectiles
              && var s := c.projectiles[|w.projectiles|];
                 FineShot(r, s) && s.id == shot.id && s.owner == shot.owner && s.ttl + lag == shot.ttl
                 && s.vx == shot.vx && s.vy == shot.vy
                 && MuzzleX(s) == MuzzleX(shot) && MuzzleY(s) == MuzzleY(shot)))
    decreases lag
  {
    if lag > 0 {
      hide Sweep, FineShot;
      var moved := Flown(shot);
      SweepLeavesShots(w, moved, shot.x, shot.y);
      var (struck, hit) := Sweep(w, moved, shot.x, shot.y);
      OneTickOn(r, shot);
      if !(hit || Spent(moved)) {
        CatchUpKeepsOrder(r, struck, moved, lag - 1);
      }
    }
  }

  lemma OneTickOn(r: Rules, shot: Projectile)
    requires FineShot(r, shot)
    ensures !Spent(Flown(shot)) ==> FineShot(r, Flown(shot))
    ensures MuzzleX(Flown(shot)) == MuzzleX(shot) && MuzzleY(Flown(shot)) == MuzzleY(shot) && Flown(shot).ttl + 1 == shot.ttl
  {
    FlightIsStraight(r, shot);
  }

  lemma FireShoots(r: Rules, w: State, i: nat, lag: nat)
    requires FineSeats(w.players) && FineShots(r, w) && i < |w.players|
    ensures Shooting(r, w, Fire(r, w, i, lag))
  {
    hide FineShot, CatchUp, Muzzled, Lawful;
    var p := w.players[i].(protect := 0);
    var bold := Set(w, i, p);
    var shot := Muzzled(r, bold, p);
    MuzzleIsOnMap(r, bold, p);
    MuzzleIsFull(r, bold, p);
    var behind := if lag > MAX_LAG_TICKS then MAX_LAG_TICKS else lag;
    CatchUpKeepsOrder(r, bold.(nextProj := bold.nextProj + 1), shot, behind);
    FireIsLawful(r, w, i, lag);
    LawfulSeats(w, Fire(r, w, i, lag));
    assert Seated(w.players, p.id);
  }

  /** A shot leaves towards where its shooter aims, at full speed, from the edge of the shooter; the opposite aim is the opposite shot. */
  lemma ShotFollowsAim(r: Rules, w: State, p: Player)
    ensures p.aim == 0 ==> var s := Muzzled(r, w, p); s.x == p.x + PLAYER_RADIUS && s.y == p.y && s.vx == r.shot && s.vy == 0
    ensures p.aim == 90 ==> var s := Muzzled(r, w, p); s.x == p.x && s.y == p.y + PLAYER_RADIUS && s.vx == 0 && s.vy == r.shot
    ensures var s, t := Muzzled(r, w, p), Muzzled(r, w, p.(aim := p.aim + 180));
      s.vx == -t.vx && s.vy == -t.vy && s.x - p.x == p.x - t.x && s.y - p.y == p.y - t.y
    ensures var s := Muzzled(r, w, p);
      && (Turned(p.aim) <= 180 ==> s.vy >= 0 && s.y >= p.y) && (Turned(p.aim) > 180 ==> s.vy <= 0 && s.y <= p.y)
      && (Turned(p.aim + 90) <= 180 ==> s.vx >= 0 && s.x >= p.x) && (Turned(p.aim + 90) > 180 ==> s.vx <= 0 && s.x <= p.x)
      && Abs(s.vx) <= r.shot && Abs(s.vy) <= r.shot
      && (Abs(s.vx) >= Trunc(705 * r.shot, 1000) || Abs(s.vy) >= Trunc(705 * r.shot, 1000))
  {
    ShotIsInItsQuarter(r, w, p);
    SineTurns(p.aim);
    SineTurns(p.aim + 90);
    hide SinDeg;
    assert CosDeg(p.aim + 180) == -CosDeg(p.aim);
    TruncIsOdd(r.shot * CosDeg(p.aim), 1000);
    TruncIsOdd(r.shot * SinDeg(p.aim), 1000);
    TruncIsOdd(CosDeg(p.aim) * PLAYER_RADIUS, 1000);
    TruncIsOdd(SinDeg(p.aim) * PLAYER_RADIUS, 1000);
    assert r.shot * -CosDeg(p.aim) == -(r.shot * CosDeg(p.aim));
    assert r.shot * -SinDeg(p.aim) == -(r.shot * SinDeg(p.aim));
    TruncOfThousand(r.shot);
    TruncOfThousand(PLAYER_RADIUS);
    hide CosDeg, Trunc;
  }

  lemma ShotIsInItsQuarter(r: Rules, w: State, p: Player)
    ensures var s := Muzzled(r, w, p);
      && (Turned(p.aim) <= 180 ==> s.vy >= 0 && s.y >= p.y) && (Turned(p.aim) > 180 ==> s.vy <= 0 && s.y <= p.y)
      && (Turned(p.aim + 90) <= 180 ==> s.vx >= 0 && s.x >= p.x) && (Turned(p.aim + 90) > 180 ==> s.vx <= 0 && s.x <= p.x)
      && Abs(s.vx) <= r.shot && Abs(s.vy) <= r.shot
      && (Abs(s.vx) >= Trunc(705 * r.shot, 1000) || Abs(s.vy) >= Trunc(705 * r.shot, 1000))
  {
    SineQuarters(p.aim);
    SineQuarters(p.aim + 90);
    SineIsBounded(p.aim);
    hide SinDeg;
    ScaledKeepsSide(r.shot, CosDeg(p.aim));
    ScaledKeepsSide(r.shot, SinDeg(p.aim));
    ScaledKeepsSide(PLAYER_RADIUS, CosDeg(p.aim));
    ScaledKeepsSide(PLAYER_RADIUS, SinDeg(p.aim));
    hide CosDeg, Trunc;
  }

  /** Scaling by a thousandth of a unit keeps the sign and, for a unit of at least seven tenths, seven tenths of the length. */
  lemma ScaledKeepsSide(v: nat, unit: int)
    requires Abs(unit) <= 1000
    ensures v * unit == unit * v && Abs(Trunc(v * unit, 1000)) <= v
    ensures (unit >= 0 ==> Trunc(v * unit, 1000) >= 0) && (unit <= 0 ==> Trunc(v * unit, 1000) <= 0)
    ensures Abs(unit) >= 705 ==> Abs(Trunc(v * unit, 1000)) >= Trunc(705 * v, 1000)
  {
    AlongIsBounded(v, unit);
    MoreTimes(v, if unit >= 0 then 0 else unit, if unit >= 0 then unit else 0);
    TruncIsClose(v * unit, 1000);
    TruncIsOdd(v * unit, 1000);
    if unit >= 705 {
      MoreTimes(v, 705, unit);
    }
    if -unit >= 705 {
      MoreTimes(v, 705, -unit);
      assert v * -unit == -(v * unit);
    }
  }

  /**
   The ring: its first point lies straight out from the middle, every point at least seven tenths of the radius out
   along one axis and never further than the radius, and with an even number of seats opposite seats have opposite points.
   */
  lemma RingIsARing(i: nat, n: nat)
    requires n >= 2
    ensures SpawnX(0, n) == MAP / 2 + RING && SpawnY(0, n) == MAP / 2
    ensures var dx, dy := SpawnX(i, n) - MAP / 2, SpawnY(i, n) - MAP / 2;
      && Abs(dx) <= RING && Abs(dy) <= RING && (1000 * Abs(dx) >= 705 * RING || 1000 * Abs(dy) >= 705 * RING)
    ensures n % 2 == 0 ==> SpawnX(i, n) + SpawnX(i + n / 2, n) == MAP && SpawnY(i, n) + SpawnY(i + n / 2, n) == MAP
  {
    var angle := (360 * i) / n;
    FirstPoint(n);
    SineQuarters(angle);
    SineIsBounded(angle);
    hide SinDeg, Turned;
    OutOnTheRing(CosDeg(angle));
    OutOnTheRing(SinDeg(angle));
    if n % 2 == 0 {
      HalfTheSeatsOn(i, n);
      SineTurns(angle);
      SineTurns(angle + 90);
      TruncIsOdd(CosDeg(angle) * RING, 1000);
      TruncIsOdd(SinDeg(angle) * RING, 1000);
      assert -CosDeg(angle) * RING == -(CosDeg(angle) * RING) && -SinDeg(angle) * RING == -(SinDeg(angle) * RING);
    }
    hide Trunc;
  }

  lemma FirstPoint(n: nat)
    requires n >= 2
    ensures SpawnX(0, n) == MAP / 2 + RING && SpawnY(0, n) == MAP / 2
  {
    SineLandmarks();
    hide SinDeg, CosDeg;
    NothingShared(n);
    TruncOfThousand(RING);
    hide Trunc;
  }

  lemma NothingShared(n: nat)
    requires n >= 1
    ensures (360 * 0) / n == 0
  {
  }

  lemma OutOnTheRing(unit: int)
    requires Abs(unit) <= 1000
    ensures Abs(Trunc(unit * RING, 1000)) <= RING
    ensures Abs(unit) >= 705 ==> 1000 * Abs(Trunc(unit * RING, 1000)) >= 705 * RING
  {
    ScaledKeepsSide(RING, unit);
  }

  lemma HalfTheSeatsOn(i: nat, n: nat)
    requires n >= 2 && n % 2 == 0
    ensures (360 * (i + n / 2)) / n == (360 * i) / n + 180
  {
    var h := n / 2;
    assert 360 * (i + h) == 360 * i + n * 180;
    WholeTurnsAside(360 * i, n, 180);
  }

  lemma WholeTurnsAside(a: nat, n: nat, k: nat)
    requires n >= 1
    ensures (a + n * k) / n == a / n + k
  {
    Quotient(a, n);
    assert n * (a / n + k) == n * (a / n) + n * k;
    QuotientIs(a + n * k, n, a / n + k);
  }

  lemma QuotientIs(a: nat, n: nat, q: nat)
    requires n >= 1 && n * q <= a < n * q + n
    ensures a / n == q
  {
    Quotient(a, n);
    var p := a / n;
    assert n * (q + 1) == n * q + n && n * (p + 1) == n * p + n;
    if p < q {
      MoreTimes(n, p + 1, q);
    } else if p > q {
      MoreTimes(n, q + 1, p);
    }
  }

  lemma TruncIsOdd(a: int, b: int)
    requires b > 0
    ensures Trunc(-a, b) == -Trunc(a, b)
  {
  }

  lemma TruncOfThousand(v: nat)
    ensures Trunc(v * 1000, 1000) == v && Trunc(v * 0, 1000) == 0
  {
  }

  lemma MuzzleIsFull(r: Rules, w: State, p: Player)
    ensures Muzzled(r, w, p).ttl == PROJECTILE_TTL
  {
  }

  lemma ShootingChain(r: Rules, a: State, b: State, c: State)
    requires Shooting(r, a, b) && Shooting(r, b, c)
    ensures Shooting(r, a, c)
  {
    hide FineShot, FineShots;
    assert a.projectiles <= c.projectiles;
    forall j | |a.projectiles| <= j < |c.projectiles|
      ensures a.nextProj <= c.projectiles[j].id && c.projectiles[j].ttl >= PROJECTILE_TTL - MAX_LAG_TICKS
    {
      if j < |b.projectiles| {
        assert c.projectiles[j] == b.projectiles[j];
      }
    }
  }

  /** Seats may change under the shots as long as everybody stays. */
  lemma SeatsAside(r: Rules, a: State, b: State)
    requires FineShots(r, a) && Lawful(a, b) && b.projectiles == a.projectiles && b.nextProj == a.nextProj
    ensures Shooting(r, a, b)
  {
    LawfulSeats(a, b);
    hide FineShot, Lawful, FineSeats;
  }

  lemma InputShoots(r: Rules, w: State, i: nat, inputs: Inputs)
    requires FineSeats(w.players) && FineShots(r, w) && i < |w.players|
    ensures Shooting(r, w, InputAt(r, w, i, inputs))
  {
    InputIsLawful(r, w, i, inputs);
    hide Lawful, Fire, Steered, FineShots, Shooting;
    var p := w.players[i].(cooldown := CountDown(w.players[i].cooldown));
    if p.id in inputs && p.alive && !Stale(p, inputs[p.id]) && inputs[p.id].fire && p.cooldown == 0 {
      var inp := inputs[p.id];
      var q := Steered(r.speed, (if inp.inputSeq != 0 then p.(inputSeq := inp.inputSeq) else p).(aim := inp.aim), inp.mx, inp.my);
      SeatIsLawful(w, i, q);
      LawfulSeats(w, Set(w, i, q));
      SeatsAside(r, w, Set(w, i, q));
      AreFine(r, w, Set(w, i, q));
      FireShoots(r, Set(w, i, q), i, inp.lagTicks);
      ShootingChain(r, w, Set(w, i, q), Fire(r, Set(w, i, q), i, inp.lagTicks));
    } else {
      SeatsAside(r, w, InputAt(r, w, i, inputs));
    }
  }

  lemma AreFine(r: Rules, a: State, b: State)
    requires Shooting(r, a, b)
    ensures FineShots(r, b)
  {
    hide FineShots;
  }

  /** A bot's turn without a shot, as the shot would find it. */
  function BotMoved(r: Rules, w: State, i: nat): State
    requires i < |w.players|
  {
    var p := w.players[i];
    var turns := r.draw(w.drawn) % BOT_TURN_CHANCE == 0;
    var aim := if turns then r.draw(w.drawn + 1) % 360 else p.aim;
    Set(w, i, p.(aim := aim, x := Clamp(p.x + Along(r.speed, CosDeg(aim)), PLAYER_RADIUS, MAP - PLAYER_RADIUS),
                 y := Clamp(p.y + Along(r.speed, SinDeg(aim)), PLAYER_RADIUS, MAP - PLAYER_RADIUS)))
      .(drawn := w.drawn + if turns then 3 else 2)
  }

  lemma BotMovedIsLawful(r: Rules, w: State, i: nat)
    requires FineSeats(w.players) && i < |w.players|
    ensures Lawful(w, BotMoved(r, w, i)) && BotMoved(r, w, i).projectiles == w.projectiles && BotMoved(r, w, i).nextProj == w.nextProj
  {
    hide Lawful, Along, CosDeg, SinDeg;
    var m := BotMoved(r, w, i);
    SeatIsLawful(w, i, m.players[i]);
    LawfulSeats(w, Set(w, i, m.players[i]));
    UntouchedIsLawful(Set(w, i, m.players[i]), m);
    LawfulChain(w, Set(w, i, m.players[i]), m);
  }

  lemma BotFiresOrNot(r: Rules, w: State, i: nat, inputs: Inputs)
    requires i < |w.players|
    ensures var b := BotAt(r, w, i, inputs);
      || (b.projectiles == w.projectiles && b.nextProj == w.nextProj)
      || b == Fire(r, BotMoved(r, w, i), i, 0)
  {
    hide Fire, Along, CosDeg, SinDeg, Clamp;
  }

  lemma BotShoots(r: Rules, w: State, i: nat, inputs: Inputs)
    requires FineSeats(w.players) && FineShots(r, w) && i < |w.players|
    ensures Shooting(r, w, BotAt(r, w, i, inputs))
  {
    BotIsLawful(r, w, i, inputs);
    BotFiresOrNot(r, w, i, inputs);
    BotMovedIsLawful(r, w, i);
    hide Lawful, Fire, FineShots, Shooting, BotAt, BotMoved, FineSeats;
    var b, moved := BotAt(r, w, i, inputs), BotMoved(r, w, i);
    if b.projectiles == w.projectiles && b.nextProj == w.nextProj {
      SeatsAside(r, w, b);
    } else {
      LawfulSeats(w, moved);
      SeatsAside(r, w, moved);
      AreFine(r, w, moved);
      FireShoots(r, moved, i, 0);
      ShootingChain(r, w, moved, b);
    }
  }

  lemma {:induction false} WalkShoots(r: Rules, w: State, pass: Pass, n: nat)
    requires FineSeats(w.players) && FineShots(r, w) && Fits(w, pass, n) && (pass.Steering? || pass.Bots?)
    ensures Shooting(r, w, Walk(r, w, pass, n))
  {
    hide FineSeats, FineShots, InputAt, BotAt, Lawful;
    if n == 0 {
      hide Shooting;
      SelfLawful(w);
      SeatsAside(r, w, w);
    } else {
      var before := Walk(r, w, pass, n - 1);
      WalkIsLawful(r, w, pass, n - 1);
      LawfulSeats(w, before);
      WalkShoots(r, w, pass, n - 1);
      AreFine(r, w, before);
      if pass.Steering? {
        InputShoots(r, before, n - 1, pass.inputs);
      } else {
        BotShoots(r, before, n - 1, pass.inputs);
      }
      hide Shooting;
      ShootingChain(r, w, before, Walk(r, w, pass, n));
    }
  }

  lemma SelfLawful(w: State)
    requires FineSeats(w.players)
    ensures Lawful(w, w)
  {
    UntouchedIsLawful(w, w);
  }

  /** What is left of the first `n` shots: each moved one tick on, in the same order. */
  ghost predicate OnlyFlown(r: Rules, shots: seq<Projectile>, n: nat, left: seq<Projectile>) {
    && n <= |shots|
    && (forall i, j :: 0 <= i < j < |left| ==> left[i].id < left[j].id)
    && (forall i :: 0 <= i < |left| ==> FineShot(r, left[i]) && exists k :: 0 <= k < n && left[i] == Flown(shots[k]))
  }

  lemma {:induction false} FlyingOnlyFlies(r: Rules, w: State, n: nat)
    requires FineShots(r, w) && n <= |w.projectiles|
    ensures var f := Walk(r, w.(projectiles := []), Flying(w.projectiles), n);
      OnlyFlown(r, w.projectiles, n, f.projectiles) && f.nextProj == w.nextProj
  {
    hide ShotAt, FineShots, FineShot;
    if n > 0 {
      hide OnlyFlown;
      FlyingOnlyFlies(r, w, n - 1);
      var shots := w.projectiles;
      var before := Walk(r, w.(projectiles := []), Flying(shots), n - 1);
      OneMoreShot(r, w, before, n - 1);
    }
  }

  lemma OneMoreShot(r: Rules, w: State, a: State, n: nat)
    requires FineShots(r, w) && n < |w.projectiles| && OnlyFlown(r, w.projectiles, n, a.projectiles)
    ensures var b := ShotAt(a, w.projectiles[n]); OnlyFlown(r, w.projectiles, n + 1, b.projectiles) && b.nextProj == a.nextProj
  {
    var shots, moved := w.projectiles, Flown(w.projectiles[n]);
    SweepLeavesShots(a, moved, shots[n].x, shots[n].y);
    OneTickOn(r, shots[n]);
    hide Sweep, FineShot, Owned;
    var b := ShotAt(a, shots[n]);
    assert b.projectiles == a.projectiles || b.projectiles == a.projectiles + [moved];
    forall i | 0 <= i < |b.projectiles|
      ensures FineShot(r, b.projectiles[i])
      ensures exists k :: 0 <= k < n + 1 && b.projectiles[i] == Flown(shots[k])
      ensures i < |a.projectiles| ==> b.projectiles[i].id < shots[n].id
    {
      if i < |a.projectiles| {
        var k :| 0 <= k < n && a.projectiles[i] == Flown(shots[k]);
        assert shots[k].id < shots[n].id;
      } else {
        assert b.projectiles[i] == Flown(shots[n]);
      }
    }
  }

  lemma {:induction false} ReturningLeavesShots(r: Rules, w: State, n: nat)
    requires n <= |w.players| == |w.claimed|
    ensures var b := Walk(r, w, Returning, n); b.projectiles == w.projectiles && b.nextProj == w.nextProj && b.events == w.events
  {
    hide SafestSlot;
    if n > 0 {
      ReturningLeavesShots(r, w, n - 1);
    }
  }

  // ---- whole steps ----

  /** The world between steps. */
  ghost predicate Sound(r: Rules, w: State) {
    FineSeats(w.players) && FineShots(r, w)
  }

  /** The world once the clocks have been charged. */
  function AfterTimers(r: Rules, w: State): (t: State)
    ensures |t.players| == |w.players|
  {
    Walk(r, Begun(w), Timers, |w.players|)
  }

  lemma ClocksCharged(r: Rules, w: State)
    requires Sound(r, w)
    ensures var t := AfterTimers(r, w);
      && Sound(r, t) && SameSeats(w.players, t.players) && t.projectiles == w.projectiles && t.nextProj == w.nextProj
      && t.tick == w.tick + 1 && Balance(t) == TotalScore(w.players)
      && (forall i :: 0 <= i < |w.players| ==> t.players[i] == Timed(w.players[i]))
      && (forall id :: CountOf(t.events, EventKill, id) == 0)
      && (forall i :: 0 <= i < |w.players| ==>
           CountOf(t.events, EventDepart, w.players[i].id) == if Leaves(w.players[i]) then 1 else 0)
  {
    hide Timed, Leaves, FineSeat, FineShot, TotalScore;
    TimersCharge(r, Begun(w), |w.players|);
    var t := AfterTimers(r, w);
    assert FineSeats(t.players);
    assert SameSeats(w.players, t.players);
    SameSeatsSameOwners(w.players, t.players, w.projectiles);
  }

  lemma SameSeatsSameOwners(a: seq<Player>, b: seq<Player>, shots: seq<Projectile>)
    requires SameSeats(a, b) && Owned(a, shots)
    ensures Owned(b, shots)
  {
    forall i | 0 <= i < |shots|
      ensures Seated(b, shots[i].owner)
    {
      var k :| 0 <= k < |a| && a[k].id == shots[i].owner;
      assert b[k].id == shots[i].owner;
    }
  }

  /** The four passes after the clocks are lawful together, and shots are fired, then flown, and nothing else. */
  lemma PassesAreLawful(r: Rules, w: State, inputs: Inputs) returns (driven: State)
    requires Sound(r, w)
    ensures |driven.players| == |w.players| && Lawful(AfterTimers(r, w), driven) && Shooting(r, AfterTimers(r, w), driven)
    ensures Passes(r, Begun(w), inputs) == Return(r, Fly(r, driven))
  {
    hide FineSeats, FineShots, Lawful, Shooting, Visit;
    var n, t := |w.players|, AfterTimers(r, w);
    ClocksCharged(r, w);
    var steered := Walk(r, t, Steering(inputs), n);
    WalkIsLawful(r, t, Steering(inputs), n);
    WalkShoots(r, t, Steering(inputs), n);
    LawfulSeats(t, steered);
    AreFine(r, t, steered);
    driven := Walk(r, steered, Bots(inputs), n);
    WalkIsLawful(r, steered, Bots(inputs), n);
    WalkShoots(r, steered, Bots(inputs), n);
    LawfulChain(t, steered, driven);
    ShootingChain(r, t, steered, driven);
  }

  /** Flying and respawning, which end a step. */
  lemma LandingIsLawful(r: Rules, driven: State)
    requires Sound(r, driven)
    ensures var b := Return(r, Fly(r, driven));
      && Lawful(driven, b) && FineShots(r, b) && b.nextProj == driven.nextProj
      && OnlyFlown(r, driven.projectiles, |driven.projectiles|, b.projectiles)
  {
    hide FineSeats, Lawful, Visit, FineShot;
    var shots := driven.projectiles;
    var empty := driven.(projectiles := []);
    var flown := Fly(r, driven);
    UntouchedIsLawful(driven, empty);
    WalkIsLawful(r, empty, Flying(shots), |shots|);
    LawfulChain(driven, empty, flown);
    LawfulSeats(driven, flown);
    FlyingOnlyFlies(r, driven, |shots|);
    OwnersStay(r, driven, flown);
    if |flown.players| > 0 {
      var ready := flown.(claimed := Unclaimed(|flown.players|));
      UntouchedIsLawful(flown, ready);
      WalkIsLawful(r, ready, Returning, |flown.players|);
      LawfulChain(driven, flown, ready);
      LawfulChain(driven, ready, Return(r, flown));
      LawfulSeats(driven, Return(r, flown));
      ReturningLeavesShots(r, ready, |flown.players|);
      OwnersStay(r, driven, Return(r, flown));
    }
  }

  lemma OwnersStay(r: Rules, a: State, b: State)
    requires FineShots(r, a) && OnlyFlown(r, a.projectiles, |a.projectiles|, b.projectiles) && b.nextProj == a.nextProj
    requires forall id :: Seated(a.players, id) ==> Seated(b.players, id)
    ensures FineShots(r, b)
  {
    hide FineShot, Seated;
    forall i | 0 <= i < |b.projectiles|
      ensures Seated(b.players, b.projectiles[i].owner) && b.projectiles[i].id < b.nextProj
    {
      var k :| 0 <= k < |a.projectiles| && b.projectiles[i] == Flown(a.projectiles[k]);
    }
  }

  /**
   A step from a sound world, whatever the inputs: seats stay who they were and where they may be, points are
   kills, a seat whose player left can be killed only while it stands and is announced on the tick its linger
   runs out and never again.
   */
  lemma StepKeepsTheLaws(r: Rules, w: State, inputs: Inputs)
    requires Sound(r, w) && !w.ended
    ensures var b := Step(r, w, inputs);
      && Sound(r, b) && SameSeats(w.players, b.players) && b.tick == w.tick + 1
      && TotalScore(b.players) == TotalScore(w.players) + Kills(b.events)
    ensures var b := Step(r, w, inputs);
      forall i :: 0 <= i < |w.players| && w.players[i].left ==>
        Toll(b, i) <= (if w.players[i].alive then 1 else 0) && (b.players[i].alive ==> w.players[i].alive)
    ensures var b := Step(r, w, inputs);
      forall i :: 0 <= i < |w.players| ==>
        && CountOf(b.events, EventDepart, w.players[i].id) == (if Leaves(w.players[i]) then 1 else 0)
        && b.players[i].linger == (if w.players[i].left then CountDown(w.players[i].linger) else 0)
  {
    ClocksCharged(r, w);
    var t := AfterTimers(r, w);
    var driven := PassesAreLawful(r, w, inputs);
    hide FineShots, Visit, FineSeat, Leaves, CountOf, TotalScore;
    AreFine(r, t, driven);
    LawfulSeats(t, driven);
    LandingIsLawful(r, driven);
    var b := Return(r, Fly(r, driven));
    LawfulChain(t, driven, b);
    StepFrom(r, w, t, b);
    JudgedSame(r, b);
  }

  lemma JudgedSame(r: Rules, b: State)
    ensures var j := Judged(r, b); j == b.(ended := j.ended, winner := j.winner)
    ensures FineShots(r, b) ==> FineShots(r, Judged(r, b))
  {
  }

  lemma StepFrom(r: Rules, w: State, t: State, b: State)
    requires |t.players| == |w.players| && FineSeats(w.players) && Lawful(t, b) && SameSeats(w.players, t.players)
    requires t.tick == w.tick + 1 && Balance(t) == TotalScore(w.players)
    requires forall i :: 0 <= i < |w.players| ==> t.players[i] == Timed(w.players[i])
    requires forall id :: CountOf(t.events, EventKill, id) == 0
    requires forall i :: 0 <= i < |w.players| ==> CountOf(t.events, EventDepart, w.players[i].id) == if Leaves(w.players[i]) then 1 else 0
    ensures SameSeats(w.players, b.players) && b.tick == w.tick + 1 && TotalScore(b.players) == TotalScore(w.players) + Kills(b.events)
    ensures forall i :: 0 <= i < |w.players| && w.players[i].left ==>
      Toll(b, i) <= (if w.players[i].alive then 1 else 0) && (b.players[i].alive ==> w.players[i].alive)
    ensures forall i :: 0 <= i < |w.players| ==>
      && CountOf(b.events, EventDepart, w.players[i].id) == (if Leaves(w.players[i]) then 1 else 0)
      && b.players[i].linger == (if w.players[i].left then CountDown(w.players[i].linger) else 0)
  {
    hide CountOf, Kills, TotalScore;
    forall i | 0 <= i < |w.players|
      ensures w.players[i].left ==> Toll(b, i) <= (if w.players[i].alive then 1 else 0) && (b.players[i].alive ==> w.players[i].alive)
      ensures CountOf(b.events, EventDepart, w.players[i].id) == (if Leaves(w.players[i]) then 1 else 0)
      ensures b.players[i].linger == (if w.players[i].left then CountDown(w.players[i].linger) else 0)
    {
      assert FineSeat(w.players[i]);
      assert t.players[i] == Timed(w.players[i]);
    }
  }
}
