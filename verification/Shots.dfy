/** Where shots come from and where they go, and the arithmetic of every collision test on the way. */
module Shots {
  import opened FixedPoint
  import opened Geometry
  import opened SimTypes
  import opened Arena
  import opened Laws
  import opened Steps
  import opened Stance

  // ---- from muzzle to muzzle ----

  /** The shot left the muzzle of its owner, the seat at `k`, as that seat stands and aims now. */
  predicate FromMuzzle(r: Rules, w: State, s: Projectile, k: nat) {
    && k < |w.players| && w.players[k].id == s.owner
    && var m := Muzzled(r, w, w.players[k]);
       MuzzleX(s) == m.x && MuzzleY(s) == m.y && s.vx == m.vx && s.vy == m.vy
  }

  /** A seat that will not be moved by respawning this step. */
  predicate Up(p: Player) {
    p.alive || p.respawn > 0
  }

  /** A seat whose turn has come: by its input among the first `n`, or else as a bot among the first `m`. */
  predicate Acted(w: State, inputs: Inputs, n: nat, m: nat, k: nat) {
    k < |w.players| && if w.players[k].id in inputs then k < n else k < m
  }

  /** Every shot fired since the counter stood at `since` left its owner's muzzle where that owner still stands. */
  ghost predicate Traced(r: Rules, w: State, since: nat, inputs: Inputs, n: nat, m: nat) {
    forall j :: 0 <= j < |w.projectiles| && w.projectiles[j].id >= since ==> TracedShot(r, w, w.projectiles[j], inputs, n, m)
  }

  ghost predicate TracedShot(r: Rules, w: State, s: Projectile, inputs: Inputs, n: nat, m: nat) {
    exists k: nat :: Acted(w, inputs, n, m, k) && FromMuzzle(r, w, s, k) && Up(w.players[k])
  }

  lemma StillFromMuzzle(r: Rules, a: State, b: State, s: Projectile, k: nat)
    requires FromMuzzle(r, a, s, k) && Up(a.players[k]) && StaysPut(a, b, k)
    ensures FromMuzzle(r, b, s, k) && Up(b.players[k])
  {
    hide SinDeg, CosDeg, Along, Trunc;
  }

  /** What a launch adds to the air, in terms of the muzzle it leaves. */
  lemma LaunchShape(r: Rules, w: State, p: Player, lag: nat)
    requires OnMap(p.x, p.y)
    ensures var b, m := Launch(r, w, p, lag), Muzzled(r, w, p);
      || b.projectiles == w.projectiles
      || (|b.projectiles| == |w.projectiles| + 1 && w.projectiles <= b.projectiles
          && var s := b.projectiles[|w.projectiles|];
             s.owner == p.id && MuzzleX(s) == m.x && MuzzleY(s) == m.y && s.vx == m.vx && s.vy == m.vy)
  {
    hide FineShot, CatchUp, Muzzled, MuzzleX, MuzzleY, FineSeat;
    MuzzleIsOnMap(r, w, p);
    ShotAtMuzzle(r, w, p);
    CatchUpKeepsOrder(r, w.(nextProj := w.nextProj + 1), Muzzled(r, w, p), if lag > MAX_LAG_TICKS then MAX_LAG_TICKS else lag);
  }

  lemma FireIsFromMuzzle(r: Rules, w: State, i: nat, lag: nat)
    requires FineSeats(w.players) && i < |w.players| && w.players[i].alive
    ensures var b := Fire(r, w, i, lag);
      || b.projectiles == w.projectiles
      || (|b.projectiles| == |w.projectiles| + 1 && w.projectiles <= b.projectiles
          && FromMuzzle(r, b, b.projectiles[|w.projectiles|], i) && Up(b.players[i]))
  {
    var p := w.players[i].(protect := 0);
    var bold := Set(w, i, p);
    assert FineSeat(w.players[i]);
    LaunchShape(r, bold, p, lag);
    FireStaysPut(r, w, i, lag, i);
    hide Launch, FineSeats, FineSeat, MuzzleX, MuzzleY;
    SameMuzzle(r, bold, p, Fire(r, w, i, lag), Fire(r, w, i, lag).players[i]);
    hide Muzzled;
  }

  lemma ShotAtMuzzle(r: Rules, w: State, p: Player)
    ensures var s := Muzzled(r, w, p); MuzzleX(s) == s.x && MuzzleY(s) == s.y && s.owner == p.id
  {
    hide SinDeg, CosDeg, Along, Trunc;
  }

  lemma SameMuzzle(r: Rules, a: State, p: Player, b: State, q: Player)
    requires p.x == q.x && p.y == q.y && p.aim == q.aim && p.id == q.id
    ensures var m, n := Muzzled(r, a, p), Muzzled(r, b, q);
      m.x == n.x && m.y == n.y && m.vx == n.vx && m.vy == n.vy && m.owner == n.owner
  {
    hide SinDeg, CosDeg, Along, Trunc;
  }

  /** A visit that adds at most one shot, the visited seat's own, and leaves the other seats standing. */
  lemma VisitTraces(r: Rules, a: State, b: State, since: nat, inputs: Inputs, n: nat, m: nat, n': nat, m': nat, i: nat)
    requires Traced(r, a, since, inputs, n, m) && n <= n' && m <= m' && |a.players| == |b.players|
    requires forall k :: Acted(a, inputs, n, m, k) ==> StaysPut(a, b, k)
    requires i < |b.players| && b.players[i].id == a.players[i].id
    requires || b.projectiles == a.projectiles
             || (|b.projectiles| == |a.projectiles| + 1 && a.projectiles <= b.projectiles && Acted(b, inputs, n', m', i)
                 && FromMuzzle(r, b, b.projectiles[|a.projectiles|], i) && Up(b.players[i]))
    ensures Traced(r, b, since, inputs, n', m')
  {
    hide FromMuzzle, Up;
    forall j | 0 <= j < |b.projectiles| && b.projectiles[j].id >= since
      ensures TracedShot(r, b, b.projectiles[j], inputs, n', m')
    {
      var s := b.projectiles[j];
      if j < |a.projectiles| {
        assert s == a.projectiles[j];
        var k: nat :| Acted(a, inputs, n, m, k) && FromMuzzle(r, a, s, k) && Up(a.players[k]);
        StillFromMuzzle(r, a, b, s, k);
        assert Acted(b, inputs, n', m', k);
      } else {
        assert Acted(b, inputs, n', m', i) && FromMuzzle(r, b, s, i) && Up(b.players[i]);
      }
    }
  }

  /** What an input visit adds to the air. */
  lemma InputShot(r: Rules, w: State, i: nat, inputs: Inputs)
    requires FineSeats(w.players) && i < |w.players|
    ensures var b := InputAt(r, w, i, inputs);
      && b.players[i].id == w.players[i].id
      && (|| b.projectiles == w.projectiles
          || (|b.projectiles| == |w.projectiles| + 1 && w.projectiles <= b.projectiles && w.players[i].id in inputs
              && FromMuzzle(r, b, b.projectiles[|w.projectiles|], i) && Up(b.players[i])))
  {
    hide Fire, Steered, FromMuzzle, FineSeats;
    var p := w.players[i].(cooldown := CountDown(w.players[i].cooldown));
    if p.id in inputs && p.alive && !Stale(p, inputs[p.id]) {
      var inp := inputs[p.id];
      var q := Steered(r.speed, (if inp.inputSeq != 0 then p.(inputSeq := inp.inputSeq) else p).(aim := inp.aim), inp.mx, inp.my);
      SteeredIsFine(w, i, r.speed, inputs);
      SeatIsLawful(w, i, q);
      LawfulSeats(w, Set(w, i, q));
      FireIsFromMuzzle(r, Set(w, i, q), i, inp.lagTicks);
      FireStaysPut(r, Set(w, i, q), i, inp.lagTicks, i);
    }
  }

  lemma SteeredIsFine(w: State, i: nat, speed: nat, inputs: Inputs)
    requires FineSeats(w.players) && i < |w.players| && w.players[i].id in inputs
    ensures var p, inp := w.players[i].(cooldown := CountDown(w.players[i].cooldown)), inputs[w.players[i].id];
      FineSeat(Steered(speed, (if inp.inputSeq != 0 then p.(inputSeq := inp.inputSeq) else p).(aim := inp.aim), inp.mx, inp.my))
  {
    assert FineSeat(w.players[i]);
    hide Steered, FineSeats;
  }

  lemma BotShot(r: Rules, w: State, i: nat, inputs: Inputs)
    requires FineSeats(w.players) && i < |w.players|
    ensures var b := BotAt(r, w, i, inputs);
      && b.players[i].id == w.players[i].id
      && (|| b.projectiles == w.projectiles
          || (|b.projectiles| == |w.projectiles| + 1 && w.projectiles <= b.projectiles && w.players[i].id !in inputs
              && FromMuzzle(r, b, b.projectiles[|w.projectiles|], i) && Up(b.players[i])))
  {
    BotIsLawful(r, w, i, inputs);
    LawfulSeats(w, BotAt(r, w, i, inputs));
    BotMovedIsLawful(r, w, i);
    LawfulSeats(w, BotMoved(r, w, i));
    BotFiresAlive(r, w, i, inputs);
    hide Fire, BotAt, BotMoved, FromMuzzle, FineSeats, Lawful;
    if BotAt(r, w, i, inputs).projectiles != w.projectiles {
      FireIsFromMuzzle(r, BotMoved(r, w, i), i, 0);
    }
  }

  lemma BotFiresAlive(r: Rules, w: State, i: nat, inputs: Inputs)
    requires i < |w.players|
    ensures var b := BotAt(r, w, i, inputs);
      || b.projectiles == w.projectiles
      || (b == Fire(r, BotMoved(r, w, i), i, 0) && BotMoved(r, w, i).players[i].alive && w.players[i].id !in inputs
          && BotMoved(r, w, i).projectiles == w.projectiles)
  {
    hide Fire, Along, CosDeg, SinDeg, Clamp;
  }

  lemma {:induction false} SteeringTraces(r: Rules, w: State, inputs: Inputs, n: nat)
    requires FineSeats(w.players) && FineShots(r, w) && n <= |w.players|
    ensures Traced(r, Walk(r, w, Steering(inputs), n), w.nextProj, inputs, n, 0)
  {
    hide FineSeats, InputAt, FromMuzzle, Lawful;
    if n > 0 {
      var i := n - 1;
      SteeringTraces(r, w, inputs, i);
      WalkIsLawful(r, w, Steering(inputs), i);
      var a := Walk(r, w, Steering(inputs), i);
      LawfulSeats(w, a);
      InputShot(r, a, i, inputs);
      forall k | Acted(a, inputs, i, 0, k)
        ensures StaysPut(a, InputAt(r, a, i, inputs), k)
      {
        OthersInputStaysPut(r, a, i, inputs, k);
      }
      hide Traced, FineShots, StaysPut;
      VisitTraces(r, a, InputAt(r, a, i, inputs), w.nextProj, inputs, i, 0, n, 0, i);
    }
  }

  lemma {:induction false} BotsTrace(r: Rules, w: State, since: nat, inputs: Inputs, m: nat)
    requires FineSeats(w.players) && m <= |w.players| && Traced(r, w, since, inputs, |w.players|, 0)
    ensures Traced(r, Walk(r, w, Bots(inputs), m), since, inputs, |w.players|, m)
  {
    hide FineSeats, BotAt, FromMuzzle, Lawful, Traced;
    if m > 0 {
      var i := m - 1;
      BotsTrace(r, w, since, inputs, i);
      WalkIsLawful(r, w, Bots(inputs), i);
      var a := Walk(r, w, Bots(inputs), i);
      LawfulSeats(w, a);
      BotShot(r, a, i, inputs);
      var n := |w.players|;
      forall k | Acted(a, inputs, n, i, k)
        ensures StaysPut(a, BotAt(r, a, i, inputs), k)
      {
        BotStaysPut(r, a, i, inputs, k);
      }
      hide StaysPut;
      VisitTraces(r, a, BotAt(r, a, i, inputs), since, inputs, n, i, n, m, i);
    }
  }

  lemma FlownFromMuzzle(r: Rules, w: State, q: Projectile, k: nat)
    requires FromMuzzle(r, w, q, k) && FineShot(r, q)
    ensures FromMuzzle(r, w, Flown(q), k)
  {
    OneTickOn(r, q);
    hide Muzzled;
  }

  /**
   A shot in the world after a step is one that was there and flew one stride straight on, or one fired on this
   step: then it left the muzzle of its owner, who still stands where it fired from, and at most the lag it is
   allowed is spent. Together with its muzzle this is its whole flight.
   */
  lemma ShotsOnlyFly(r: Rules, w: State, inputs: Inputs, j: nat)
    requires Sound(r, w) && !w.ended && j < |Step(r, w, inputs).projectiles|
    ensures var b := Step(r, w, inputs);
      var s := b.projectiles[j];
      || (s.id >= w.nextProj && s.ttl >= PROJECTILE_TTL - MAX_LAG_TICKS - 1 && exists k: nat :: FromMuzzle(r, b, s, k))
      || (exists k :: 0 <= k < |w.projectiles| && s == Flown(w.projectiles[k])
                      && MuzzleX(s) == MuzzleX(w.projectiles[k]) && MuzzleY(s) == MuzzleY(w.projectiles[k]))
  {
    var n, t, driven := |w.players|, AfterTimers(r, w), Driven(r, w, inputs);
    ClocksCharged(r, w);
    DrivenIsFine(r, w, inputs);
    var s := Step(r, w, inputs).projectiles[j];
    hide Visit, Lawful, FineSeats, FineShot, FromMuzzle, Traced;
    LandingIsLawful(r, driven);
    JudgedSame(r, Return(r, Fly(r, driven)));
    var q :| 0 <= q < |driven.projectiles| && s == Flown(driven.projectiles[q]);
    OneTickOn(r, driven.projectiles[q]);
    if q < |w.projectiles| {
      assert driven.projectiles[q] == w.projectiles[q];
    } else {
      NewShotLands(r, driven, inputs, driven.projectiles[q], n, t.nextProj);
    }
  }

  /** The world after everybody has moved and before the shots fly. */
  function Driven(r: Rules, w: State, inputs: Inputs): (d: State)
    ensures |d.players| == |w.players|
  {
    Walk(r, Walk(r, AfterTimers(r, w), Steering(inputs), |w.players|), Bots(inputs), |w.players|)
  }

  lemma DrivenIsFine(r: Rules, w: State, inputs: Inputs)
    requires Sound(r, w)
    ensures var t, d := AfterTimers(r, w), Driven(r, w, inputs);
      Sound(r, d) && Lawful(t, d) && Shooting(r, t, d) && Traced(r, d, t.nextProj, inputs, |w.players|, |w.players|)
    ensures Passes(r, Begun(w), inputs) == Return(r, Fly(r, Driven(r, w, inputs)))
  {
    hide FineSeats, FineShots, Lawful, Shooting, Visit, Traced;
    var n, t := |w.players|, AfterTimers(r, w);
    ClocksCharged(r, w);
    var steered := Walk(r, t, Steering(inputs), n);
    WalkIsLawful(r, t, Steering(inputs), n);
    WalkShoots(r, t, Steering(inputs), n);
    LawfulSeats(t, steered);
    AreFine(r, t, steered);
    SteeringTraces(r, t, inputs, n);
    var driven := Walk(r, steered, Bots(inputs), n);
    WalkIsLawful(r, steered, Bots(inputs), n);
    WalkShoots(r, steered, Bots(inputs), n);
    BotsTrace(r, steered, t.nextProj, inputs, n);
    LawfulSeats(steered, driven);
    AreFine(r, steered, driven);
    LawfulChain(t, steered, driven);
    ShootingChain(r, t, steered, driven);
  }

  /** A shot traced before flying and respawning is traced after them. */
  lemma NewShotLands(r: Rules, driven: State, inputs: Inputs, q: Projectile, n: nat, since: nat)
    requires Traced(r, driven, since, inputs, n, n) && q in driven.projectiles && q.id >= since && FineShot(r, q)
    ensures var b := Judged(r, Return(r, Fly(r, driven))); exists k: nat :: FromMuzzle(r, b, Flown(q), k)
  {
    hide FromMuzzle, FineShot, Visit, Muzzled;
    assert TracedShot(r, driven, q, inputs, n, n);
    var k: nat :| Acted(driven, inputs, n, n, k) && FromMuzzle(r, driven, q, k) && Up(driven.players[k]);
    var flown := Fly(r, driven);
    WalkStaysPut(r, driven.(projectiles := []), Flying(driven.projectiles), |driven.projectiles|, k);
    StaysThroughFlight(r, driven, k);
    StillFromMuzzle(r, driven, flown, q, k);
    StandingStays(r, flown.(claimed := Unclaimed(|flown.players|)), |flown.players|, k);
    var back := Return(r, flown);
    MuzzleOfSamePlace(r, flown, back, q, k);
    JudgedSame(r, back);
    MuzzleOfSamePlace(r, back, Judged(r, back), q, k);
    FlownFromMuzzle(r, Judged(r, back), q, k);
  }

  lemma StaysThroughFlight(r: Rules, driven: State, k: nat)
    requires StaysPut(driven.(projectiles := []), Fly(r, driven), k)
    ensures StaysPut(driven, Fly(r, driven), k)
  {
    hide Fly;
  }

  lemma MuzzleOfSamePlace(r: Rules, a: State, b: State, s: Projectile, k: nat)
    requires FromMuzzle(r, a, s, k) && k < |b.players|
    requires var p, q := a.players[k], b.players[k]; p.id == q.id && p.x == q.x && p.y == q.y && p.aim == q.aim
    ensures FromMuzzle(r, b, s, k)
  {
    SameMuzzle(r, a, a.players[k], b, b.players[k]);
    hide Muzzled;
  }

  // ---- every collision test fits its registers ----

  /** The values a test of the player against one stride of the shot goes through. */
  predicate TestFits(p: Player, s: Projectile) {
    var e := Flown(s);
    var dx, dy, wx, wy := e.x - s.x, e.y - s.y, p.x - s.x, p.y - s.y;
    var dot, len2 := wx * dx + wy * dy, dx * dx + dy * dy;
    && Fits32(e.x) && Fits32(e.y) && Fits32(dx) && Fits32(dy) && Fits32(wx) && Fits32(wy)
    && Fits64(wx * dx) && Fits64(wy * dy) && Fits64(dot) && Fits64(len2) && Fits64(dx * dot) && Fits64(dy * dot)
    && Fits64(SegDist2(p.x, p.y, s.x, s.y, e.x, e.y))
  }

  ghost predicate SweepIsExact(w: State, s: Projectile) {
    forall i :: 0 <= i < |w.players| ==> TestFits(w.players[i], s)
  }

  lemma FineSweepIsExact(r: Rules, w: State, s: Projectile)
    requires r.shot <= PROJECTILE_SPEED && FineSeats(w.players) && FineShot(r, s)
    ensures SweepIsExact(w, s)
  {
    var e := Flown(s);
    forall i | 0 <= i < |w.players|
      ensures TestFits(w.players[i], s)
    {
      var p := w.players[i];
      assert FineSeat(p);
      SweepFits(p.x, p.y, s.x, s.y, e.x, e.y);
      SegDistFits(p.x, p.y, s.x, s.y, e.x, e.y);
    }
  }

  /** Every sweep of a catch-up, in the world it is made in. */
  ghost predicate CatchUpIsExact(w: State, shot: Projectile, lag: nat)
    decreases lag
  {
    lag > 0 ==>
      && SweepIsExact(w, shot)
      && var moved := Flown(shot);
         var (struck, hit) := Sweep(w, moved, shot.x, shot.y);
         hit || Spent(moved) || CatchUpIsExact(struck, moved, lag - 1)
  }

  lemma {:induction false} FineCatchUpIsExact(r: Rules, w: State, shot: Projectile, lag: nat)
    requires r.shot <= PROJECTILE_SPEED && FineSeats(w.players) && Seated(w.players, shot.owner) && FineShot(r, shot)
    ensures CatchUpIsExact(w, shot, lag)
    decreases lag
  {
    hide Sweep, SweepIsExact, FineSeats, FineShot, Lawful;
    if lag > 0 {
      FineSweepIsExact(r, w, shot);
      var moved := Flown(shot);
      SweepIsLawful(w, moved, shot.x, shot.y);
      var (struck, hit) := Sweep(w, moved, shot.x, shot.y);
      LawfulSeats(w, struck);
      OneTickOn(r, shot);
      if !hit && !Spent(moved) {
        FineCatchUpIsExact(r, struck, moved, lag - 1);
      }
    }
  }

  /** Every sweep of the shot the seat at `i` would fire in world `w`. */
  ghost predicate FireIsExact(r: Rules, w: State, i: nat, lag: nat)
    requires i < |w.players|
  {
    var bold := Set(w, i, w.players[i].(protect := 0));
    CatchUpIsExact(bold.(nextProj := bold.nextProj + 1), Muzzled(r, bold, bold.players[i]), if lag > MAX_LAG_TICKS then MAX_LAG_TICKS else lag)
  }

  lemma FineFireIsExact(r: Rules, w: State, i: nat, lag: nat)
    requires r.shot <= PROJECTILE_SPEED && FineSeats(w.players) && i < |w.players|
    ensures FireIsExact(r, w, i, lag)
  {
    hide Lawful, CatchUpIsExact, FineShot, Muzzled;
    var p := w.players[i].(protect := 0);
    var bold := Set(w, i, p);
    SeatIsLawful(w, i, p);
    LawfulSeats(w, bold);
    MuzzleIsOnMap(r, bold, p);
    var counted := bold.(nextProj := bold.nextProj + 1);
    assert Seated(counted.players, p.id) by {
      assert counted.players[i].id == p.id;
    }
    FineCatchUpIsExact(r, counted, Muzzled(r, bold, p), if lag > MAX_LAG_TICKS then MAX_LAG_TICKS else lag);
  }

  /** The sweeps of one visit: the shot in flight, or the shot its seat fires from where it has just moved. */
  ghost predicate VisitIsExact(r: Rules, w: State, pass: Pass, i: nat)
    requires Fits(w, pass, i + 1)
  {
    match pass
    case Steering(inputs) =>
      w.players[i].id in inputs ==>
        var p, inp := w.players[i], inputs[w.players[i].id];
        FireIsExact(r, Set(w, i, Steered(r.speed, p.(aim := inp.aim), inp.mx, inp.my)), i, inp.lagTicks)
    case Bots(inputs) => FireIsExact(r, BotMoved(r, w, i), i, 0)
    case Flying(shots) => SweepIsExact(w, shots[i])
    case _ => true
  }

  lemma FineVisitIsExact(r: Rules, w: State, pass: Pass, i: nat)
    requires r.shot <= PROJECTILE_SPEED && FineSeats(w.players) && Fits(w, pass, i + 1)
    requires pass.Flying? ==> FineShot(r, pass.shots[i])
    ensures VisitIsExact(r, w, pass, i)
  {
    hide FireIsExact, SweepIsExact, Lawful, Steered, BotMoved;
    match pass
    case Steering(inputs) =>
      if w.players[i].id in inputs {
        var p, inp := w.players[i], inputs[w.players[i].id];
        var q := Steered(r.speed, p.(aim := inp.aim), inp.mx, inp.my);
        assert FineSeat(p);
        SeatIsLawful(w, i, q);
        LawfulSeats(w, Set(w, i, q));
        FineFireIsExact(r, Set(w, i, q), i, inp.lagTicks);
      }
    case Bots(inputs) =>
      BotMovedIsLawful(r, w, i);
      LawfulSeats(w, BotMoved(r, w, i));
      FineFireIsExact(r, BotMoved(r, w, i), i, 0);
    case Flying(shots) => FineSweepIsExact(r, w, shots[i]);
    case _ =>
  }

  /**
   At every tick rate, every collision test a step makes is computed without overflow: of each
   visit of each pass, in the world that visit finds, catch-up included.
   */
  lemma EverySweepFits(r: Rules, w: State, inputs: Inputs, tickRate: int, i: nat)
    requires r.shot == SpeedPerTick(PROJECTILE_SPEED, tickRate) && Sound(r, w)
    ensures var n := |w.players|;
      var t := AfterTimers(r, w);
      var steered := Walk(r, t, Steering(inputs), n);
      var driven := Walk(r, steered, Bots(inputs), n);
      && (i < n ==> VisitIsExact(r, Walk(r, t, Steering(inputs), i), Steering(inputs), i))
      && (i < n ==> VisitIsExact(r, Walk(r, steered, Bots(inputs), i), Bots(inputs), i))
      && (i < |driven.projectiles| ==>
           VisitIsExact(r, Walk(r, driven.(projectiles := []), Flying(driven.projectiles), i), Flying(driven.projectiles), i))
  {
    hide VisitIsExact, Visit, Lawful, FineSeats, FineShot, Shooting;
    PerTickIsLess(PROJECTILE_SPEED, tickRate);
    ClocksCharged(r, w);
    var n, t := |w.players|, AfterTimers(r, w);
    var steered := Walk(r, t, Steering(inputs), n);
    WalkIsLawful(r, t, Steering(inputs), n);
    WalkShoots(r, t, Steering(inputs), n);
    LawfulSeats(t, steered);
    AreFine(r, t, steered);
    var driven := Walk(r, steered, Bots(inputs), n);
    WalkIsLawful(r, steered, Bots(inputs), n);
    WalkShoots(r, steered, Bots(inputs), n);
    LawfulSeats(steered, driven);
    AreFine(r, steered, driven);
    if i < n {
      WalkIsLawful(r, t, Steering(inputs), i);
      LawfulSeats(t, Walk(r, t, Steering(inputs), i));
      FineVisitIsExact(r, Walk(r, t, Steering(inputs), i), Steering(inputs), i);
      WalkIsLawful(r, steered, Bots(inputs), i);
      LawfulSeats(steered, Walk(r, steered, Bots(inputs), i));
      FineVisitIsExact(r, Walk(r, steered, Bots(inputs), i), Bots(inputs), i);
    }
    if i < |driven.projectiles| {
      var empty := driven.(projectiles := []);
      WalkIsLawful(r, empty, Flying(driven.projectiles), i);
      LawfulSeats(empty, Walk(r, empty, Flying(driven.projectiles), i));
      FineVisitIsExact(r, Walk(r, empty, Flying(driven.projectiles), i), Flying(driven.projectiles), i);
    }
  }
}
