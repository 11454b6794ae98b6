/**
 Who fires, who is hurt and who comes back: a whole step, seat by seat, in terms of the world before it, the inputs
 and the draws. The world a seat acts in is the one it finds when its turn comes; everything else is the step's outcome.
 */
module Firing {
  import opened Wrappers
  import opened FixedPoint
  import opened SimTypes
  import opened Arena
  import opened Laws
  import opened Steps
  import opened Lives
  import opened Shots
  import Choices

  /** The world as a seat's turn comes to be steered. */
  function Turn(r: Rules, w: State, inputs: Inputs, i: nat): (t: State)
    requires i <= |w.players|
    ensures |t.players| == |w.players|
  {
    Walk(r, AfterTimers(r, w), Steering(inputs), i)
  }

  /** The world as a seat's turn comes among the bots. */
  function BotTurn(r: Rules, w: State, inputs: Inputs, i: nat): (t: State)
    requires i <= |w.players|
    ensures |t.players| == |w.players|
  {
    Walk(r, Turn(r, w, inputs, |w.players|), Bots(inputs), i)
  }

  /** There is an input for the seat that it has not taken up yet; number zero is always new. */
  predicate HasNew(p: Player, inputs: Inputs) {
    p.id in inputs && (inputs[p.id].inputSeq == 0 || inputs[p.id].inputSeq > p.inputSeq)
  }

  predicate AsksToFire(p: Player, inputs: Inputs) {
    HasNew(p, inputs) && inputs[p.id].fire && p.cooldown <= 1
  }

  predicate Plays(p: Player, inputs: Inputs) {
    p.bot && p.id !in inputs
  }

  /** A bot turns on one draw in twenty, and fires on one in twelve of those after it. */
  predicate BotTurns(r: Rules, drawn: nat) {
    r.draw(drawn) % 20 == 0
  }

  predicate BotFires(r: Rules, drawn: nat) {
    r.draw(drawn + if BotTurns(r, drawn) then 2 else 1) % 12 == 0
  }

  /** Whether the seat fires in this step. */
  predicate Fires(r: Rules, w: State, inputs: Inputs, i: nat)
    requires i < |w.players|
  {
    var p := w.players[i];
    || (Turn(r, w, inputs, i).players[i].alive && AsksToFire(p, inputs))
    || (Plays(p, inputs) && BotTurn(r, w, inputs, i).players[i].alive && p.cooldown <= 1
        && BotFires(r, BotTurn(r, w, inputs, i).drawn))
  }

  // ---- a seat's own visits ----

  lemma {:induction false} CatchUpKeepsCounters(w: State, shot: Projectile, lag: nat)
    ensures var c := CatchUp(w, shot, lag); c.nextProj == w.nextProj && c.drawn == w.drawn
    decreases lag
  {
    hide Sweep, Spent;
    if lag > 0 {
      var moved := Flown(shot);
      SweepLeavesShots(w, moved, shot.x, shot.y);
      var (struck, hit) := Sweep(w, moved, shot.x, shot.y);
      if !(hit || Spent(moved)) {
        CatchUpKeepsCounters(struck, moved, lag - 1);
      }
    }
  }

  lemma FireTakesOneId(r: Rules, w: State, i: nat, lag: nat)
    requires i < |w.players|
    ensures Fire(r, w, i, lag).nextProj == w.nextProj + 1 && Fire(r, w, i, lag).drawn == w.drawn
  {
    hide CatchUp, Muzzled;
    var bold := Set(w, i, w.players[i].(protect := 0));
    CatchUpKeepsCounters(bold.(nextProj := bold.nextProj + 1), Muzzled(r, bold, bold.players[i]),
                         if lag > MAX_LAG_TICKS then MAX_LAG_TICKS else lag);
  }

  /** What a seat's own turn does to it, apart from where it moves. */
  ghost predicate Acts(a: State, b: State, i: nat, fires: bool, cooldown: nat, aim: int) {
    && Life(a, b, i) && b.nextProj == a.nextProj + (if fires then 1 else 0)
    && var p, q := a.players[i], b.players[i];
       && q.bot == p.bot && q.left == p.left && q.linger == p.linger
       && q.cooldown == (if fires then FIRE_COOLDOWN else cooldown) && q.protect == (if fires then 0 else p.protect) && q.aim == aim
       && (!fires ==> Hits(b, i) == Hits(a, i))
  }

  lemma ShooterActs(r: Rules, w: State, moved: State, i: nat, lag: nat)
    requires Apart(w) && i < |w.players| && SameIds(w, moved) && moved.events == w.events && moved.nextProj == w.nextProj
    requires var p, q := w.players[i], moved.players[i];
      q.bot == p.bot && q.left == p.left && q.linger == p.linger && q.alive == p.alive && q.hp == p.hp && q.respawn == p.respawn && q.score == p.score
    ensures Acts(w, Fire(r, moved, i, lag), i, true, 0, moved.players[i].aim)
  {
    hide Fire, CountOf, KillsBy;
    assert Apart(moved);
    FiringSeat(r, moved, i, lag);
    FireTakesOneId(r, moved, i, lag);
  }

  lemma QuietTurn(w: State, moved: State, i: nat)
    requires i < |w.players| && SameIds(w, moved) && moved.events == w.events && moved.nextProj == w.nextProj
    requires var p, q := w.players[i], moved.players[i];
      q.bot == p.bot && q.left == p.left && q.linger == p.linger && q.alive == p.alive && q.hp == p.hp && q.respawn == p.respawn && q.score == p.score
      && q.protect == p.protect
    ensures Acts(w, moved, i, false, moved.players[i].cooldown, moved.players[i].aim)
  {
    hide CountOf, KillsBy;
  }

  lemma OwnInput(r: Rules, w: State, inputs: Inputs, i: nat)
    requires Apart(w) && i < |w.players|
    ensures var p := w.players[i];
      Acts(w, InputAt(r, w, i, inputs), i, p.alive && AsksToFire(p, inputs), CountDown(p.cooldown),
           if p.alive && HasNew(p, inputs) then inputs[p.id].aim else p.aim)
  {
    hide Fire, Acts, Stride;
    var p := w.players[i].(cooldown := CountDown(w.players[i].cooldown));
    if p.id !in inputs || !p.alive || Stale(p, inputs[p.id]) {
      QuietTurn(w, Set(w, i, p), i);
    } else {
      var inp := inputs[p.id];
      var q := Steered(r.speed, (if inp.inputSeq != 0 then p.(inputSeq := inp.inputSeq) else p).(aim := inp.aim), inp.mx, inp.my);
      hide Steered;
      var moved := Set(w, i, q);
      QuietTurn(w, moved, i);
      ShooterActs(r, w, moved, i, inp.lagTicks);
    }
  }

  lemma OwnBot(r: Rules, w: State, inputs: Inputs, i: nat)
    requires Apart(w) && i < |w.players| && Plays(w.players[i], inputs)
    ensures var p := w.players[i];
      Acts(w, BotAt(r, w, i, inputs), i, p.alive && p.cooldown == 0 && BotFires(r, w.drawn), p.cooldown,
           if p.alive && BotTurns(r, w.drawn) then r.draw(w.drawn + 1) % 360 else p.aim)
  {
    hide Fire, Acts, Along, CosDeg, SinDeg, Clamp;
    var p, moved := w.players[i], BotMoved(r, w, i);
    if !p.alive {
      QuietTurn(w, w, i);
    } else {
      QuietTurn(w, moved.(drawn := moved.drawn - 1), i);
      QuietTurn(w, moved, i);
      ShooterActs(r, w, moved, i, 0);
    }
  }

  // ---- through the step ----

  lemma CarriedFacts(a: State, b: State, i: nat)
    requires Carried(a, b, i)
    ensures Life(a, b, i) && SameIds(a, b) && i < |a.players| == |b.players|
    ensures var p, q := a.players[i], b.players[i];
      && q.id == p.id && q.bot == p.bot && q.left == p.left && q.linger == p.linger && q.cooldown == p.cooldown && q.protect == p.protect
      && q.aim == p.aim && q.inputSeq == p.inputSeq && (q.alive ==> p.alive)
      && (p.protect > 0 ==> Hits(b, i) == Hits(a, i))
    ensures Apart(a) ==> Apart(b)
  {
    hide CountOf, KillsBy;
  }

  lemma ActsFacts(a: State, b: State, i: nat, fires: bool, cooldown: nat, aim: int)
    requires Acts(a, b, i, fires, cooldown, aim)
    ensures Life(a, b, i) && SameIds(a, b) && i < |a.players| == |b.players|
    ensures var p, q := a.players[i], b.players[i];
      && q.id == p.id && q.bot == p.bot && q.left == p.left && q.linger == p.linger
      && q.cooldown == (if fires then FIRE_COOLDOWN else cooldown) && q.protect == (if fires then 0 else p.protect) && q.aim == aim
      && (!fires ==> Hits(b, i) == Hits(a, i)) && (q.alive ==> p.alive)
    ensures Apart(a) ==> Apart(b)
  {
    hide CountOf, KillsBy;
  }

  /** What the passes up to the respawns come to for one seat. */
  ghost predicate Went(a: State, b: State, i: nat, fires: bool, cooldown: nat, aim: int) {
    && Life(a, b, i)
    && var p, q := a.players[i], b.players[i];
       && q.bot == p.bot && q.left == p.left && q.linger == p.linger
       && q.cooldown == (if fires then FIRE_COOLDOWN else cooldown) && q.protect == (if fires then 0 else p.protect) && q.aim == aim
       && (!fires && p.protect > 0 ==> Hits(b, i) == Hits(a, i))
  }

  /** A seat steered: the visits before its own, its own, and those after. */
  lemma SteeredSeat(r: Rules, t: State, inputs: Inputs, i: nat)
    requires Apart(t) && i < |t.players|
    ensures var n, p, turn := |t.players|, t.players[i], Walk(r, t, Steering(inputs), i);
      var steered := Walk(r, t, Steering(inputs), n);
      && turn.players[i].id == p.id && turn.players[i].cooldown == p.cooldown && turn.players[i].inputSeq == p.inputSeq
      && Apart(steered)
      && Went(t, steered, i, turn.players[i].alive && AsksToFire(p, inputs), CountDown(p.cooldown),
              if turn.players[i].alive && HasNew(p, inputs) then inputs[p.id].aim else p.aim)
  {
    hide Acts, Carried, Life, InputAt, AsksToFire, CountOf;
    var n, p := |t.players|, t.players[i];
    WalkIsCarried(r, t, Steering(inputs), i, i);
    var turn := Walk(r, t, Steering(inputs), i);
    CarriedFacts(t, turn, i);
    var own := InputAt(r, turn, i, inputs);
    OwnInput(r, turn, inputs, i);
    SameAsking(p, turn.players[i], inputs);
    OneMoreSteered(r, t, inputs, i);
    var q := turn.players[i];
    ActsFacts(turn, own, i, q.alive && AsksToFire(q, inputs), CountDown(q.cooldown), if q.alive && HasNew(q, inputs) then inputs[q.id].aim else q.aim);
    LaterIsCarried(r, t, Steering(inputs), n, i);
    var steered := Walk(r, t, Steering(inputs), n);
    CarriedFacts(own, steered, i);
    LifeChain(t, turn, own, i);
    LifeChain(t, own, steered, i);
  }

  lemma SameAsking(p: Player, q: Player, inputs: Inputs)
    requires q.id == p.id && q.cooldown == p.cooldown && q.inputSeq == p.inputSeq
    ensures AsksToFire(q, inputs) == AsksToFire(p, inputs) && HasNew(q, inputs) == HasNew(p, inputs)
  {
  }

  lemma OneMoreSteered(r: Rules, w: State, inputs: Inputs, i: nat)
    requires i < |w.players|
    ensures Walk(r, w, Steering(inputs), i + 1) == InputAt(r, Walk(r, w, Steering(inputs), i), i, inputs)
  {
  }

  lemma OneMoreBot(r: Rules, w: State, inputs: Inputs, i: nat)
    requires i < |w.players|
    ensures Walk(r, w, Bots(inputs), i + 1) == BotAt(r, Walk(r, w, Bots(inputs), i), i, inputs)
  {
  }

  /** A seat among the bots. */
  lemma DrivenSeat(r: Rules, s: State, inputs: Inputs, i: nat)
    requires Apart(s) && i < |s.players|
    ensures var n, p, turn := |s.players|, s.players[i], Walk(r, s, Bots(inputs), i);
      var driven := Walk(r, s, Bots(inputs), n);
      && Apart(driven)
      && Went(s, driven, i, Plays(p, inputs) && turn.players[i].alive && p.cooldown == 0 && BotFires(r, turn.drawn), p.cooldown,
              if Plays(p, inputs) && turn.players[i].alive && BotTurns(r, turn.drawn) then r.draw(turn.drawn + 1) % 360 else p.aim)
  {
    hide Acts, Carried, Life, BotAt, CountOf, BotFires, BotTurns;
    var n, p := |s.players|, s.players[i];
    var driven := Walk(r, s, Bots(inputs), n);
    if Plays(p, inputs) {
      WalkIsCarried(r, s, Bots(inputs), i, i);
      var turn := Walk(r, s, Bots(inputs), i);
      CarriedFacts(s, turn, i);
      var q := turn.players[i];
      var own := BotAt(r, turn, i, inputs);
      OwnBot(r, turn, inputs, i);
      OneMoreBot(r, s, inputs, i);
      ActsFacts(turn, own, i, q.alive && q.cooldown == 0 && BotFires(r, turn.drawn), q.cooldown,
                if q.alive && BotTurns(r, turn.drawn) then r.draw(turn.drawn + 1) % 360 else q.aim);
      LaterIsCarried(r, s, Bots(inputs), n, i);
      CarriedFacts(own, driven, i);
      LifeChain(s, turn, own, i);
      LifeChain(s, own, driven, i);
    } else {
      WalkIsCarried(r, s, Bots(inputs), n, i);
      CarriedFacts(s, driven, i);
    }
  }

  lemma FlownSeat(r: Rules, driven: State, i: nat)
    requires Apart(driven) && i < |driven.players|
    ensures Carried(driven, Fly(r, driven), i) && Apart(Fly(r, driven))
  {
    hide Carried, Visit;
    var empty := driven.(projectiles := []);
    UntouchedIsCarried(driven, empty, i);
    WalkIsCarried(r, empty, Flying(driven.projectiles), |driven.projectiles|, i);
    CarriedChain(driven, empty, Fly(r, driven), i);
    CarriedStaysApart(driven, Fly(r, driven), i);
  }

  lemma WentOn(a: State, b: State, c: State, i: nat, fires: bool, cooldown: nat, aim: int)
    requires Went(a, b, i, fires, cooldown, aim) && Carried(b, c, i)
    ensures Went(a, c, i, fires, cooldown, aim)
  {
    CarriedFacts(b, c, i);
    LifeChain(a, b, c, i);
    WentFacts(a, b, i, fires, cooldown, aim);
    hide Carried, Life, CountOf;
  }

  lemma WentFacts(a: State, b: State, i: nat, fires: bool, cooldown: nat, aim: int)
    requires Went(a, b, i, fires, cooldown, aim)
    ensures Life(a, b, i) && SameIds(a, b) && i < |a.players| == |b.players| && b.players[i].id == a.players[i].id
    ensures b.players[i].alive ==> a.players[i].alive
    ensures Apart(a) ==> Apart(b)
  {
    hide CountOf, KillsBy;
  }

  /** A seat from the clocks to when the shots come to fly. */
  lemma SeatUntilFlight(r: Rules, w: State, inputs: Inputs, i: nat)
    requires Sound(r, w) && i < |w.players| && AfterTimers(r, w).players[i] == Timed(w.players[i]) && Apart(AfterTimers(r, w))
    ensures var t, driven := AfterTimers(r, w), BotTurn(r, w, inputs, |w.players|);
      Apart(driven) && Went(t, driven, i, Fires(r, w, inputs, i), CountDown(w.players[i].cooldown), AimAfter(r, w, inputs, i))
  {
    hide Sound, Walk, Went, BotTurns, BotFires, AfterTimers, Fires, AimAfter, Timed;
    var n, t := |w.players|, AfterTimers(r, w);
    SteeredSeat(r, t, inputs, i);
    var steered := Turn(r, w, inputs, n);
    DrivenSeat(r, steered, inputs, i);
    TwoTurns(r, w, inputs, i, t, steered, BotTurn(r, w, inputs, n));
  }

  /** A seat from the clocks to the landing of the shots. */
  lemma SeatUntilReturn(r: Rules, w: State, inputs: Inputs, i: nat)
    requires Sound(r, w) && i < |w.players|
    ensures var t, p := AfterTimers(r, w), w.players[i];
      var flown := Fly(r, Driven(r, w, inputs));
      Apart(t) && Apart(flown) && Went(t, flown, i, Fires(r, w, inputs, i), CountDown(p.cooldown), AimAfter(r, w, inputs, i))
  {
    ClocksCharged(r, w);
    var t, driven := AfterTimers(r, w), BotTurn(r, w, inputs, |w.players|);
    assert Apart(t);
    assert t.players[i] == Timed(w.players[i]);
    hide Sound, AfterTimers, Timed, Fires, AimAfter, Fly, Went;
    SeatUntilFlight(r, w, inputs, i);
    FlownSeat(r, driven, i);
    WentOn(t, driven, Fly(r, driven), i, Fires(r, w, inputs, i), CountDown(w.players[i].cooldown), AimAfter(r, w, inputs, i));
  }

  /** Where the seat aims after the step: as its input says, or as its draw does, or as before. */
  function AimAfter(r: Rules, w: State, inputs: Inputs, i: nat): int
    requires i < |w.players|
  {
    var p, drawn := w.players[i], BotTurn(r, w, inputs, i).drawn;
    if Turn(r, w, inputs, i).players[i].alive && HasNew(p, inputs) then inputs[p.id].aim
    else if Plays(p, inputs) && BotTurn(r, w, inputs, i).players[i].alive && BotTurns(r, drawn) then r.draw(drawn + 1) % 360
    else p.aim
  }

  lemma TwoTurns(r: Rules, w: State, inputs: Inputs, i: nat, t: State, steered: State, driven: State)
    requires i < |w.players| == |t.players| && t.players[i] == Timed(w.players[i])
    requires var p, turn := t.players[i], Turn(r, w, inputs, i);
      Went(t, steered, i, turn.players[i].alive && AsksToFire(p, inputs), CountDown(p.cooldown),
           if turn.players[i].alive && HasNew(p, inputs) then inputs[p.id].aim else p.aim)
    requires i < |steered.players| && var p, turn := steered.players[i], BotTurn(r, w, inputs, i);
      Went(steered, driven, i, Plays(p, inputs) && turn.players[i].alive && p.cooldown == 0 && BotFires(r, turn.drawn), p.cooldown,
           if Plays(p, inputs) && turn.players[i].alive && BotTurns(r, turn.drawn) then r.draw(turn.drawn + 1) % 360 else p.aim)
    ensures Went(t, driven, i, Fires(r, w, inputs, i), CountDown(w.players[i].cooldown), AimAfter(r, w, inputs, i))
  {
    hide Life, Turn, BotTurn, BotFires, BotTurns, CountOf, FineSeat;
    var p := w.players[i];
    SameAsking(p, t.players[i], inputs);
    LifeIds(t, steered, i);
    LifeIds(steered, driven, i);
    LifeChain(t, steered, driven, i);
  }

  lemma LifeIds(a: State, b: State, i: nat)
    requires Life(a, b, i)
    ensures SameIds(a, b) && i < |a.players| && (Hits(b, i) >= Hits(a, i))
  {
    hide CountOf, KillsBy;
  }

  // ---- the respawns ----

  /** What the respawn pass makes of a seat that is neither up nor gone: one tick off its wait, or back, whole and immune. */
  ghost predicate Waited(r: Rules, flown: State, p: Player, q: Player, i: nat)
    requires i < |flown.players|
  {
    if p.alive || p.left then q == p
    else if p.respawn > 0 then q == p.(respawn := p.respawn - 1)
    else
      var slot, n := Choices.SlotOf(r, flown, i), |flown.players|;
      q == p.(alive := true, hp := 100, protect := 10, x := SpawnX(slot, n), y := SpawnY(slot, n))
  }

  lemma ReturningVisit(r: Rules, w: State, flown: State, i: nat)
    requires i < |flown.players| && w == Choices.Reached(r, flown, i) && w.players[i] == flown.players[i]
    ensures Waited(r, flown, flown.players[i], ReturnAt(w, i).players[i], i)
  {
    hide SafestSlot, SpawnX, SpawnY, Walk;
  }

  lemma {:induction false} ReturnsLater(r: Rules, flown: State, i: nat, m: nat)
    requires i < m <= |flown.players|
    ensures Waited(r, flown, flown.players[i], Walk(r, flown.(claimed := Unclaimed(|flown.players|)), Returning, m).players[i], i)
  {
    hide SafestSlot, SpawnX, SpawnY, Waited, ReturnAt;
    if i + 1 == m {
      Choices.ClaimsGrow(r, flown, i);
      ReturningVisit(r, Choices.Reached(r, flown, i), flown, i);
    } else {
      ReturnsLater(r, flown, i, m - 1);
      Choices.OneReturn(Choices.Reached(r, flown, m - 1), m - 1);
    }
  }

  lemma {:induction false} ReturningTellsNothing(r: Rules, w: State, n: nat)
    requires Fits(w, Returning, n)
    ensures var b := Walk(r, w, Returning, n); b.events == w.events && b.nextProj == w.nextProj && SameIds(w, b) && b.tick == w.tick
  {
    hide SafestSlot, SpawnX, SpawnY;
    if n > 0 {
      ReturningTellsNothing(r, w, n - 1);
    }
  }

  lemma ReturnedSeat(r: Rules, flown: State, i: nat)
    requires i < |flown.players|
    ensures var b := Judged(r, Return(r, flown));
      && |b.players| == |flown.players| && b.events == flown.events && SameIds(flown, b)
      && Waited(r, flown, flown.players[i], b.players[i], i)
  {
    hide Waited, Visit;
    var n := |flown.players|;
    ReturnsLater(r, flown, i, n);
    ReturningTellsNothing(r, flown.(claimed := Unclaimed(n)), n);
    JudgedSame(r, Return(r, flown));
  }

  predicate OnlyDepartures(events: seq<Event>) {
    forall k :: 0 <= k < |events| ==> events[k].kind == EventDepart
  }

  lemma {:induction false} TimersTellDepartures(r: Rules, w: State, n: nat)
    requires n <= |w.players| && OnlyDepartures(w.events)
    ensures OnlyDepartures(Walk(r, w, Timers, n).events)
  {
    if n > 0 {
      TimersTellDepartures(r, w, n - 1);
    }
  }

  lemma {:induction false} NothingButDepartures(events: seq<Event>, id: nat)
    requires OnlyDepartures(events)
    ensures CountOf(events, EventHit, id) == 0 && CountOf(events, EventKill, id) == 0 && KillsBy(events, id) == 0
  {
    if events != [] {
      NothingButDepartures(events[..|events| - 1], id);
    }
  }

  // ---- the whole step ----

  /** The seat's departure runs out in this step. */
  predicate Goes(p: Player) {
    p.left && p.linger == 1
  }

  /**
   A seat's life over a step. Its score grows by the kills the feed gives it. If it stands, it loses 25 for every hit the
   feed tells of it and nothing else, and falls with the hit that takes the last, once; it is then 40 ticks from coming
   back, the step's own counted unless its player has left. If it is down nothing hits it; it waits, or comes back with
   full health and immunity when the wait is over. Whose player is gone for good stays down.
   */
  ghost predicate LivedThrough(p: Player, q: Player, hits: nat, deaths: nat, won: nat) {
    && q.score == p.score + won
    && (p.alive && !Goes(p) && q.alive ==> q.hp == p.hp - 25 * hits && deaths == 0)
    && (p.alive && !Goes(p) && !q.alive ==>
         && p.hp - 25 * hits <= 0 < p.hp - 25 * (hits - 1) && deaths == 1 && q.hp == 0
         && q.respawn == if p.left then 40 else 39)
    && (!p.alive || Goes(p) ==> hits == 0 && deaths == 0)
    && (p.left && (Goes(p) || !p.alive) ==> !q.alive)
    && (!p.alive && !p.left && p.respawn > 0 ==> !q.alive && q.respawn == p.respawn - 1)
    && (!p.alive && !p.left && p.respawn == 0 ==> q.alive && q.hp == 100 && q.protect == 10)
  }

  /** The clocks of its gun and of its immunity, and that immunity means what it says. */
  ghost predicate Ticked(p: Player, q: Player, hits: nat, fires: bool, aim: int) {
    && q.cooldown == (if fires then 8 else CountDown(p.cooldown)) && q.aim == aim
    && (p.alive ==> q.protect == if fires then 0 else CountDown(p.protect))
    && (p.protect >= 2 && !fires ==> hits == 0)
  }

  lemma FromTimers(r: Rules, w: State, i: nat)
    requires Sound(r, w) && i < |w.players|
    ensures var t, p := AfterTimers(r, w), w.players[i];
      && |t.players| == |w.players| && Hits(t, i) == 0 && Deaths(t, i) == 0 && Won(t, i) == 0
      && t.players[i] == p.(protect := CountDown(p.protect), linger := if p.left then CountDown(p.linger) else p.linger,
                            alive := p.alive && !Goes(p), hp := if Goes(p) then 0 else p.hp, respawn := if Goes(p) then 0 else p.respawn)
  {
    ClocksCharged(r, w);
    TimersTellDepartures(r, Begun(w), |w.players|);
    NothingButDepartures(AfterTimers(r, w).events, w.players[i].id);
    assert AfterTimers(r, w).players[i] == Timed(w.players[i]);
    hide AfterTimers, CountOf, KillsBy, Sound;
  }

  /** Every seat through every step. */
  lemma SeatThroughStep(r: Rules, w: State, inputs: Inputs, i: nat)
    requires Sound(r, w) && !w.ended && i < |w.players|
    ensures var b := Step(r, w, inputs);
      |b.players| == |w.players| && b.players[i].id == w.players[i].id
    ensures var b, p := Step(r, w, inputs), w.players[i];
      && LivedThrough(p, b.players[i], Hits(b, i), Deaths(b, i), Won(b, i))
      && Ticked(p, b.players[i], Hits(b, i), Fires(r, w, inputs, i), AimAfter(r, w, inputs, i))
  {
    DrivenIsFine(r, w, inputs);
    var t, p, b := AfterTimers(r, w), w.players[i], Step(r, w, inputs);
    var flown := Fly(r, Driven(r, w, inputs));
    SeatUntilReturn(r, w, inputs, i);
    FromTimers(r, w, i);
    ReturnedSeat(r, flown, i);
    FineAt(w, i);
    hide Sound, Fires, AimAfter, AfterTimers, Driven, Step, Fly, Return, Judged, CountOf, KillsBy, SpawnX, SpawnY;
  }

  lemma FineAt(w: State, i: nat)
    requires FineSeats(w.players) && i < |w.players|
    ensures FineSeat(w.players[i])
  {
  }

  // ---- who stands when its turn comes ----

  /** Whoever stands after the step, and did before it, stood when its turn came. */
  lemma StoodAtItsTurn(r: Rules, w: State, inputs: Inputs, i: nat)
    requires Sound(r, w) && !w.ended && i < |w.players|
    ensures Turn(r, w, inputs, i).players[i].alive ==> w.players[i].alive && !Goes(w.players[i])
    ensures BotTurn(r, w, inputs, i).players[i].alive ==> w.players[i].alive && !Goes(w.players[i])
    ensures |Step(r, w, inputs).players| == |w.players|
    ensures w.players[i].alive && Step(r, w, inputs).players[i].alive ==> Turn(r, w, inputs, i).players[i].alive
    ensures w.players[i].alive && Step(r, w, inputs).players[i].alive ==> BotTurn(r, w, inputs, i).players[i].alive
  {
    ClocksCharged(r, w);
    var n, t := |w.players|, AfterTimers(r, w);
    assert Apart(t);
    FromTimers(r, w, i);
    DrivenIsFine(r, w, inputs);
    hide Sound, InputAt, BotAt, Visit, FineSeats, FineSeat, AfterTimers;
    WalkIsCarried(r, t, Steering(inputs), i, i);
    CarriedFacts(t, Turn(r, w, inputs, i), i);
    OwnInput(r, Turn(r, w, inputs, i), inputs, i);
    SteeredThenFalls(r, t, inputs, i);
    var steered := Turn(r, w, inputs, n);
    SteeredSeat(r, t, inputs, i);
    BotsThenFall(r, steered, inputs, i);
    var driven := BotTurn(r, w, inputs, n);
    FlownSeat(r, driven, i);
    CarriedFacts(driven, Fly(r, driven), i);
    ReturnedSeat(r, Fly(r, driven), i);
    SeatUntilReturn(r, w, inputs, i);
    RevivedWasDown(r, t, Fly(r, driven), Step(r, w, inputs), i, Fires(r, w, inputs, i), CountDown(w.players[i].cooldown),
                   AimAfter(r, w, inputs, i));
  }

  lemma SteeredThenFalls(r: Rules, t: State, inputs: Inputs, i: nat)
    requires Apart(t) && i < |t.players|
    ensures Walk(r, t, Steering(inputs), |t.players|).players[i].alive ==> Walk(r, t, Steering(inputs), i).players[i].alive
    ensures Walk(r, t, Steering(inputs), |t.players|).players[i].alive ==> t.players[i].alive
  {
    hide InputAt, Acts, Carried;
    var turn := Walk(r, t, Steering(inputs), i);
    WalkIsCarried(r, t, Steering(inputs), i, i);
    CarriedFacts(t, turn, i);
    OwnInput(r, turn, inputs, i);
    OneMoreSteered(r, t, inputs, i);
    var p := turn.players[i];
    ActsFacts(turn, InputAt(r, turn, i, inputs), i, p.alive && AsksToFire(p, inputs), CountDown(p.cooldown),
              if p.alive && HasNew(p, inputs) then inputs[p.id].aim else p.aim);
    LaterIsCarried(r, t, Steering(inputs), |t.players|, i);
    CarriedFacts(InputAt(r, turn, i, inputs), Walk(r, t, Steering(inputs), |t.players|), i);
  }

  lemma BotsThenFall(r: Rules, s: State, inputs: Inputs, i: nat)
    requires Apart(s) && i < |s.players|
    ensures Walk(r, s, Bots(inputs), |s.players|).players[i].alive ==> Walk(r, s, Bots(inputs), i).players[i].alive
    ensures Walk(r, s, Bots(inputs), i).players[i].alive ==> s.players[i].alive
    ensures Apart(Walk(r, s, Bots(inputs), |s.players|))
  {
    hide BotAt, Acts, Carried;
    var turn := Walk(r, s, Bots(inputs), i);
    WalkIsCarried(r, s, Bots(inputs), i, i);
    CarriedFacts(s, turn, i);
    OneMoreBot(r, s, inputs, i);
    var own := BotAt(r, turn, i, inputs);
    if Plays(s.players[i], inputs) {
      OwnBot(r, turn, inputs, i);
      var p := turn.players[i];
      ActsFacts(turn, own, i, p.alive && p.cooldown == 0 && BotFires(r, turn.drawn), p.cooldown,
                if p.alive && BotTurns(r, turn.drawn) then r.draw(turn.drawn + 1) % 360 else p.aim);
    } else {
      OthersBotIsCarried(r, turn, i, inputs, i);
      CarriedFacts(turn, own, i);
    }
    LaterIsCarried(r, s, Bots(inputs), |s.players|, i);
    CarriedFacts(own, Walk(r, s, Bots(inputs), |s.players|), i);
  }

  lemma RevivedWasDown(r: Rules, t: State, flown: State, b: State, i: nat, fires: bool, cooldown: nat, aim: int)
    requires Went(t, flown, i, fires, cooldown, aim) && i < |flown.players| == |b.players|
    requires Waited(r, flown, flown.players[i], b.players[i], i)
    ensures t.players[i].alive && b.players[i].alive ==> flown.players[i].alive
  {
    hide CountOf, KillsBy, SpawnX, SpawnY;
  }

  /**
   A player who stands through the step fires exactly when there is a new input for it that asks to and its gun is ready
   on this tick; it aims where that input says. Whoever is down, or goes, does not fire.
   */
  lemma PlayerFiresExactly(r: Rules, w: State, inputs: Inputs, i: nat)
    requires Sound(r, w) && !w.ended && i < |w.players|
    ensures |Step(r, w, inputs).players| == |w.players|
    ensures var p, q := w.players[i], Step(r, w, inputs).players[i];
      && (!p.alive || Goes(p) ==> !Fires(r, w, inputs, i))
      && (p.alive && q.alive && !Plays(p, inputs) ==>
           && (q.cooldown == 8 <==> AsksToFire(p, inputs)) && (Fires(r, w, inputs, i) <==> AsksToFire(p, inputs))
           && q.aim == if HasNew(p, inputs) then inputs[p.id].aim else p.aim)
  {
    StoodAtItsTurn(r, w, inputs, i);
    SeatThroughStep(r, w, inputs, i);
    FineAt(w, i);
    hide Sound, Turn, BotTurn, Step;
  }

  /** A bot that stands through the step fires exactly when its gun is ready and its draw says so, and turns when its draw says so. */
  lemma BotFiresExactly(r: Rules, w: State, inputs: Inputs, i: nat)
    requires Sound(r, w) && !w.ended && i < |w.players| && Plays(w.players[i], inputs)
    ensures |Step(r, w, inputs).players| == |w.players|
    ensures var p, q, drawn := w.players[i], Step(r, w, inputs).players[i], BotTurn(r, w, inputs, i).drawn;
      p.alive && q.alive ==>
        && (q.cooldown == 8 <==> p.cooldown <= 1 && BotFires(r, drawn))
        && q.aim == if BotTurns(r, drawn) then r.draw(drawn + 1) % 360 else p.aim
  {
    StoodAtItsTurn(r, w, inputs, i);
    SeatThroughStep(r, w, inputs, i);
    FineAt(w, i);
    hide Sound, Turn, BotTurn, Step;
  }
}
