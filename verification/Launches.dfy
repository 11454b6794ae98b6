/**
 What becomes of a shot. Every seat that fires takes one id and sends up one shot, swept through the ticks its
 shooter was behind; a shot flies on until it reaches somebody who is not immune, leaves the map or runs out.
 */
module Launches {
  import opened Wrappers
  import opened FixedPoint
  import opened SimTypes
  import opened Arena
  import opened Laws
  import opened Steps
  import opened Lives
  import opened Shots
  import opened Firing
  import Choices
  import Stance

  // ---- ids and draws ----

  /** How many of the first `n` seats fire in the step. */
  function ShotsFired(r: Rules, w: State, inputs: Inputs, n: nat): nat
    requires n <= |w.players|
  {
    if n == 0 then 0 else ShotsFired(r, w, inputs, n - 1) + if Fires(r, w, inputs, n - 1) then 1 else 0
  }

  function FiredByInput(r: Rules, w: State, inputs: Inputs, n: nat): nat
    requires n <= |w.players|
  {
    if n == 0 then 0
    else FiredByInput(r, w, inputs, n - 1)
         + if Turn(r, w, inputs, n - 1).players[n - 1].alive && AsksToFire(w.players[n - 1], inputs) then 1 else 0
  }

  function FiredByBots(r: Rules, w: State, inputs: Inputs, n: nat): nat
    requires n <= |w.players|
  {
    if n == 0 then 0
    else
      var p, turn := w.players[n - 1], BotTurn(r, w, inputs, n - 1);
      FiredByBots(r, w, inputs, n - 1)
      + if Plays(p, inputs) && turn.players[n - 1].alive && p.cooldown <= 1 && BotFires(r, turn.drawn) then 1 else 0
  }

  /** What a standing bot draws: whether to turn, where to if so, and whether to fire if it can. */
  function Draws(r: Rules, w: State, inputs: Inputs, k: nat): nat
    requires k < |w.players|
  {
    var p, turn := w.players[k], BotTurn(r, w, inputs, k);
    if !Plays(p, inputs) || !turn.players[k].alive then 0
    else (if BotTurns(r, turn.drawn) then 2 else 1) + if p.cooldown <= 1 then 1 else 0
  }

  function DrawnBy(r: Rules, w: State, inputs: Inputs, n: nat): nat
    requires n <= |w.players|
  {
    if n == 0 then w.drawn else DrawnBy(r, w, inputs, n - 1) + Draws(r, w, inputs, n - 1)
  }

  lemma {:induction false} OnceEach(r: Rules, w: State, inputs: Inputs, n: nat)
    requires n <= |w.players|
    ensures ShotsFired(r, w, inputs, n) == FiredByInput(r, w, inputs, n) + FiredByBots(r, w, inputs, n)
  {
    hide Turn, BotTurn, BotFires;
    if n > 0 {
      OnceEach(r, w, inputs, n - 1);
    }
  }

  lemma InputDrawsNothing(r: Rules, w: State, i: nat, inputs: Inputs)
    requires i < |w.players|
    ensures InputAt(r, w, i, inputs).drawn == w.drawn
  {
    hide Fire, Steered;
    var p := w.players[i].(cooldown := CountDown(w.players[i].cooldown));
    if p.id in inputs {
      var inp := inputs[p.id];
      var q := Steered(r.speed, (if inp.inputSeq != 0 then p.(inputSeq := inp.inputSeq) else p).(aim := inp.aim), inp.mx, inp.my);
      FireTakesOneId(r, Set(w, i, q), i, inp.lagTicks);
    }
  }

  lemma BotDraws(r: Rules, w: State, i: nat, inputs: Inputs)
    requires i < |w.players|
    ensures var p, b := w.players[i], BotAt(r, w, i, inputs);
      b.drawn == w.drawn + if !Plays(p, inputs) || !p.alive then 0
                           else (if BotTurns(r, w.drawn) then 2 else 1) + if p.cooldown == 0 then 1 else 0
    ensures !Plays(w.players[i], inputs) ==> BotAt(r, w, i, inputs) == w
  {
    hide Fire, Along, CosDeg, SinDeg, Clamp;
    FireTakesOneId(r, BotMoved(r, w, i), i, 0);
  }

  lemma ClocksDrawNothing(r: Rules, w: State)
    requires Sound(r, w)
    ensures AfterTimers(r, w).drawn == w.drawn && AfterTimers(r, w).nextProj == w.nextProj && Apart(AfterTimers(r, w))
  {
    hide CountOf, Kills, TotalScore;
    TimersCharge(r, Begun(w), |w.players|);
    ClocksCharged(r, w);
  }

  /** A seat as its turn comes to be steered is as the clocks left it but for its life. */
  lemma SeatAtTurn(r: Rules, w: State, inputs: Inputs, i: nat)
    requires Sound(r, w) && i < |w.players|
    ensures var p, q := w.players[i], Turn(r, w, inputs, i).players[i];
      && q.id == p.id && q.cooldown == p.cooldown && q.inputSeq == p.inputSeq && q.bot == p.bot && q.left == p.left
      && q.x == p.x && q.y == p.y && q.aim == p.aim
    ensures Apart(Turn(r, w, inputs, i))
  {
    ClocksDrawNothing(r, w);
    FromTimers(r, w, i);
    var t := AfterTimers(r, w);
    hide InputAt, Carried, AfterTimers, Sound;
    WalkIsCarried(r, t, Steering(inputs), i, i);
    CarriedFacts(t, Turn(r, w, inputs, i), i);
    CarriedPlace(t, Turn(r, w, inputs, i), i);
  }

  lemma CarriedPlace(a: State, b: State, i: nat)
    requires Carried(a, b, i)
    ensures var p, q := a.players[i], b.players[i]; q.x == p.x && q.y == p.y && q.aim == p.aim
  {
    hide Life;
  }

  lemma {:induction false} TurnCounts(r: Rules, w: State, inputs: Inputs, i: nat)
    requires Sound(r, w) && i <= |w.players|
    ensures Turn(r, w, inputs, i).nextProj == w.nextProj + FiredByInput(r, w, inputs, i)
    ensures Turn(r, w, inputs, i).drawn == w.drawn
  {
    hide Acts, InputAt, Sound, AfterTimers, AsksToFire, HasNew;
    ClocksDrawNothing(r, w);
    if i > 0 {
      var k, t := i - 1, AfterTimers(r, w);
      TurnCounts(r, w, inputs, k);
      SeatAtTurn(r, w, inputs, k);
      var turn := Turn(r, w, inputs, k);
      OwnInput(r, turn, inputs, k);
      OneMoreSteered(r, t, inputs, k);
      InputDrawsNothing(r, turn, k, inputs);
      SameAsking(w.players[k], turn.players[k], inputs);
      ActsCounts(turn, InputAt(r, turn, k, inputs), k, turn.players[k].alive && AsksToFire(turn.players[k], inputs),
                 CountDown(turn.players[k].cooldown), AimOf(turn.players[k], inputs));
    }
  }

  function AimOf(p: Player, inputs: Inputs): int {
    if p.alive && HasNew(p, inputs) then inputs[p.id].aim else p.aim
  }

  lemma ActsCounts(a: State, b: State, i: nat, fires: bool, cooldown: nat, aim: int)
    requires Acts(a, b, i, fires, cooldown, aim)
    ensures b.nextProj == a.nextProj + if fires then 1 else 0
  {
    hide Life;
  }

  /** A bot as its turn comes has had a tick off its gun's clock and nothing else. */
  lemma BotAtTurn(r: Rules, w: State, inputs: Inputs, i: nat)
    requires Sound(r, w) && i < |w.players|
    ensures var p, q := w.players[i], BotTurn(r, w, inputs, i).players[i];
      && q.id == p.id && q.bot == p.bot && (Plays(p, inputs) ==> q.cooldown == CountDown(p.cooldown) && q.aim == p.aim)
    ensures Apart(BotTurn(r, w, inputs, i))
  {
    ClocksDrawNothing(r, w);
    FromTimers(r, w, i);
    var n, t := |w.players|, AfterTimers(r, w);
    hide InputAt, BotAt, Carried, AfterTimers, Sound, Life;
    SteeredSeat(r, t, inputs, i);
    var steered := Turn(r, w, inputs, n);
    WalkIsCarried(r, steered, Bots(inputs), i, i);
    CarriedFacts(steered, BotTurn(r, w, inputs, i), i);
    LifeIds(t, steered, i);
  }

  lemma {:induction false} BotTurnCounts(r: Rules, w: State, inputs: Inputs, i: nat)
    requires Sound(r, w) && i <= |w.players|
    ensures BotTurn(r, w, inputs, i).nextProj == w.nextProj + FiredByInput(r, w, inputs, |w.players|) + FiredByBots(r, w, inputs, i)
    ensures BotTurn(r, w, inputs, i).drawn == DrawnBy(r, w, inputs, i)
  {
    hide Acts, BotAt, Sound, AfterTimers, BotFires, BotTurns, Turn;
    if i == 0 {
      TurnCounts(r, w, inputs, |w.players|);
    } else {
      var k := i - 1;
      BotTurnCounts(r, w, inputs, k);
      BotAtTurn(r, w, inputs, k);
      var turn := BotTurn(r, w, inputs, k);
      OneMoreBot(r, Turn(r, w, inputs, |w.players|), inputs, k);
      BotDraws(r, turn, k, inputs);
      if Plays(w.players[k], inputs) {
        OwnBot(r, turn, inputs, k);
        var p := turn.players[k];
        ActsCounts(turn, BotAt(r, turn, k, inputs), k, p.alive && p.cooldown == 0 && BotFires(r, turn.drawn), p.cooldown,
                   if p.alive && BotTurns(r, turn.drawn) then r.draw(turn.drawn + 1) % 360 else p.aim);
      }
    }
  }

  /** A step gives out one id for every seat that fires, and draws exactly what its standing bots draw, in the order of their seats. */
  lemma OneIdForEachShot(r: Rules, w: State, inputs: Inputs, i: nat)
    requires Sound(r, w) && !w.ended && i < |w.players|
    ensures var n := |w.players|; Step(r, w, inputs).nextProj == w.nextProj + ShotsFired(r, w, inputs, n)
    ensures BotTurn(r, w, inputs, i).drawn == DrawnBy(r, w, inputs, i)
  {
    var n := |w.players|;
    OnceEach(r, w, inputs, n);
    BotTurnCounts(r, w, inputs, n);
    BotTurnCounts(r, w, inputs, i);
    DrivenIsFine(r, w, inputs);
    LandingIsLawful(r, Driven(r, w, inputs));
    JudgedSame(r, Return(r, Fly(r, Driven(r, w, inputs))));
    hide Sound, Lawful, Fly, Return, Traced, Shooting;
  }

  /** A bot that stands through a step has walked a stride the way it aims now, held in by the walls. */
  lemma BotWalksWhereItAims(r: Rules, w: State, inputs: Inputs, i: nat)
    requires Sound(r, w) && !w.ended && i < |w.players| && Plays(w.players[i], inputs) && w.players[i].alive
    requires i < |Step(r, w, inputs).players| && Step(r, w, inputs).players[i].alive
    ensures var p, q := w.players[i], Step(r, w, inputs).players[i];
      && q.x == Clamp(p.x + Along(r.speed, CosDeg(q.aim)), PLAYER_RADIUS, MAP - PLAYER_RADIUS)
      && q.y == Clamp(p.y + Along(r.speed, SinDeg(q.aim)), PLAYER_RADIUS, MAP - PLAYER_RADIUS)
  {
    hide Sound, Carried, Went, Turn, BotTurn, AfterTimers, Driven, Step, Along, CosDeg, SinDeg, Clamp, BotAt, SpawnX, SpawnY, Fly;
    StoodAtItsTurn(r, w, inputs, i);
    BotAtTurn(r, w, inputs, i);
    BotStoodStill(r, w, inputs, i);
    var turn := BotTurn(r, w, inputs, i);
    OwnBotWalks(r, turn, inputs, i);
    AfterBotsTurn(r, w, inputs, i);
  }

  /** Where a bot's own turn leaves it is where it is after the step, if it still stands. */
  lemma AfterBotsTurn(r: Rules, w: State, inputs: Inputs, i: nat)
    requires Sound(r, w) && !w.ended && i < |w.players| && w.players[i].alive
    requires i < |Step(r, w, inputs).players| && Step(r, w, inputs).players[i].alive
    requires Apart(BotTurn(r, w, inputs, i)) && Apart(BotAt(r, BotTurn(r, w, inputs, i), i, inputs))
    ensures var own, q := BotAt(r, BotTurn(r, w, inputs, i), i, inputs), Step(r, w, inputs).players[i];
      q.x == own.players[i].x && q.y == own.players[i].y && q.aim == own.players[i].aim
  {
    var n := |w.players|;
    var driven := BotTurn(r, w, inputs, n);
    var own := BotAt(r, BotTurn(r, w, inputs, i), i, inputs);
    OneMoreBot(r, Turn(r, w, inputs, n), inputs, i);
    BotTurnCounts(r, w, inputs, n);
    TurnsStayApart(r, w, inputs);
    hide Sound, Carried, Went, AfterTimers, Turn, BotAt, SpawnX, SpawnY, Fly, Passes;
    LaterIsCarried(r, Turn(r, w, inputs, n), Bots(inputs), n, i);
    CarriedPlace(own, driven, i);
    CarriedFacts(own, driven, i);
    FlownSeat(r, driven, i);
    CarriedPlace(driven, Fly(r, driven), i);
    CarriedFacts(driven, Fly(r, driven), i);
    DrivenIsFine(r, w, inputs);
    ReturnedSeat(r, Fly(r, driven), i);
    StandsWhereItFlew(r, w, inputs, i);
  }

  lemma TurnsStayApart(r: Rules, w: State, inputs: Inputs)
    requires Sound(r, w) && w.players != []
    ensures Apart(Turn(r, w, inputs, |w.players|))
  {
    ClocksDrawNothing(r, w);
    hide Sound, AfterTimers;
    SteeredSeat(r, AfterTimers(r, w), inputs, 0);
  }

  lemma StandsWhereItFlew(r: Rules, w: State, inputs: Inputs, i: nat)
    requires Sound(r, w) && !w.ended && i < |w.players| && w.players[i].alive
    requires i < |Step(r, w, inputs).players| && Step(r, w, inputs).players[i].alive
    ensures Fly(r, Driven(r, w, inputs)).players[i].alive
  {
    FromTimers(r, w, i);
    DrivenIsFine(r, w, inputs);
    SeatUntilReturn(r, w, inputs, i);
    var flown := Fly(r, Driven(r, w, inputs));
    ReturnedSeat(r, flown, i);
    StoodAtItsTurn(r, w, inputs, i);
    hide Sound, Went, AfterTimers, Driven, Fly, Fires, AimAfter;
    SeatThroughStep(r, w, inputs, i);
    GoingStaysDown(r, w, inputs, i);
    RevivedWasDown(r, AfterTimers(r, w), flown, Step(r, w, inputs), i, Fires(r, w, inputs, i),
                   CountDown(w.players[i].cooldown), AimAfter(r, w, inputs, i));
  }

  lemma GoingStaysDown(r: Rules, w: State, inputs: Inputs, i: nat)
    requires Sound(r, w) && !w.ended && i < |w.players| && w.players[i].alive
    requires i < |Step(r, w, inputs).players| && Step(r, w, inputs).players[i].alive
    ensures !Goes(w.players[i])
  {
    hide Sound, Step, Fires;
    SeatThroughStep(r, w, inputs, i);
  }

  lemma OwnBotWalks(r: Rules, w: State, inputs: Inputs, i: nat)
    requires Apart(w) && i < |w.players| && Plays(w.players[i], inputs) && w.players[i].alive
    ensures var p, b := w.players[i], BotAt(r, w, i, inputs);
      && Apart(b)
      && var q := b.players[i];
         && q.x == Clamp(p.x + Along(r.speed, CosDeg(q.aim)), PLAYER_RADIUS, MAP - PLAYER_RADIUS)
         && q.y == Clamp(p.y + Along(r.speed, SinDeg(q.aim)), PLAYER_RADIUS, MAP - PLAYER_RADIUS)
  {
    OwnBot(r, w, inputs, i);
    ActsFacts(w, BotAt(r, w, i, inputs), i, w.players[i].alive && w.players[i].cooldown == 0 && BotFires(r, w.drawn), w.players[i].cooldown,
              if w.players[i].alive && BotTurns(r, w.drawn) then r.draw(w.drawn + 1) % 360 else w.players[i].aim);
    FiredStaysPut(r, BotMoved(r, w, i), i, 0);
    hide Fire, Along, CosDeg, SinDeg, Clamp, Acts;
  }

  /** Nothing has moved a bot before its turn. */
  lemma BotStoodStill(r: Rules, w: State, inputs: Inputs, i: nat)
    requires Sound(r, w) && i < |w.players| && Plays(w.players[i], inputs)
    ensures var p, q := w.players[i], BotTurn(r, w, inputs, i).players[i]; q.x == p.x && q.y == p.y
  {
    SeatAtTurn(r, w, inputs, i);
    ClocksDrawNothing(r, w);
    var n, t := |w.players|, AfterTimers(r, w);
    var turn, steered := Turn(r, w, inputs, i), Turn(r, w, inputs, n);
    OneMoreSteered(r, t, inputs, i);
    OwnInput(r, turn, inputs, i);
    var own := InputAt(r, turn, i, inputs);
    NoInputNoMove(r, turn, i, inputs);
    LaterIsCarried(r, t, Steering(inputs), n, i);
    CarriedPlace(own, steered, i);
    CarriedFacts(own, steered, i);
    WalkIsCarried(r, steered, Bots(inputs), i, i);
    CarriedPlace(steered, BotTurn(r, w, inputs, i), i);
    hide Sound, Carried, Turn, AfterTimers, InputAt, BotTurn;
  }

  lemma NoInputNoMove(r: Rules, w: State, i: nat, inputs: Inputs)
    requires Apart(w) && i < |w.players| && w.players[i].id !in inputs
    ensures var p, b := w.players[i], InputAt(r, w, i, inputs); b.players[i].x == p.x && b.players[i].y == p.y && Apart(b)
  {
    hide Fire, Steered;
  }

  // ---- what stops a shot ----

  /** Where the shot is after `k` ticks with nothing in its way. */
  function Onward(s: Projectile, k: nat): Projectile {
    if k == 0 then s else Flown(Onward(s, k - 1))
  }

  /** On its next stride the shot meets somebody, nearest first, who is not immune. */
  predicate Meets(w: State, s: Projectile) {
    var struck := FirstStruck(w.players, |w.players|, Flown(s), s.x, s.y);
    struck.Some? && w.players[struck.value].protect == 0
  }

  /** Or it runs out, or leaves the map. */
  predicate EndsNext(w: State, s: Projectile) {
    var m := Flown(s);
    Meets(w, s) || m.ttl == 0 || !(0 <= m.x <= MAP && 0 <= m.y <= MAP)
  }

  /** Nothing ends the shot in its first `lag` ticks, the world standing still. */
  predicate Clear(w: State, s: Projectile, lag: nat) {
    forall k: nat :: k < lag ==> !EndsNext(w, Onward(s, k))
  }

  lemma {:induction false} OnwardShifts(s: Projectile, k: nat)
    ensures Onward(Flown(s), k) == Onward(s, k + 1)
  {
    if k > 0 {
      OnwardShifts(s, k - 1);
    }
  }

  lemma {:induction false} OnwardKeepsTheShot(s: Projectile, k: nat)
    ensures var m := Onward(s, k); m.id == s.id && m.owner == s.owner && m.vx == s.vx && m.vy == s.vy
    ensures Onward(s, k).x == s.x + s.vx * k && Onward(s, k).y == s.y + s.vy * k
    ensures Onward(s, k).ttl == if s.ttl > k then s.ttl - k else 0
  {
    if k > 0 {
      OnwardKeepsTheShot(s, k - 1);
      Stretch(s.vx, k - 1);
      Stretch(s.vy, k - 1);
    }
  }

  /** A stride that meets nobody it could hurt changes nothing. */
  lemma StrideThrough(w: State, s: Projectile)
    ensures Sweep(w, Flown(s), s.x, s.y).1 <==> Meets(w, s)
    ensures !Meets(w, s) ==> Sweep(w, Flown(s), s.x, s.y).0 == w
  {
    Choices.StopsUnlessProtected(w, Flown(s), s.x, s.y);
    hide Sweep, FirstStruck;
  }

  /** How many ticks of its catch-up a shot flies before one that ends it. */
  ghost predicate EndsAfter(w: State, s: Projectile, lag: nat, k: nat) {
    k < lag && EndsNext(w, Onward(s, k)) && forall j: nat :: j < k ==> !EndsNext(w, Onward(s, j))
  }

  /**
   Catching up is flying, not jumping: the shot joins the world `lag` strides on exactly when nothing ends it on the way;
   otherwise it ends on the first stride that meets somebody, and hurts whom it meets there, or that spends it.
   */
  lemma {:induction false} CatchUpIsSwept(w: State, s: Projectile, lag: nat)
    ensures var c := CatchUp(w, s, lag);
      && (Clear(w, s, lag) ==> c == w.(projectiles := w.projectiles + [Onward(s, lag)]))
      && (!Clear(w, s, lag) ==>
           exists k: nat :: EndsAfter(w, s, lag, k) && c == Sweep(w, Flown(Onward(s, k)), Onward(s, k).x, Onward(s, k).y).0
                            && c.projectiles == w.projectiles)
    decreases lag
  {
    hide Sweep, EndsNext, Onward;
    OnwardStarts(s);
    if lag > 0 {
      var moved := Flown(s);
      OneStride(w, s, lag);
      SweepLeavesShots(w, moved, s.x, s.y);
      if EndsNext(w, s) {
        assert EndsAfter(w, s, lag, 0);
      } else {
        CatchUpIsSwept(w, moved, lag - 1);
        ShiftedClear(w, s, lag);
        if !Clear(w, s, lag) {
          var k: nat :| EndsAfter(w, moved, lag - 1, k)
            && CatchUp(w, moved, lag - 1) == Sweep(w, Flown(Onward(moved, k)), Onward(moved, k).x, Onward(moved, k).y).0
            && CatchUp(w, moved, lag - 1).projectiles == w.projectiles;
          ShiftedEnd(w, s, lag, k);
        }
      }
    }
  }

  lemma OnwardStarts(s: Projectile)
    ensures Onward(s, 0) == s
  {
  }

  lemma OneStride(w: State, s: Projectile, lag: nat)
    requires lag > 0
    ensures CatchUp(w, s, lag) == if EndsNext(w, s) then Sweep(w, Flown(s), s.x, s.y).0 else CatchUp(w, Flown(s), lag - 1)
  {
    StrideThrough(w, s);
    hide Sweep, Meets;
  }

  lemma ShiftedClear(w: State, s: Projectile, lag: nat)
    requires lag > 0 && !EndsNext(w, s)
    ensures Clear(w, s, lag) <==> Clear(w, Flown(s), lag - 1)
    ensures Onward(Flown(s), lag - 1) == Onward(s, lag)
  {
    hide EndsNext, Onward;
    OnwardShifts(s, lag - 1);
    OnwardStarts(s);
    if Clear(w, s, lag) {
      forall k: nat | k < lag - 1
        ensures !EndsNext(w, Onward(Flown(s), k))
      {
        OnwardShifts(s, k);
      }
    }
    if Clear(w, Flown(s), lag - 1) {
      forall k: nat | k < lag
        ensures !EndsNext(w, Onward(s, k))
      {
        if k > 0 {
          OnwardShifts(s, k - 1);
        }
      }
    }
  }

  lemma ShiftedEnd(w: State, s: Projectile, lag: nat, k: nat)
    requires lag > 0 && !EndsNext(w, s) && EndsAfter(w, Flown(s), lag - 1, k)
    ensures EndsAfter(w, s, lag, k + 1) && Onward(Flown(s), k) == Onward(s, k + 1)
  {
    hide EndsNext, Onward;
    OnwardShifts(s, k);
    OnwardStarts(s);
    forall j: nat | j < k + 1
      ensures !EndsNext(w, Onward(s, j))
    {
      if j > 0 {
        OnwardShifts(s, j - 1);
      }
    }
  }

  // ---- a shot fired ----

  /** The lag a shot is caught up by. */
  function Behind(lag: nat): nat {
    if lag > 10 then 10 else lag
  }

  /**
   The shot of a seat that fires: it leaves that seat's muzzle where the seat has moved to, with the next id and its whole
   life before it, and is in the air after the seat's turn exactly when its catch-up is clear.
   */
  ghost predicate PutsInTheAir(r: Rules, a: State, b: State, i: nat, bold: State, lag: nat)
    requires i < |a.players| && i < |bold.players| && i < |b.players|
  {
    var shot := Muzzled(r, bold, bold.players[i]);
    && bold.players == a.players[i := bold.players[i]] && bold.players[i].protect == 0 && bold.players[i].id == a.players[i].id
    && bold.players[i].x == b.players[i].x && bold.players[i].y == b.players[i].y && bold.players[i].aim == b.players[i].aim
    && shot.id == a.nextProj && shot.owner == a.players[i].id && shot.ttl == 30
    && b.projectiles == a.projectiles + if Clear(bold, shot, lag) then [Onward(shot, lag)] else []
  }

  lemma ShotFromSeat(r: Rules, a: State, moved: State, i: nat, lag: nat)
    requires i < |a.players| && |moved.players| == |a.players| && moved.players == a.players[i := moved.players[i]]
    requires moved.players[i].id == a.players[i].id && moved.projectiles == a.projectiles && moved.nextProj == a.nextProj
    ensures PutsInTheAir(r, a, Fire(r, moved, i, lag), i, Set(moved, i, moved.players[i].(protect := 0)), Behind(lag))
  {
    hide Muzzled, Clear, Onward, CatchUp, Fire;
    var bold := Set(moved, i, moved.players[i].(protect := 0));
    var shot := Muzzled(r, bold, bold.players[i]);
    MuzzleShape(r, bold, bold.players[i]);
    FireIsLaunch(r, moved, i, lag);
    FiredStaysPut(r, moved, i, lag);
    AirAfterCatchUp(bold, shot, Behind(lag));
  }

  lemma FireIsLaunch(r: Rules, w: State, i: nat, lag: nat)
    requires i < |w.players|
    ensures var bold := Set(w, i, w.players[i].(protect := 0));
      Fire(r, w, i, lag).projectiles
      == CatchUp(bold.(nextProj := bold.nextProj + 1), Muzzled(r, bold, bold.players[i]), Behind(lag)).projectiles
  {
    hide Muzzled, CatchUp;
  }

  lemma AirAfterCatchUp(bold: State, shot: Projectile, lag: nat)
    ensures CatchUp(bold.(nextProj := bold.nextProj + 1), shot, lag).projectiles
         == bold.projectiles + if Clear(bold, shot, lag) then [Onward(shot, lag)] else []
  {
    hide Clear, Onward, CatchUp, Sweep;
    var counted := bold.(nextProj := bold.nextProj + 1);
    CatchUpIsSwept(counted, shot, lag);
    SameClear(counted, bold, shot, lag);
    assert bold.projectiles + [] == bold.projectiles;
  }

  lemma MuzzleShape(r: Rules, w: State, p: Player)
    ensures var s := Muzzled(r, w, p); s.id == w.nextProj && s.owner == p.id && s.ttl == 30
  {
    hide Trunc, Along, CosDeg, SinDeg;
  }

  lemma SameClear(a: State, b: State, s: Projectile, lag: nat)
    requires a.players == b.players
    ensures Clear(a, s, lag) <==> Clear(b, s, lag)
  {
    hide Onward, FirstStruck;
  }

  lemma FiredStaysPut(r: Rules, w: State, i: nat, lag: nat)
    requires i < |w.players|
    ensures var p, q := w.players[i], Fire(r, w, i, lag).players[i]; q.x == p.x && q.y == p.y && q.aim == p.aim
  {
    Stance.FireStaysPut(r, w, i, lag, i);
    hide Fire;
  }

  ghost predicate HasFired(r: Rules, a: State, b: State, i: nat, lag: nat)
    requires i < |a.players| == |b.players|
  {
    exists bold: State :: |bold.players| == |a.players| && PutsInTheAir(r, a, b, i, bold, lag)
  }

  /** Firing in a step, as a player: the shot, caught up by the lag of the input, or spent on the way. */
  lemma PlayerShoots(r: Rules, w: State, inputs: Inputs, i: nat)
    requires Sound(r, w) && i < |w.players| && Turn(r, w, inputs, i).players[i].alive && AsksToFire(w.players[i], inputs)
    ensures HasFired(r, Turn(r, w, inputs, i), Turn(r, w, inputs, i + 1), i, Behind(inputs[w.players[i].id].lagTicks))
  {
    SeatAtTurn(r, w, inputs, i);
    OneMoreSteered(r, AfterTimers(r, w), inputs, i);
    var a := Turn(r, w, inputs, i);
    hide Sound, Fire, Steered, PutsInTheAir, Turn, AfterTimers;
    var p := a.players[i].(cooldown := CountDown(a.players[i].cooldown));
    var inp := inputs[p.id];
    var q := Steered(r.speed, (if inp.inputSeq != 0 then p.(inputSeq := inp.inputSeq) else p).(aim := inp.aim), inp.mx, inp.my);
    ShotFromSeat(r, a, Set(a, i, q), i, inp.lagTicks);
    assert InputAt(r, a, i, inputs) == Fire(r, Set(a, i, q), i, inp.lagTicks);
  }

  /** And as a bot: never behind, so the shot is always in the air. */
  lemma BotShootsOne(r: Rules, w: State, inputs: Inputs, i: nat)
    requires Sound(r, w) && i < |w.players| && Plays(w.players[i], inputs)
    requires var turn := BotTurn(r, w, inputs, i); turn.players[i].alive && w.players[i].cooldown <= 1 && BotFires(r, turn.drawn)
    ensures HasFired(r, BotTurn(r, w, inputs, i), BotTurn(r, w, inputs, i + 1), i, 0)
    ensures |BotTurn(r, w, inputs, i + 1).projectiles| == |BotTurn(r, w, inputs, i).projectiles| + 1
  {
    BotAtTurn(r, w, inputs, i);
    OneMoreBot(r, Turn(r, w, inputs, |w.players|), inputs, i);
    var a := BotTurn(r, w, inputs, i);
    var b := BotTurn(r, w, inputs, i + 1);
    hide Sound, Turn, AfterTimers, BotTurn;
    BotFiring(r, a, inputs, i);
    hide Fire, PutsInTheAir, BotMoved;
    ShotFromSeat(r, a, BotMoved(r, a, i), i, 0);
    var bold := Set(BotMoved(r, a, i), i, BotMoved(r, a, i).players[i].(protect := 0));
    NoLagIsClear(r, a, b, i, bold);
  }

  lemma NoLagIsClear(r: Rules, a: State, b: State, i: nat, bold: State)
    requires i < |a.players| == |b.players| == |bold.players| && PutsInTheAir(r, a, b, i, bold, 0)
    ensures |b.projectiles| == |a.projectiles| + 1
  {
    hide Muzzled;
  }

  lemma BotFiring(r: Rules, a: State, inputs: Inputs, i: nat)
    requires i < |a.players| && Plays(a.players[i], inputs) && a.players[i].alive && a.players[i].cooldown == 0 && BotFires(r, a.drawn)
    ensures BotAt(r, a, i, inputs) == Fire(r, BotMoved(r, a, i), i, 0)
    ensures var m := BotMoved(r, a, i);
      && m.players == a.players[i := m.players[i]] && m.players[i].id == a.players[i].id
      && m.projectiles == a.projectiles && m.nextProj == a.nextProj
  {
    hide Fire, Along, CosDeg, SinDeg, Clamp;
  }

  lemma FireAppends(r: Rules, w: State, i: nat, lag: nat)
    requires i < |w.players|
    ensures w.projectiles <= Fire(r, w, i, lag).projectiles
  {
    hide Muzzled, CatchUp, Fire, Clear, Onward;
    FireIsLaunch(r, w, i, lag);
    var bold := Set(w, i, w.players[i].(protect := 0));
    AirAfterCatchUp(bold, Muzzled(r, bold, bold.players[i]), Behind(lag));
  }

  lemma VisitAppends(r: Rules, w: State, pass: Pass, i: nat)
    requires (pass.Steering? || pass.Bots?) && i < |w.players|
    ensures w.projectiles <= Visit(r, w, pass, i).projectiles
  {
    hide Fire, Steered, Along, CosDeg, SinDeg, Clamp;
    match pass {
      case Steering(inputs) =>
        var p := w.players[i].(cooldown := CountDown(w.players[i].cooldown));
        if p.id in inputs {
          var inp := inputs[p.id];
          var q := Steered(r.speed, (if inp.inputSeq != 0 then p.(inputSeq := inp.inputSeq) else p).(aim := inp.aim), inp.mx, inp.my);
          FireAppends(r, Set(w, i, q), i, inp.lagTicks);
        }
      case Bots(inputs) =>
        FireAppends(r, BotMoved(r, w, i), i, 0);
    }
  }

  lemma {:induction false} WalkAppends(r: Rules, w: State, pass: Pass, m: nat, n: nat)
    requires (pass.Steering? || pass.Bots?) && m <= n <= |w.players|
    ensures Walk(r, w, pass, m).projectiles <= Walk(r, w, pass, n).projectiles
    decreases n - m
  {
    hide Visit;
    if m < n {
      WalkAppends(r, w, pass, m, n - 1);
      VisitAppends(r, Walk(r, w, pass, n - 1), pass, n - 1);
    }
  }

  /** A shot put in the air on anybody's turn is there when the shots come to fly. */
  lemma ShotsWaitToFly(r: Rules, w: State, inputs: Inputs, i: nat)
    requires i <= |w.players|
    ensures Turn(r, w, inputs, i).projectiles <= Driven(r, w, inputs).projectiles
    ensures BotTurn(r, w, inputs, i).projectiles <= Driven(r, w, inputs).projectiles
  {
    var n := |w.players|;
    WalkAppends(r, AfterTimers(r, w), Steering(inputs), i, n);
    WalkAppends(r, Turn(r, w, inputs, n), Bots(inputs), i, n);
    WalkAppends(r, Turn(r, w, inputs, n), Bots(inputs), 0, n);
    hide AfterTimers;
  }

  // ---- in flight ----

  /** The world as the turn of the `k`th shot in flight comes. */
  function FlightTurn(r: Rules, driven: State, k: nat): State
    requires k <= |driven.projectiles|
  {
    Walk(r, driven.(projectiles := []), Flying(driven.projectiles), k)
  }

  /** The shots that fly on, each a stride further. */
  function FlyOn(r: Rules, driven: State, n: nat): seq<Projectile>
    requires n <= |driven.projectiles|
  {
    if n == 0 then []
    else
      var s := driven.projectiles[n - 1];
      FlyOn(r, driven, n - 1) + if EndsNext(FlightTurn(r, driven, n - 1), s) then [] else [Flown(s)]
  }

  lemma ShotsTurn(w: State, s: Projectile)
    ensures var b := ShotAt(w, s);
      b.projectiles == w.projectiles + if EndsNext(w, s) then [] else [Flown(s)]
  {
    StrideThrough(w, s);
    SweepLeavesShots(w, Flown(s), s.x, s.y);
    hide Sweep, Meets;
  }

  lemma {:induction false} FlightsTurn(r: Rules, driven: State, n: nat)
    requires n <= |driven.projectiles|
    ensures FlightTurn(r, driven, n).projectiles == FlyOn(r, driven, n)
  {
    hide ShotAt, EndsNext;
    if n > 0 {
      FlightsTurn(r, driven, n - 1);
      ShotsTurn(FlightTurn(r, driven, n - 1), driven.projectiles[n - 1]);
    }
  }

  /** Exactly the shots that nothing ended are in the air after a step, in the order they were fired, each one stride on. */
  lemma ShotsFlyOn(r: Rules, w: State, inputs: Inputs)
    requires Sound(r, w) && !w.ended
    ensures var driven := Driven(r, w, inputs);
      Step(r, w, inputs).projectiles == FlyOn(r, driven, |driven.projectiles|)
    ensures w.projectiles <= Driven(r, w, inputs).projectiles
  {
    DrivenIsFine(r, w, inputs);
    ClocksCharged(r, w);
    var driven := Driven(r, w, inputs);
    FlightsTurn(r, driven, |driven.projectiles|);
    var flown := Fly(r, driven);
    ReturningLeavesShots(r, flown.(claimed := Unclaimed(|flown.players|)), |flown.players|);
    JudgedSame(r, Return(r, flown));
    hide Sound, FlyOn, Lawful, Traced, EndsNext, AfterTimers, Driven;
  }

  lemma {:induction false} WhoFliesOn(r: Rules, driven: State, n: nat, k: nat)
    requires k < n <= |driven.projectiles|
    requires forall i, j :: 0 <= i < j < |driven.projectiles| ==> driven.projectiles[i].id < driven.projectiles[j].id
    ensures var on, s := FlyOn(r, driven, n), driven.projectiles[k];
      && (EndsNext(FlightTurn(r, driven, k), s) ==> forall j :: 0 <= j < |on| ==> on[j].id != s.id)
      && (!EndsNext(FlightTurn(r, driven, k), s) ==> Flown(s) in on)
    ensures forall j :: 0 <= j < |FlyOn(r, driven, n)| ==> FlyOn(r, driven, n)[j].id <= driven.projectiles[n - 1].id
  {
    hide EndsNext, FlightTurn;
    if n == 1 {
      assert FlyOn(r, driven, 0) == [];
    } else {
      if k < n - 1 {
        WhoFliesOn(r, driven, n - 1, k);
      } else {
        WhoFliesOn(r, driven, n - 1, n - 2);
      }
    }
  }

  /**
   The fate of one shot in a step, those of the step included: it is there afterwards, one stride on, exactly when that
   stride met nobody it could hurt and did not spend it.
   */
  lemma ShotLastsExactly(r: Rules, w: State, inputs: Inputs, k: nat)
    requires Sound(r, w) && !w.ended && k < |Driven(r, w, inputs).projectiles|
    ensures var driven, b := Driven(r, w, inputs), Step(r, w, inputs);
      var s := driven.projectiles[k];
      && (EndsNext(FlightTurn(r, driven, k), s) <==> forall j :: 0 <= j < |b.projectiles| ==> b.projectiles[j].id != s.id)
      && (!EndsNext(FlightTurn(r, driven, k), s) <==> Flown(s) in b.projectiles)
  {
    ShotsFlyOn(r, w, inputs);
    DrivenIsFine(r, w, inputs);
    var driven, b := Driven(r, w, inputs), Step(r, w, inputs);
    var s := driven.projectiles[k];
    hide Driven, Step, EndsNext, FlightTurn, FlyOn, Lawful, Shooting, Traced, FineSeats, FineShot;
    WhoFliesOn(r, driven, |driven.projectiles|, k);
    assert Flown(s).id == s.id;
  }
}
