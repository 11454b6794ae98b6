/**
 What no pass touches, whatever the world: the clock, whether the match runs, who is gone and for how long, and
 that the feed of a tick is about that tick.
 */
module Constancy {
  import opened Wrappers
  import opened FixedPoint
  import opened SimTypes
  import opened Arena
  import opened Steps

  predicate EventsNow(w: State) {
    forall i :: 0 <= i < |w.events| ==> w.events[i].tick == w.tick
  }

  ghost predicate Running(a: State, b: State) {
    && b.tick == a.tick && b.ended == a.ended && |b.players| == |a.players| && (EventsNow(a) ==> EventsNow(b))
    && forall i :: 0 <= i < |a.players| ==> b.players[i].id == a.players[i].id && b.players[i].left == a.players[i].left
  }

  ghost predicate Quiet(a: State, b: State) {
    Running(a, b) && forall i :: 0 <= i < |a.players| ==> b.players[i].linger == a.players[i].linger
  }

  lemma QuietChain(a: State, b: State, c: State)
    requires Quiet(a, b) && Quiet(b, c)
    ensures Quiet(a, c)
  {
  }

  lemma SeatIsQuiet(w: State, i: nat, p: Player)
    requires i < |w.players| && p.id == w.players[i].id && p.left == w.players[i].left && p.linger == w.players[i].linger
    ensures Quiet(w, Set(w, i, p))
  {
  }

  lemma DamageIsQuiet(w: State, j: nat, owner: nat)
    requires j < |w.players|
    ensures Quiet(w, Damage(w, j, owner).0)
  {
    hide IndexOf;
  }

  lemma SweepIsQuiet(w: State, shot: Projectile, fx: int, fy: int)
    ensures Quiet(w, Sweep(w, shot, fx, fy).0)
  {
    hide FirstStruck, Damage, Quiet;
    var s := FirstStruck(w.players, |w.players|, shot, fx, fy);
    if s.Some? {
      DamageIsQuiet(w, s.value, shot.owner);
    } else {
      SelfIsQuiet(w, w);
    }
  }

  lemma SelfIsQuiet(a: State, b: State)
    requires b.tick == a.tick && b.ended == a.ended && b.players == a.players && b.events == a.events
    ensures Quiet(a, b)
  {
  }

  lemma {:induction false} CatchUpIsQuiet(w: State, shot: Projectile, lag: nat)
    ensures Quiet(w, CatchUp(w, shot, lag))
    decreases lag
  {
    hide Sweep, Spent, Quiet;
    if lag > 0 {
      var moved := Flown(shot);
      SweepIsQuiet(w, moved, shot.x, shot.y);
      var (struck, hit) := Sweep(w, moved, shot.x, shot.y);
      if !(hit || Spent(moved)) {
        CatchUpIsQuiet(struck, moved, lag - 1);
        QuietChain(w, struck, CatchUp(w, shot, lag));
      }
    } else {
      SelfIsQuiet(w, CatchUp(w, shot, lag));
    }
  }

  lemma FireIsQuiet(r: Rules, w: State, i: nat, lag: nat)
    requires i < |w.players|
    ensures Quiet(w, Fire(r, w, i, lag))
  {
    hide CatchUp, Muzzled, Quiet;
    var p := w.players[i].(protect := 0);
    var bold := Set(w, i, p);
    var counted := bold.(nextProj := bold.nextProj + 1);
    SeatIsQuiet(w, i, p);
    SelfIsQuiet(bold, counted);
    CatchUpIsQuiet(counted, Muzzled(r, bold, p), if lag > MAX_LAG_TICKS then MAX_LAG_TICKS else lag);
    var fired := Launch(r, bold, p, lag);
    SeatIsQuiet(fired, i, fired.players[i].(cooldown := FIRE_COOLDOWN));
    QuietChain(w, bold, counted);
    QuietChain(w, counted, fired);
    QuietChain(w, fired, Fire(r, w, i, lag));
  }

  lemma InputIsQuiet(r: Rules, w: State, i: nat, inputs: Inputs)
    requires i < |w.players|
    ensures Quiet(w, InputAt(r, w, i, inputs))
  {
    hide Fire, Steered, Quiet;
    var p := w.players[i].(cooldown := CountDown(w.players[i].cooldown));
    SeatIsQuiet(w, i, p);
    if p.id in inputs {
      var inp := inputs[p.id];
      var q := Steered(r.speed, (if inp.inputSeq != 0 then p.(inputSeq := inp.inputSeq) else p).(aim := inp.aim), inp.mx, inp.my);
      SeatIsQuiet(w, i, q);
      FireIsQuiet(r, Set(w, i, q), i, inp.lagTicks);
      QuietChain(w, Set(w, i, q), Fire(r, Set(w, i, q), i, inp.lagTicks));
    }
  }

  lemma BotIsQuiet(r: Rules, w: State, i: nat, inputs: Inputs)
    requires i < |w.players|
    ensures Quiet(w, BotAt(r, w, i, inputs))
  {
    var moved := BotMoved(r, w, i);
    BotMovesQuietly(r, w, i);
    FireIsQuiet(r, moved, i, 0);
    QuietChain(w, moved, Fire(r, moved, i, 0));
    BotIsOneOfThree(r, w, i, inputs);
    hide BotAt, BotMoved, Fire;
  }

  lemma BotMovesQuietly(r: Rules, w: State, i: nat)
    requires i < |w.players|
    ensures Quiet(w, BotMoved(r, w, i))
  {
    hide Along, CosDeg, SinDeg, Clamp;
  }

  lemma BotIsOneOfThree(r: Rules, w: State, i: nat, inputs: Inputs)
    requires i < |w.players|
    ensures var b, moved := BotAt(r, w, i, inputs), BotMoved(r, w, i);
      b == w || b == moved.(drawn := b.drawn) || b == Fire(r, moved, i, 0)
  {
    hide Fire, Along, CosDeg, SinDeg, Clamp;
  }

  lemma ShotIsQuiet(w: State, shot: Projectile)
    ensures Quiet(w, ShotAt(w, shot))
  {
    SweepIsQuiet(w, Flown(shot), shot.x, shot.y);
    hide Sweep, Spent;
  }

  lemma ReturnIsQuiet(w: State, i: nat)
    requires i < |w.players| == |w.claimed|
    ensures Quiet(w, ReturnAt(w, i))
  {
    hide SafestSlot, SpawnX, SpawnY;
  }

  lemma {:induction false} WalkIsQuiet(r: Rules, w: State, pass: Pass, n: nat)
    requires Fits(w, pass, n) && !pass.Timers?
    ensures Quiet(w, Walk(r, w, pass, n))
  {
    hide Quiet, InputAt, BotAt, ShotAt, ReturnAt;
    if n == 0 {
      SelfIsQuiet(w, w);
    } else {
      WalkIsQuiet(r, w, pass, n - 1);
      var a := Walk(r, w, pass, n - 1);
      match pass {
        case Steering(inputs) => InputIsQuiet(r, a, n - 1, inputs);
        case Bots(inputs) => BotIsQuiet(r, a, n - 1, inputs);
        case Flying(shots) => ShotIsQuiet(a, shots[n - 1]);
        case Returning => ReturnIsQuiet(a, n - 1);
        case Timers =>
      }
      QuietChain(w, a, Walk(r, w, pass, n));
    }
  }

  /** The timers count down and announce, and leave the rest of it alone too. */
  lemma {:induction false} TimersKeepRunning(r: Rules, w: State, n: nat)
    requires n <= |w.players|
    ensures var t := Walk(r, w, Timers, n);
      && Running(w, t)
      && forall i :: 0 <= i < |w.players| ==>
           t.players[i].linger == if i < n && w.players[i].left then CountDown(w.players[i].linger) else w.players[i].linger
  {
    if n > 0 {
      TimersKeepRunning(r, w, n - 1);
    }
  }

  /** The passes of a step: one tick on, the feed about that tick, every linger charged once. */
  lemma PassesAreQuiet(r: Rules, w: State, inputs: Inputs)
    ensures var b := Passes(r, Begun(w), inputs);
      && b.ended == w.ended && b.tick == w.tick + 1 && |b.players| == |w.players| && EventsNow(b)
      && forall i :: 0 <= i < |w.players| ==>
        && b.players[i].id == w.players[i].id && b.players[i].left == w.players[i].left
        && b.players[i].linger == if w.players[i].left then CountDown(w.players[i].linger) else w.players[i].linger
  {
    hide Visit, Walk;
    var n := |w.players|;
    TimersKeepRunning(r, Begun(w), n);
    var t := Walk(r, Begun(w), Timers, n);
    WalkIsQuiet(r, t, Steering(inputs), n);
    var s := Walk(r, t, Steering(inputs), n);
    WalkIsQuiet(r, s, Bots(inputs), n);
    var d := Walk(r, s, Bots(inputs), n);
    var empty := d.(projectiles := []);
    SelfIsQuiet(d, empty);
    WalkIsQuiet(r, empty, Flying(d.projectiles), |d.projectiles|);
    var f := Fly(r, d);
    var ready := f.(claimed := Unclaimed(n));
    SelfIsQuiet(f, ready);
    WalkIsQuiet(r, ready, Returning, n);
    assert Running(t, Return(r, f)) && Quiet(t, Return(r, f)) by {
      QuietChain(t, s, d);
      QuietChain(t, d, empty);
      QuietChain(t, empty, f);
      QuietChain(t, f, ready);
      if n > 0 {
        QuietChain(t, ready, Return(r, f));
      }
    }
  }

  /** What a step leaves of a linger: a seat that is gone has been charged at least once. */
  ghost predicate Lingers(w: State, limit: nat) {
    forall i :: 0 <= i < |w.players| ==> if w.players[i].left then w.players[i].linger <= limit else w.players[i].linger == 0
  }

  lemma StepChargesLingers(r: Rules, w: State, inputs: Inputs)
    requires Lingers(w, LINGER_TICKS) && !w.ended
    ensures Lingers(Step(r, w, inputs), LINGER_TICKS - 1)
  {
    PassesAreQuiet(r, w, inputs);
    JudgedSame(r, Passes(r, Begun(w), inputs));
    hide Passes;
  }

  /** And the feed it leaves is about its tick. */
  lemma StepTellsItsTick(r: Rules, w: State, inputs: Inputs)
    requires EventsNow(w)
    ensures EventsNow(Step(r, w, inputs))
  {
    PassesAreQuiet(r, w, inputs);
    JudgedSame(r, Passes(r, Begun(w), inputs));
    hide Passes;
  }
}
