/** What the visits of a step leave alone, seat by seat. */
module Stance {
  import opened Wrappers
  import opened FixedPoint
  import opened SimTypes
  import opened Arena
  import opened Laws
  import opened Steps

  /** What the rest of a step may do to a seat: it stands and aims as it did, and does not get up again if it falls. */
  ghost predicate StaysPut(a: State, b: State, i: nat) {
    && |a.players| == |b.players| && i < |a.players|
    && var p, q := a.players[i], b.players[i];
       && q.id == p.id && q.bot == p.bot && q.left == p.left && q.x == p.x && q.y == p.y && q.aim == p.aim
       && q.inputSeq == p.inputSeq
       && (q.alive ==> p.alive) && (p.alive && !q.alive ==> q.respawn > 0) && (!p.alive ==> q.respawn == p.respawn)
  }

  /** And keeps whatever immunity it has. */
  ghost predicate Undisturbed(a: State, b: State, i: nat) {
    StaysPut(a, b, i) && b.players[i].protect == a.players[i].protect
  }

  lemma DamageStaysPut(w: State, j: nat, owner: nat, i: nat)
    requires j < |w.players| && i < |w.players| && w.players[j].alive
    ensures Undisturbed(w, Damage(w, j, owner).0, i)
  {
    hide IndexOf;
  }

  lemma SweepStaysPut(w: State, shot: Projectile, fx: int, fy: int, i: nat)
    requires i < |w.players|
    ensures Undisturbed(w, Sweep(w, shot, fx, fy).0, i)
  {
    StruckIsAlive(w.players, |w.players|, shot, fx, fy);
    hide FirstStruck, Damage;
    var s := FirstStruck(w.players, |w.players|, shot, fx, fy);
    if s.Some? {
      DamageStaysPut(w, s.value, shot.owner, i);
    }
  }

  lemma {:induction false} CatchUpStaysPut(w: State, shot: Projectile, lag: nat, i: nat)
    requires i < |w.players|
    ensures Undisturbed(w, CatchUp(w, shot, lag), i)
    decreases lag
  {
    hide Sweep, Spent;
    if lag > 0 {
      var moved := Flown(shot);
      SweepStaysPut(w, moved, shot.x, shot.y, i);
      CatchUpStaysPut(Sweep(w, moved, shot.x, shot.y).0, moved, lag - 1, i);
    }
  }

  lemma FireStaysPut(r: Rules, w: State, k: nat, lag: nat, i: nat)
    requires k < |w.players| && i < |w.players|
    ensures StaysPut(w, Fire(r, w, k, lag), i)
  {
    hide CatchUp, Muzzled;
    var bold := Set(w, k, w.players[k].(protect := 0));
    CatchUpStaysPut(bold.(nextProj := bold.nextProj + 1), Muzzled(r, bold, bold.players[k]),
                    if lag > MAX_LAG_TICKS then MAX_LAG_TICKS else lag, i);
  }

  /** Shooting ends the shooter's own immunity, whatever the shot runs into on the way. */
  lemma ShooterIsExposed(r: Rules, w: State, i: nat, lag: nat)
    requires i < |w.players|
    ensures Fire(r, w, i, lag).players[i].protect == 0 && Fire(r, w, i, lag).players[i].cooldown == FIRE_COOLDOWN
  {
    hide CatchUp, Muzzled;
    var bold := Set(w, i, w.players[i].(protect := 0));
    CatchUpStaysPut(bold.(nextProj := bold.nextProj + 1), Muzzled(r, bold, bold.players[i]),
                    if lag > MAX_LAG_TICKS then MAX_LAG_TICKS else lag, i);
  }

  lemma OthersInputStaysPut(r: Rules, w: State, k: nat, inputs: Inputs, i: nat)
    requires k < |w.players| && i < |w.players| && k != i
    ensures StaysPut(w, InputAt(r, w, k, inputs), i)
  {
    hide Fire, Steered;
    var p := w.players[k].(cooldown := CountDown(w.players[k].cooldown));
    if p.id in inputs {
      var inp := inputs[p.id];
      var q := Steered(r.speed, (if inp.inputSeq != 0 then p.(inputSeq := inp.inputSeq) else p).(aim := inp.aim), inp.mx, inp.my);
      FireStaysPut(r, Set(w, k, q), k, inp.lagTicks, i);
    }
  }

  lemma BotStaysPut(r: Rules, w: State, k: nat, inputs: Inputs, i: nat)
    requires k < |w.players| && i < |w.players| && (k != i || !w.players[i].bot || w.players[i].id in inputs)
    ensures StaysPut(w, BotAt(r, w, k, inputs), i)
  {
    hide Fire, Along, CosDeg, SinDeg, Clamp;
    FireStaysPut(r, BotMoved(r, w, k), k, 0, i);
  }

  lemma ShotStaysPut(w: State, shot: Projectile, i: nat)
    requires i < |w.players|
    ensures StaysPut(w, ShotAt(w, shot), i)
  {
    hide Sweep, Spent;
    SweepStaysPut(w, Flown(shot), shot.x, shot.y, i);
  }

  lemma {:induction false} WalkStaysPut(r: Rules, w: State, pass: Pass, n: nat, i: nat)
    requires Fits(w, pass, n) && i < |w.players|
    requires match pass
      case Steering(_) => n <= i
      case Bots(inputs) => !w.players[i].bot || w.players[i].id in inputs
      case Flying(_) => true
      case _ => false
    ensures StaysPut(w, Walk(r, w, pass, n), i)
  {
    hide InputAt, BotAt, ShotAt;
    if n > 0 {
      WalkStaysPut(r, w, pass, n - 1, i);
      var a := Walk(r, w, pass, n - 1);
      match pass
      case Steering(inputs) => OthersInputStaysPut(r, a, n - 1, inputs, i);
      case Bots(inputs) => BotStaysPut(r, a, n - 1, inputs, i);
      case Flying(shots) => ShotStaysPut(a, shots[n - 1], i);
    }
  }

  /** The visits to the seats after `i` leave it where its own visit put it. */
  lemma {:induction false} LaterInputsStayPut(r: Rules, w: State, inputs: Inputs, n: nat, i: nat)
    requires i < n <= |w.players|
    ensures StaysPut(Walk(r, w, Steering(inputs), i + 1), Walk(r, w, Steering(inputs), n), i)
  {
    hide InputAt;
    if i + 1 < n {
      LaterInputsStayPut(r, w, inputs, n - 1, i);
      OthersInputStaysPut(r, Walk(r, w, Steering(inputs), n - 1), n - 1, inputs, i);
    }
  }

  lemma {:induction false} StandingStays(r: Rules, w: State, n: nat, i: nat)
    requires n <= |w.players| == |w.claimed| && i < |w.players|
    requires w.players[i].alive || w.players[i].left || w.players[i].respawn > 0
    ensures var p, q := w.players[i], Walk(r, w, Returning, n).players[i];
      (q.alive ==> p.alive) && (q.alive ==> q == p) && (n <= i ==> q == p) && q == p.(respawn := q.respawn)
      && (q.alive || q.left || q.respawn > 0 || n > i)
  {
    hide SafestSlot, SpawnX, SpawnY;
    if n > 0 {
      StandingStays(r, w, n - 1, i);
    }
  }
}
