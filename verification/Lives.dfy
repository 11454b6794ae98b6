/**
 What a step makes of one seat: the health it loses is the hits the feed tells of it, a life ends with one kill, and
 points are kills by that seat. Whatever else happens in the step leaves its clocks alone.
 */
module Lives {
  import opened Wrappers
  import opened FixedPoint
  import opened SimTypes
  import opened Arena
  import opened Laws
  import opened Steps
  import opened Stance
  import Choices

  // ---- what the feed tells of a seat ----

  function KillsBy(events: seq<Event>, actor: nat): nat {
    if events == [] then 0
    else KillsBy(events[..|events| - 1], actor)
         + if events[|events| - 1].kind == EventKill && events[|events| - 1].actor == actor then 1 else 0
  }

  lemma OneMoreKill(events: seq<Event>, e: Event, actor: nat)
    ensures KillsBy(events + [e], actor) == KillsBy(events, actor) + if e.kind == EventKill && e.actor == actor then 1 else 0
  {
    assert (events + [e])[..|events|] == events;
  }

  function Hits(w: State, i: nat): nat
    requires i < |w.players|
  {
    CountOf(w.events, EventHit, w.players[i].id)
  }

  function Deaths(w: State, i: nat): nat
    requires i < |w.players|
  {
    CountOf(w.events, EventKill, w.players[i].id)
  }

  function Won(w: State, i: nat): nat
    requires i < |w.players|
  {
    KillsBy(w.events, w.players[i].id)
  }

  ghost predicate Apart(w: State) {
    forall i, j :: 0 <= i < j < |w.players| ==> w.players[i].id < w.players[j].id
  }

  ghost predicate SameIds(a: State, b: State) {
    |a.players| == |b.players| && forall k :: 0 <= k < |a.players| ==> b.players[k].id == a.players[k].id
  }

  /** Health, life and score of one seat, by what the feed has told in between. */
  predicate Lived(p: Player, q: Player, hits: int, deaths: int, won: int) {
    && q.score == p.score + won && hits >= 0
    && (!p.alive ==> !q.alive && q.hp == p.hp && q.respawn == p.respawn && hits == 0 && deaths == 0)
    && (p.alive && q.alive ==> q.hp == p.hp - DAMAGE * hits && (p.hp > 0 ==> q.hp > 0) && deaths == 0 && q.respawn == p.respawn)
    && (p.alive && !q.alive ==>
         q.hp == 0 && p.hp - DAMAGE * hits <= 0 && (p.hp > 0 ==> p.hp - DAMAGE * (hits - 1) > 0) && hits >= 1 && deaths == 1
         && q.respawn == RESPAWN_TICKS)
  }

  ghost predicate Life(a: State, b: State, i: nat) {
    && SameIds(a, b) && i < |a.players|
    && Lived(a.players[i], b.players[i], Hits(b, i) - Hits(a, i), Deaths(b, i) - Deaths(a, i), Won(b, i) - Won(a, i))
  }

  /** Nothing but its life: where it stands, where it aims, its clocks; and immunity means no hits. */
  ghost predicate Carried(a: State, b: State, i: nat) {
    && Life(a, b, i)
    && var p, q := a.players[i], b.players[i];
       && q == p.(hp := q.hp, alive := q.alive, respawn := q.respawn, score := q.score)
       && (p.protect > 0 ==> Hits(b, i) == Hits(a, i))
  }

  lemma LifeChain(a: State, b: State, c: State, i: nat)
    requires Life(a, b, i) && Life(b, c, i)
    ensures Life(a, c, i)
  {
    hide CountOf, KillsBy;
  }

  lemma CarriedChain(a: State, b: State, c: State, i: nat)
    requires Carried(a, b, i) && Carried(b, c, i)
    ensures Carried(a, c, i)
  {
    hide CountOf, KillsBy, Life;
    LifeChain(a, b, c, i);
    assert b.players[i].id == a.players[i].id by {
      SeatOf(a, b, i);
    }
  }

  lemma SeatOf(a: State, b: State, i: nat)
    requires Life(a, b, i)
    ensures SameIds(a, b) && i < |a.players| == |b.players| && b.players[i].id == a.players[i].id
    ensures Apart(a) ==> Apart(b)
  {
    hide Lived;
  }

  lemma UntouchedIsCarried(a: State, b: State, i: nat)
    requires SameIds(a, b) && i < |a.players| && b.players[i] == a.players[i] && b.events == a.events
    ensures Carried(a, b, i)
  {
  }

  // ---- hits ----

  lemma CreditGoesToItsOwner(w: State, owner: nat, i: nat)
    requires Apart(w) && i < |w.players|
    ensures var c := Credit(w, owner);
      && SameIds(w, c) && c.events == w.events && Apart(c)
      && c.players[i] == w.players[i].(score := w.players[i].score + if w.players[i].id == owner then 1 else 0)
  {
    var k := IndexOf(w.players, owner);
    hide IndexOf;
  }

  lemma Wounds(w: State, j: nat, owner: nat, i: nat)
    requires Apart(w) && j < |w.players| && i < |w.players| && w.players[j].alive
    requires w.players[j].protect == 0 && w.players[j].hp - DAMAGE > 0
    ensures Carried(w, Damage(w, j, owner).0, i)
  {
    hide CountOf, KillsBy, Credit;
    var p := w.players[j];
    var e := Event(w.tick, EventHit, owner, p.id, p.hp - DAMAGE);
    OneMoreEvent(w.events, e);
    OneMoreKill(w.events, e, w.players[i].id);
    IdsDiffer(w, i, j);
  }

  lemma IdsDiffer(w: State, i: nat, j: nat)
    requires Apart(w) && i < |w.players| && j < |w.players|
    ensures w.players[i].id == w.players[j].id <==> i == j
  {
    if i < j {
      assert w.players[i].id < w.players[j].id;
    } else if j < i {
      assert w.players[j].id < w.players[i].id;
    }
  }

  lemma Kills_(w: State, j: nat, owner: nat, i: nat)
    requires Apart(w) && j < |w.players| && i < |w.players| && w.players[j].alive
    requires w.players[j].protect == 0 && w.players[j].hp - DAMAGE <= 0
    ensures Carried(w, Damage(w, j, owner).0, i)
  {
    hide CountOf, KillsBy, Credit;
    var p := w.players[j];
    var fallen := Set(w, j, p.(hp := 0, alive := false, respawn := RESPAWN_TICKS));
    assert Apart(fallen);
    CreditGoesToItsOwner(fallen, owner, i);
    var down := Credit(fallen, owner);
    var hit := Event(w.tick, EventHit, owner, p.id, 0);
    var kill := Event(w.tick, EventKill, owner, p.id, 0);
    OneMoreEvent(w.events, hit);
    OneMoreKill(w.events, hit, w.players[i].id);
    OneMoreEvent(w.events + [hit], kill);
    OneMoreKill(w.events + [hit], kill, w.players[i].id);
    IdsDiffer(w, i, j);
    CreditKeepsTheTick(fallen, owner);
  }

  lemma CreditKeepsTheTick(w: State, owner: nat)
    ensures Credit(w, owner).tick == w.tick
  {
    hide IndexOf;
  }

  lemma DamageIsCarried(w: State, j: nat, owner: nat, i: nat)
    requires Apart(w) && j < |w.players| && i < |w.players| && w.players[j].alive
    ensures Carried(w, Damage(w, j, owner).0, i)
  {
    hide Carried;
    if w.players[j].protect > 0 {
      UntouchedIsCarried(w, w, i);
    } else if w.players[j].hp - DAMAGE > 0 {
      Wounds(w, j, owner, i);
    } else {
      Kills_(w, j, owner, i);
    }
  }

  lemma SweepIsCarried(w: State, shot: Projectile, fx: int, fy: int, i: nat)
    requires Apart(w) && i < |w.players|
    ensures Carried(w, Sweep(w, shot, fx, fy).0, i)
  {
    StruckIsAlive(w.players, |w.players|, shot, fx, fy);
    hide FirstStruck, Damage, Carried;
    var s := FirstStruck(w.players, |w.players|, shot, fx, fy);
    if s.Some? {
      DamageIsCarried(w, s.value, shot.owner, i);
    } else {
      UntouchedIsCarried(w, w, i);
    }
  }

  lemma CarriedStaysApart(a: State, b: State, i: nat)
    requires Apart(a) && Carried(a, b, i)
    ensures Apart(b) && |a.players| == |b.players|
  {
    hide Lived;
  }

  lemma {:induction false} CatchUpIsCarried(w: State, shot: Projectile, lag: nat, i: nat)
    requires Apart(w) && i < |w.players|
    ensures Carried(w, CatchUp(w, shot, lag), i)
    decreases lag
  {
    hide Sweep, Spent, Carried, Apart;
    if lag == 0 {
      UntouchedIsCarried(w, CatchUp(w, shot, lag), i);
    } else {
      var moved := Flown(shot);
      SweepIsCarried(w, moved, shot.x, shot.y, i);
      var (struck, hit) := Sweep(w, moved, shot.x, shot.y);
      CarriedStaysApart(w, struck, i);
      if !(hit || Spent(moved)) {
        CatchUpIsCarried(struck, moved, lag - 1, i);
        CarriedChain(w, struck, CatchUp(w, shot, lag), i);
      }
    }
  }

  // ---- a seat's own visits, and everybody else's ----

  /** What shooting does to the shooter: it is exposed, and cannot shoot again for a while. */
  lemma FiringSeat(r: Rules, w: State, k: nat, lag: nat)
    requires Apart(w) && k < |w.players|
    ensures var b := Fire(r, w, k, lag);
      Life(w, b, k) && var p, q := w.players[k], b.players[k];
                       q == p.(hp := q.hp, alive := q.alive, respawn := q.respawn, score := q.score, protect := 0, cooldown := FIRE_COOLDOWN)
  {
    hide CatchUp, Muzzled, CountOf, KillsBy;
    var bold := Set(w, k, w.players[k].(protect := 0));
    var counted := bold.(nextProj := bold.nextProj + 1);
    assert Apart(counted);
    CatchUpIsCarried(counted, Muzzled(r, bold, bold.players[k]), if lag > MAX_LAG_TICKS then MAX_LAG_TICKS else lag, k);
  }

  lemma FiringOthers(r: Rules, w: State, k: nat, lag: nat, i: nat)
    requires Apart(w) && k < |w.players| && i < |w.players| && k != i
    ensures Carried(w, Fire(r, w, k, lag), i)
  {
    hide CatchUp, Muzzled, CountOf, KillsBy, Lived;
    var bold := Set(w, k, w.players[k].(protect := 0));
    var counted := bold.(nextProj := bold.nextProj + 1);
    assert Apart(counted);
    CatchUpIsCarried(counted, Muzzled(r, bold, bold.players[k]), if lag > MAX_LAG_TICKS then MAX_LAG_TICKS else lag, i);
    assert Launch(r, bold, bold.players[k], lag).players[i] == Fire(r, w, k, lag).players[i];
  }

  lemma OthersInputIsCarried(r: Rules, w: State, k: nat, inputs: Inputs, i: nat)
    requires Apart(w) && k < |w.players| && i < |w.players| && k != i
    ensures Carried(w, InputAt(r, w, k, inputs), i)
  {
    hide Fire, Steered, Carried;
    var p := w.players[k].(cooldown := CountDown(w.players[k].cooldown));
    UntouchedIsCarried(w, Set(w, k, p), i);
    if p.id in inputs {
      var inp := inputs[p.id];
      var q := Steered(r.speed, (if inp.inputSeq != 0 then p.(inputSeq := inp.inputSeq) else p).(aim := inp.aim), inp.mx, inp.my);
      var moved := Set(w, k, q);
      UntouchedIsCarried(w, moved, i);
      FiringOthers(r, moved, k, inp.lagTicks, i);
      CarriedChain(w, moved, Fire(r, moved, k, inp.lagTicks), i);
    }
  }

  lemma OthersBotIsCarried(r: Rules, w: State, k: nat, inputs: Inputs, i: nat)
    requires Apart(w) && k < |w.players| && i < |w.players| && (k != i || !w.players[i].bot || w.players[i].id in inputs)
    ensures Carried(w, BotAt(r, w, k, inputs), i)
  {
    hide Fire, Along, CosDeg, SinDeg, Clamp, Carried;
    UntouchedIsCarried(w, w, i);
    if k != i {
      var moved := BotMoved(r, w, k);
      BotMovesOnlyItself(r, w, k, i);
      UntouchedIsCarried(w, moved, i);
      UntouchedIsCarried(w, moved.(drawn := moved.drawn - 1), i);
      FiringOthers(r, moved, k, 0, i);
      CarriedChain(w, moved, Fire(r, moved, k, 0), i);
    }
  }

  lemma BotMovesOnlyItself(r: Rules, w: State, k: nat, i: nat)
    requires k < |w.players| && i < |w.players| && k != i
    ensures var b := BotMoved(r, w, k); SameIds(w, b) && b.players[i] == w.players[i] && b.events == w.events && b.drawn >= 1
    ensures Apart(w) ==> Apart(BotMoved(r, w, k))
  {
    hide Along, CosDeg, SinDeg, Clamp;
  }

  lemma ShotIsCarried(w: State, shot: Projectile, i: nat)
    requires Apart(w) && i < |w.players|
    ensures Carried(w, ShotAt(w, shot), i)
  {
    hide Sweep, Spent, Carried;
    var moved := Flown(shot);
    SweepIsCarried(w, moved, shot.x, shot.y, i);
    UntouchedIsCarried(w, w, i);
    var struck := if moved.ttl != 0 then Sweep(w, moved, shot.x, shot.y).0 else w;
    SelfIds(w, struck, i);
    UntouchedIsCarried(struck, struck.(projectiles := struck.projectiles + [moved]), i);
    CarriedChain(w, struck, struck.(projectiles := struck.projectiles + [moved]), i);
  }

  lemma SelfIds(w: State, b: State, i: nat)
    requires Carried(w, b, i)
    ensures SameIds(b, b) && i < |b.players|
  {
    hide Lived;
  }

  /** A part of a pass that does not visit the seat's own turn. */
  lemma {:induction false} WalkIsCarried(r: Rules, w: State, pass: Pass, n: nat, i: nat)
    requires Apart(w) && Fits(w, pass, n) && i < |w.players|
    requires match pass
      case Steering(_) => n <= i
      case Bots(inputs) => n <= i || !w.players[i].bot || w.players[i].id in inputs
      case Flying(_) => true
      case _ => false
    ensures Carried(w, Walk(r, w, pass, n), i)
  {
    hide InputAt, BotAt, ShotAt, Carried, Apart;
    if n == 0 {
      UntouchedIsCarried(w, w, i);
    } else {
      WalkIsCarried(r, w, pass, n - 1, i);
      var a := Walk(r, w, pass, n - 1);
      CarriedStaysApart(w, a, i);
      CarriedSeat(w, a, i);
      match pass {
        case Steering(inputs) => OthersInputIsCarried(r, a, n - 1, inputs, i);
        case Bots(inputs) => OthersBotIsCarried(r, a, n - 1, inputs, i);
        case Flying(shots) => ShotIsCarried(a, shots[n - 1], i);
      }
      CarriedChain(w, a, Walk(r, w, pass, n), i);
    }
  }

  lemma CarriedSeat(a: State, b: State, i: nat)
    requires Carried(a, b, i)
    ensures i < |b.players| == |a.players| && b.players[i].id == a.players[i].id && b.players[i].bot == a.players[i].bot
  {
    hide Lived;
  }

  /** The visits after a seat's own. */
  lemma {:induction false} LaterIsCarried(r: Rules, w: State, pass: Pass, n: nat, i: nat)
    requires Apart(w) && (pass.Steering? || pass.Bots?) && i < n <= |w.players|
    requires Apart(Walk(r, w, pass, i + 1))
    ensures Carried(Walk(r, w, pass, i + 1), Walk(r, w, pass, n), i)
  {
    hide InputAt, BotAt, Carried, Apart;
    var from := Walk(r, w, pass, i + 1);
    if i + 1 == n {
      SelfIsCarried(from, i);
    } else {
      LaterIsCarried(r, w, pass, n - 1, i);
      var a := Walk(r, w, pass, n - 1);
      CarriedStaysApart(from, a, i);
      match pass {
        case Steering(inputs) => OthersInputIsCarried(r, a, n - 1, inputs, i);
        case Bots(inputs) => OthersBotIsCarried(r, a, n - 1, inputs, i);
      }
      CarriedChain(from, a, Walk(r, w, pass, n), i);
    }
  }

  lemma SelfIsCarried(w: State, i: nat)
    requires i < |w.players|
    ensures Carried(w, w, i)
  {
    UntouchedIsCarried(w, w, i);
  }
}
