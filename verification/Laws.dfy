/** What every step of the simulation keeps, whatever the inputs. */
module Laws {
  import opened Wrappers
  import opened FixedPoint
  import opened Geometry
  import opened SimTypes
  import opened Arena

  // ---- counting ----

  function TotalScore(players: seq<Player>): nat {
    if players == [] then 0 else TotalScore(players[..|players| - 1]) + players[|players| - 1].score
  }

  predicate IsAbout(e: Event, kind: EventKind, target: nat) {
    e.kind == kind && e.target == target
  }

  function CountOf(events: seq<Event>, kind: EventKind, target: nat): nat {
    if events == [] then 0
    else CountOf(events[..|events| - 1], kind, target) + if IsAbout(events[|events| - 1], kind, target) then 1 else 0
  }

  function Kills(events: seq<Event>): nat {
    if events == [] then 0 else Kills(events[..|events| - 1]) + if events[|events| - 1].kind == EventKill then 1 else 0
  }

  lemma OneMoreEvent(events: seq<Event>, e: Event)
    ensures Kills(events + [e]) == Kills(events) + if e.kind == EventKill then 1 else 0
    ensures forall kind, target :: CountOf(events + [e], kind, target) == CountOf(events, kind, target) + if IsAbout(e, kind, target) then 1 else 0
  {
    assert (events + [e])[..|events|] == events;
  }

  lemma {:induction false} ScoreAfter(players: seq<Player>, i: nat, p: Player)
    requires i < |players|
    ensures TotalScore(players[i := p]) == TotalScore(players) - players[i].score + p.score
  {
    var n := |players| - 1;
    if i < n {
      ScoreAfter(players[..n], i, p);
      assert players[i := p][..n] == players[..n][i := p];
    } else {
      assert players[i := p][..n] == players[..n];
    }
  }

  // ---- the laws of the seats ----

  predicate FineSeat(p: Player) {
    && OnMap(p.x, p.y) && p.hp <= MAX_HP && (p.alive <==> p.hp > 0)
    && p.cooldown <= FIRE_COOLDOWN && p.respawn <= RESPAWN_TICKS && p.protect <= SPAWN_PROTECT_TICKS && p.linger <= LINGER_TICKS
    && (!p.left ==> p.linger == 0) && (p.left && p.linger == 0 ==> !p.alive)
  }

  ghost predicate FineSeats(players: seq<Player>) {
    && (forall i, j :: 0 <= i < j < |players| ==> players[i].id < players[j].id)
    && (forall i :: 0 <= i < |players| ==> FineSeat(players[i]))
  }

  ghost predicate SameSeats(a: seq<Player>, b: seq<Player>) {
    && |a| == |b|
    && forall i :: 0 <= i < |a| ==> a[i].id == b[i].id && a[i].bot == b[i].bot && a[i].left == b[i].left
  }

  ghost predicate Seated(players: seq<Player>, id: nat) {
    exists i :: 0 <= i < |players| && players[i].id == id
  }

  /** Kills recorded against the seat so far this tick, and one more for as long as it can still be killed. */
  function Toll(w: State, i: nat): nat
    requires i < |w.players|
  {
    CountOf(w.events, EventKill, w.players[i].id) + if w.players[i].alive then 1 else 0
  }

  ghost predicate TollsFall(a: State, b: State)
    requires |a.players| == |b.players|
  {
    forall i :: 0 <= i < |a.players| && a.players[i].left ==> Toll(b, i) <= Toll(a, i)
  }

  ghost predicate SameLingers(a: State, b: State)
    requires |a.players| == |b.players|
  {
    && (forall i :: 0 <= i < |a.players| ==> a.players[i].linger == b.players[i].linger)
    && (forall id :: CountOf(a.events, EventDepart, id) == CountOf(b.events, EventDepart, id))
  }

  /** Points are kills: the scores less the kills of the tick. */
  function Balance(w: State): int {
    TotalScore(w.players) - Kills(w.events)
  }

  /** What part of a step may do to the seats: nothing to who they are, a point for each kill, one kill a life. */
  ghost predicate Lawful(a: State, b: State) {
    && SameSeats(a.players, b.players) && FineSeats(b.players)
    && Balance(b) == Balance(a) && TollsFall(a, b) && SameLingers(a, b) && a.tick == b.tick
  }

  lemma LawfulChain(a: State, b: State, c: State)
    requires Lawful(a, b) && Lawful(b, c)
    ensures Lawful(a, c)
  {
    hide FineSeat, Balance, CountOf, Toll;
  }

  lemma UntouchedIsLawful(a: State, b: State)
    requires FineSeats(a.players) && b.players == a.players && b.events == a.events && b.tick == a.tick
    ensures Lawful(a, b)
  {
    hide FineSeat, CountOf, TotalScore, Kills;
  }

  /** A seat changed without a hit. */
  lemma SeatIsLawful(w: State, i: nat, p: Player)
    requires FineSeats(w.players) && i < |w.players| && FineSeat(p)
    requires var q := w.players[i];
      p.id == q.id && p.bot == q.bot && p.left == q.left && p.linger == q.linger && p.score == q.score && (p.alive ==> q.alive || !q.left)
    ensures Lawful(w, Set(w, i, p))
  {
    hide FineSeat, CountOf, TotalScore, Kills;
    ScoreAfter(w.players, i, p);
  }

  lemma EventIsLawful(w: State, kind: EventKind, actor: nat, target: nat, hp: int)
    requires FineSeats(w.players) && kind == EventHit
    ensures Lawful(w, Emit(w, kind, actor, target, hp))
  {
    hide FineSeat, CountOf, TotalScore, Kills;
    OneMoreEvent(w.events, Event(w.tick, kind, actor, target, hp));
  }

  lemma CreditChanges(w: State, owner: nat)
    requires Seated(w.players, owner) && FineSeats(w.players)
    ensures var c := Credit(w, owner);
      && SameSeats(w.players, c.players) && FineSeats(c.players) && TotalScore(c.players) == TotalScore(w.players) + 1
      && c == w.(players := c.players)
      && forall i :: 0 <= i < |w.players| ==> c.players[i].alive == w.players[i].alive && c.players[i].linger == w.players[i].linger
  {
    var k := IndexOf(w.players, owner).value;
    ScoreAfter(w.players, k, w.players[k].(score := w.players[k].score + 1));
    hide IndexOf, TotalScore;
  }

  /** A kill: the victim falls, the shooter scores, and the feed says so, all at once. */
  lemma KillIsLawful(w: State, j: nat, owner: nat)
    requires FineSeats(w.players) && Seated(w.players, owner) && j < |w.players| && w.players[j].alive
    ensures var p := w.players[j];
      var down := Credit(Set(w, j, p.(hp := 0, alive := false, respawn := RESPAWN_TICKS)), owner);
      Lawful(w, Emit(Emit(down, EventHit, owner, p.id, 0), EventKill, owner, p.id, 0))
  {
    hide CountOf, Kills, TotalScore, Credit;
    var p := w.players[j];
    var q := p.(hp := 0, alive := false, respawn := RESPAWN_TICKS);
    var fallen := Set(w, j, q);
    SeatIsLawful(w, j, q);
    var i :| 0 <= i < |w.players| && w.players[i].id == owner;
    assert fallen.players[i].id == owner;
    CreditChanges(fallen, owner);
    var down := Credit(fallen, owner);
    ScoreAfter(w.players, j, q);
    var hit := Emit(down, EventHit, owner, p.id, 0);
    var b := Emit(hit, EventKill, owner, p.id, 0);
    OneMoreEvent(down.events, Event(w.tick, EventHit, owner, p.id, 0));
    OneMoreEvent(hit.events, Event(w.tick, EventKill, owner, p.id, 0));
    assert SameSeats(w.players, b.players) && FineSeats(b.players) by {
      hide FineSeat;
    }
    hide FineSeat, FineSeats;
    assert TollsFall(w, b) by {
      OthersKeepTheirToll(w, b, j);
    }
  }

  lemma OthersKeepTheirToll(w: State, b: State, j: nat)
    requires j < |w.players| && FineSeats(w.players) && SameSeats(w.players, b.players) && w.players[j].alive && !b.players[j].alive
    requires forall i :: 0 <= i < |w.players| && i != j ==> b.players[i].alive == w.players[i].alive
    requires forall id :: CountOf(b.events, EventKill, id) == CountOf(w.events, EventKill, id) + if id == w.players[j].id then 1 else 0
    ensures TollsFall(w, b)
  {
    hide CountOf, FineSeat;
    forall i | 0 <= i < |w.players|
      ensures Toll(b, i) <= Toll(w, i)
    {
      if i < j {
        assert w.players[i].id < w.players[j].id;
      } else if j < i {
        assert w.players[j].id < w.players[i].id;
      }
    }
  }

  lemma DamageIsLawful(w: State, j: nat, owner: nat)
    requires FineSeats(w.players) && Seated(w.players, owner) && j < |w.players| && w.players[j].alive
    ensures Lawful(w, Damage(w, j, owner).0)
  {
    hide CountOf, Kills, TotalScore, Credit, Lawful;
    var p := w.players[j];
    if p.protect > 0 {
      UntouchedIsLawful(w, w);
    } else if p.hp - DAMAGE > 0 {
      var hurt := p.(hp := p.hp - DAMAGE);
      SeatIsLawful(w, j, hurt);
      LawfulSeats(w, Set(w, j, hurt));
      EventIsLawful(Set(w, j, hurt), EventHit, owner, p.id, p.hp - DAMAGE);
      LawfulChain(w, Set(w, j, hurt), Damage(w, j, owner).0);
    } else {
      KillIsLawful(w, j, owner);
    }
  }

  lemma LawfulSeats(a: State, b: State)
    requires Lawful(a, b)
    ensures FineSeats(b.players) && SameSeats(a.players, b.players) && |a.players| == |b.players|
    ensures forall id :: Seated(a.players, id) ==> Seated(b.players, id)
  {
    hide FineSeat, Balance, TollsFall, SameLingers;
    forall id | Seated(a.players, id)
      ensures Seated(b.players, id)
    {
      var i :| 0 <= i < |a.players| && a.players[i].id == id;
      assert b.players[i].id == id;
    }
  }

  lemma {:induction false} StruckIsAlive(players: seq<Player>, n: nat, shot: Projectile, fx: int, fy: int)
    requires n <= |players|
    ensures var s := FirstStruck(players, n, shot, fx, fy); s.Some? ==> InReach(players[s.value], shot, fx, fy)
  {
    hide InReach, Sooner;
    if n > 0 {
      StruckIsAlive(players, n - 1, shot, fx, fy);
    }
  }

  lemma SweepIsLawful(w: State, shot: Projectile, fx: int, fy: int)
    requires FineSeats(w.players) && Seated(w.players, shot.owner)
    ensures Lawful(w, Sweep(w, shot, fx, fy).0)
  {
    hide Lawful, FineSeats, Damage, FirstStruck;
    StruckIsAlive(w.players, |w.players|, shot, fx, fy);
    var s := FirstStruck(w.players, |w.players|, shot, fx, fy);
    if s.Some? {
      DamageIsLawful(w, s.value, shot.owner);
    } else {
      UntouchedIsLawful(w, w);
    }
  }

  lemma {:induction false} CatchUpIsLawful(w: State, shot: Projectile, lag: nat)
    requires FineSeats(w.players) && Seated(w.players, shot.owner)
    ensures Lawful(w, CatchUp(w, shot, lag))
    decreases lag
  {
    hide Lawful, FineSeats, Sweep, Spent;
    if lag == 0 {
      UntouchedIsLawful(w, CatchUp(w, shot, lag));
    } else {
      var moved := Flown(shot);
      SweepIsLawful(w, moved, shot.x, shot.y);
      var (struck, hit) := Sweep(w, moved, shot.x, shot.y);
      LawfulSeats(w, struck);
      if !(hit || Spent(moved)) {
        CatchUpIsLawful(struck, moved, lag - 1);
        LawfulChain(w, struck, CatchUp(w, shot, lag));
      }
    }
  }

  lemma FireIsLawful(r: Rules, w: State, i: nat, lag: nat)
    requires FineSeats(w.players) && i < |w.players|
    ensures Lawful(w, Fire(r, w, i, lag))
  {
    hide Lawful, CatchUp;
    var p := w.players[i].(protect := 0);
    var bold := Set(w, i, p);
    SeatIsLawful(w, i, p);
    LawfulSeats(w, bold);
    var counted := bold.(nextProj := bold.nextProj + 1);
    UntouchedIsLawful(bold, counted);
    assert Seated(counted.players, p.id) by {
      assert counted.players[i].id == p.id;
    }
    CatchUpIsLawful(counted, Muzzled(r, bold, p), if lag > MAX_LAG_TICKS then MAX_LAG_TICKS else lag);
    var fired := Launch(r, bold, p, lag);
    LawfulSeats(counted, fired);
    SeatIsLawful(fired, i, fired.players[i].(cooldown := FIRE_COOLDOWN));
    LawfulChain(w, bold, counted);
    LawfulChain(w, counted, fired);
    LawfulChain(w, fired, Fire(r, w, i, lag));
  }

  lemma InputIsLawful(r: Rules, w: State, i: nat, inputs: Inputs)
    requires FineSeats(w.players) && i < |w.players|
    ensures Lawful(w, InputAt(r, w, i, inputs))
  {
    hide Lawful, Fire, Steered;
    var p := w.players[i].(cooldown := CountDown(w.players[i].cooldown));
    if p.id !in inputs || !p.alive || Stale(p, inputs[p.id]) {
      SeatIsLawful(w, i, p);
    } else {
      var inp := inputs[p.id];
      var q := Steered(r.speed, (if inp.inputSeq != 0 then p.(inputSeq := inp.inputSeq) else p).(aim := inp.aim), inp.mx, inp.my);
      SeatIsLawful(w, i, q);
      LawfulSeats(w, Set(w, i, q));
      FireIsLawful(r, Set(w, i, q), i, inp.lagTicks);
      if inp.fire && p.cooldown == 0 {
        LawfulChain(w, Set(w, i, q), Fire(r, Set(w, i, q), i, inp.lagTicks));
      }
    }
  }

  lemma BotIsLawful(r: Rules, w: State, i: nat, inputs: Inputs)
    requires FineSeats(w.players) && i < |w.players|
    ensures Lawful(w, BotAt(r, w, i, inputs))
  {
    hide Lawful, Fire, Along, SinDeg;
    var p, b := w.players[i], BotAt(r, w, i, inputs);
    if !p.bot || !p.alive || p.id in inputs {
      UntouchedIsLawful(w, w);
    } else {
      var turns := r.draw(w.drawn) % BOT_TURN_CHANCE == 0;
      var aim := if turns then r.draw(w.drawn + 1) % 360 else p.aim;
      var drawn := w.drawn + if turns then 2 else 1;
      var q := p.(aim := aim, x := Clamp(p.x + Along(r.speed, CosDeg(aim)), PLAYER_RADIUS, MAP - PLAYER_RADIUS),
                  y := Clamp(p.y + Along(r.speed, SinDeg(aim)), PLAYER_RADIUS, MAP - PLAYER_RADIUS));
      var moved := Set(w, i, q).(drawn := drawn);
      SeatIsLawful(w, i, q);
      LawfulSeats(w, Set(w, i, q));
      UntouchedIsLawful(Set(w, i, q), moved);
      LawfulChain(w, Set(w, i, q), moved);
      UntouchedIsLawful(moved, moved.(drawn := drawn + 1));
      LawfulChain(w, moved, moved.(drawn := drawn + 1));
      FireIsLawful(r, moved.(drawn := drawn + 1), i, 0);
      if p.cooldown == 0 && r.draw(drawn) % BOT_FIRE_CHANCE == 0 {
        LawfulChain(w, moved.(drawn := drawn + 1), b);
      }
    }
  }

  lemma ShotIsLawful(w: State, shot: Projectile)
    requires FineSeats(w.players) && Seated(w.players, shot.owner)
    ensures Lawful(w, ShotAt(w, shot))
  {
    hide Lawful, FineSeats, Sweep, Spent;
    var moved := Flown(shot);
    SweepIsLawful(w, moved, shot.x, shot.y);
    UntouchedIsLawful(w, w);
    var struck := if moved.ttl != 0 then Sweep(w, moved, shot.x, shot.y).0 else w;
    LawfulSeats(w, struck);
    UntouchedIsLawful(struck, struck.(projectiles := struck.projectiles + [moved]));
    LawfulChain(w, struck, struck.(projectiles := struck.projectiles + [moved]));
  }

  lemma ReturnIsLawful(w: State, i: nat)
    requires FineSeats(w.players) && i < |w.players| == |w.claimed|
    ensures Lawful(w, ReturnAt(w, i))
  {
    hide Lawful, SafestSlot, SpawnX, SpawnY;
    var p, b := w.players[i], ReturnAt(w, i);
    if p.alive || p.left {
      UntouchedIsLawful(w, w);
    } else if p.respawn > 0 {
      SeatIsLawful(w, i, p.(respawn := p.respawn - 1));
    } else {
      var slot := SafestSlot(w, p.id);
      SpawnIsOnMap(slot, |w.players|);
      SeatIsLawful(w, i, b.players[i]);
      LawfulSeats(w, Set(w, i, b.players[i]));
      UntouchedIsLawful(Set(w, i, b.players[i]), b);
      LawfulChain(w, Set(w, i, b.players[i]), b);
    }
  }

  /** Every shot a pass is about to fly belongs to somebody in the match. */
  ghost predicate Owned(players: seq<Player>, shots: seq<Projectile>) {
    forall i :: 0 <= i < |shots| ==> Seated(players, shots[i].owner)
  }

  lemma VisitIsLawful(r: Rules, w: State, pass: Pass, i: nat)
    requires FineSeats(w.players) && Fits(w, pass, i + 1) && !pass.Timers? && (pass.Flying? ==> Owned(w.players, pass.shots))
    ensures Lawful(w, Visit(r, w, pass, i))
  {
    hide Lawful, FineSeats, InputAt, BotAt, ShotAt, ReturnAt;
    match pass
    case Steering(inputs) => InputIsLawful(r, w, i, inputs);
    case Bots(inputs) => BotIsLawful(r, w, i, inputs);
    case Flying(shots) => ShotIsLawful(w, shots[i]);
    case Returning => ReturnIsLawful(w, i);
    case Timers =>
  }

  lemma {:induction false} WalkIsLawful(r: Rules, w: State, pass: Pass, n: nat)
    requires FineSeats(w.players) && Fits(w, pass, n) && !pass.Timers? && (pass.Flying? ==> Owned(w.players, pass.shots))
    ensures Lawful(w, Walk(r, w, pass, n))
  {
    hide Lawful, FineSeats, Visit;
    if n == 0 {
      UntouchedIsLawful(w, w);
    } else {
      var before := Walk(r, w, pass, n - 1);
      WalkIsLawful(r, w, pass, n - 1);
      LawfulSeats(w, before);
      VisitIsLawful(r, before, pass, n - 1);
      LawfulChain(w, before, Walk(r, w, pass, n));
    }
  }
}
