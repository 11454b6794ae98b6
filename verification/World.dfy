/** The simulation as it runs: a world whose passes walk the roster and the shots, changing them in place. */
module World {
  import opened Wrappers
  import opened FixedPoint
  import opened Geometry
  import opened SimTypes
  import opened Arena

  class World {
    const rules: Rules
    var w: State

    constructor (tickRate: int, matchTicks: nat, draw: nat -> nat, roster: seq<Player>)
      ensures w == Opening(roster) && rules == RulesFor(tickRate, matchTicks, draw)
    {
      w := Opening(roster);
      rules := RulesFor(tickRate, matchTicks, draw);
    }

    method Step(inputs: Inputs)
      modifies this
      ensures w == Arena.Step(rules, old(w), inputs)
    {
      hide Walk, Fly, Return, Abandoned, Leader;
      if w.ended {
        return;
      }
      w := w.(tick := w.tick + 1);
      w := w.(events := []);
      RunTimers();
      ApplyInputs(inputs);
      BotThink(inputs);
      AdvanceProjectiles();
      Respawn();
      var gone := IsAbandoned();
      if w.tick >= rules.matchTicks || gone {
        var winner := FindLeader();
        w := w.(ended := true, winner := winner);
      }
    }

    method RunTimers()
      modifies this
      ensures w == Walk(rules, old(w), Timers, |old(w).players|)
    {
      for i := 0 to |w.players|
        invariant |w.players| == |old(w).players| && w == Walk(rules, old(w), Timers, i)
      {
        ChargeTimers(i);
      }
    }

    method ChargeTimers(i: nat)
      requires i < |w.players|
      modifies this
      ensures w == TimerAt(old(w), i)
    {
      var p := w.players[i];
      if p.protect > 0 {
        p := p.(protect := p.protect - 1);
      }
      if !p.left || p.linger == 0 {
        w := Set(w, i, p);
        return;
      }
      p := p.(linger := p.linger - 1);
      if p.linger > 0 {
        w := Set(w, i, p);
        return;
      }
      p := p.(alive := false, hp := 0, respawn := 0);
      w := Set(w, i, p);
      w := Emit(w, EventDepart, 0, p.id, 0);
    }

    method ApplyInputs(inputs: Inputs)
      modifies this
      ensures w == Walk(rules, old(w), Steering(inputs), |old(w).players|)
    {
      for i := 0 to |w.players|
        invariant |w.players| == |old(w).players| && w == Walk(rules, old(w), Steering(inputs), i)
      {
        ApplyInput(i, inputs);
      }
    }

    method ApplyInput(i: nat, inputs: Inputs)
      requires i < |w.players|
      modifies this
      ensures w == InputAt(rules, old(w), i, inputs)
    {
      hide Fire, Steered;
      var p := w.players[i];
      if p.cooldown > 0 {
        p := p.(cooldown := p.cooldown - 1);
      }
      w := Set(w, i, p);
      if p.id !in inputs || !p.alive {
        return;
      }
      var inp := inputs[p.id];
      if inp.inputSeq != 0 {
        if inp.inputSeq <= p.inputSeq {
          return;
        }
        p := p.(inputSeq := inp.inputSeq);
      }
      p := p.(aim := inp.aim);
      p := Steer(p, inp.mx, inp.my);
      w := Set(w, i, p);
      assert w == Set(old(w), i, p);
      if inp.fire && p.cooldown == 0 {
        TakeShot(i, inp.lagTicks);
      }
    }

    method Steer(was: Player, mx: int, my: int) returns (p: Player)
      ensures p == Steered(rules.speed, was, mx, my)
    {
      hide Trunc, Clamp;
      p := was;
      var dx, dy := ClampDir(mx), ClampDir(my);
      if dx != 0 || dy != 0 {
        if dx != 0 && dy != 0 {
          p := p.(x := p.x + Trunc(rules.speed * dx * 707, 1000));
          p := p.(y := p.y + Trunc(rules.speed * dy * 707, 1000));
        } else {
          p := p.(x := p.x + rules.speed * dx);
          p := p.(y := p.y + rules.speed * dy);
        }
        p := p.(x := Clamp(p.x, PLAYER_RADIUS, MAP - PLAYER_RADIUS));
        p := p.(y := Clamp(p.y, PLAYER_RADIUS, MAP - PLAYER_RADIUS));
      }
    }

    method BotThink(inputs: Inputs)
      modifies this
      ensures w == Walk(rules, old(w), Bots(inputs), |old(w).players|)
    {
      for i := 0 to |w.players|
        invariant |w.players| == |old(w).players| && w == Walk(rules, old(w), Bots(inputs), i)
      {
        DriveBot(i, inputs);
      }
    }

    method NextDraw() returns (v: nat)
      modifies this
      ensures v == rules.draw(old(w).drawn) && w == old(w).(drawn := old(w).drawn + 1)
    {
      v := rules.draw(w.drawn);
      w := w.(drawn := w.drawn + 1);
    }

    method Wander(was: Player) returns (p: Player)
      ensures p == was.(x := Clamp(was.x + Along(rules.speed, CosDeg(was.aim)), PLAYER_RADIUS, MAP - PLAYER_RADIUS),
                        y := Clamp(was.y + Along(rules.speed, SinDeg(was.aim)), PLAYER_RADIUS, MAP - PLAYER_RADIUS))
    {
      hide Along, CosDeg, SinDeg, Clamp;
      p := was.(x := was.x + Along(rules.speed, CosDeg(was.aim)));
      p := p.(y := p.y + Along(rules.speed, SinDeg(p.aim)));
      p := p.(x := Clamp(p.x, PLAYER_RADIUS, MAP - PLAYER_RADIUS));
      p := p.(y := Clamp(p.y, PLAYER_RADIUS, MAP - PLAYER_RADIUS));
    }

    method DriveBot(i: nat, inputs: Inputs)
      requires i < |w.players|
      modifies this
      ensures w == BotAt(rules, old(w), i, inputs)
    {
      hide Fire, Along, CosDeg, SinDeg, Clamp;
      var p := w.players[i];
      if !p.bot || !p.alive || p.id in inputs {
        return;
      }
      var turn := NextDraw();
      if turn % BOT_TURN_CHANCE == 0 {
        var aim := NextDraw();
        p := p.(aim := aim % 360);
      }
      p := Wander(p);
      w := Set(w, i, p);
      ghost var moved := w;
      if p.cooldown == 0 {
        var chance := NextDraw();
        assert w == moved.(drawn := moved.drawn + 1);
        if chance % BOT_FIRE_CHANCE == 0 {
          TakeShot(i, 0);
        }
      }
    }

    method TakeShot(i: nat, lag: nat)
      requires i < |w.players|
      modifies this
      ensures w == Fire(rules, old(w), i, lag)
    {
      w := Set(w, i, w.players[i].(protect := 0));
      SpawnProjectile(w.players[i], lag);
      w := Set(w, i, w.players[i].(cooldown := FIRE_COOLDOWN));
    }

    /** The catch-up is swept a tick at a time, and a shot spent on the way never joins the world. */
    method SpawnProjectile(p: Player, lag: nat)
      modifies this
      ensures w == Launch(rules, old(w), p, lag)
    {
      hide Sweep, Muzzled;
      var behind := if lag > MAX_LAG_TICKS then MAX_LAG_TICKS else lag;
      var shot := Muzzled(rules, w, p);
      w := w.(nextProj := w.nextProj + 1);
      for i := 0 to behind
        invariant CatchUp(w, shot, behind - i) == Launch(rules, old(w), p, lag)
      {
        var fx, fy := shot.x, shot.y;
        shot := shot.(x := shot.x + shot.vx, y := shot.y + shot.vy);
        if shot.ttl > 0 {
          shot := shot.(ttl := shot.ttl - 1);
        }
        var hit := SweepHit(shot, fx, fy);
        if hit {
          return;
        }
        if shot.ttl == 0 || shot.x < 0 || shot.y < 0 || shot.x > MAP || shot.y > MAP {
          return;
        }
      }
      w := w.(projectiles := w.projectiles + [shot]);
    }

    /** The loop keeps the best target so far, which at the end is whom the shot reaches first. */
    method SweepHit(shot: Projectile, fx: int, fy: int) returns (hit: bool)
      modifies this
      ensures (w, hit) == Sweep(old(w), shot, fx, fy)
    {
      var best: Option<nat> := None;
      var bestAlong := 0;
      for j := 0 to |w.players|
        invariant best == FirstStruck(w.players, j, shot, fx, fy) && w == old(w)
        invariant best.Some? ==> bestAlong == AlongPath(w.players[best.value], shot, fx, fy)
      {
        var p := w.players[j];
        if !p.alive || p.id == shot.owner {
          continue;
        }
        if SegDist2(p.x, p.y, fx, fy, shot.x, shot.y) > REACH * REACH {
          continue;
        }
        var along := AlongPath(p, shot, fx, fy);
        if best.None? || along < bestAlong || (along == bestAlong && p.id < w.players[best.value].id) {
          best, bestAlong := Some(j), along;
        }
      }
      if best.None? {
        return false;
      }
      hit := Hurt(best.value, shot.owner);
    }

    method Hurt(j: nat, owner: nat) returns (landed: bool)
      requires j < |w.players|
      modifies this
      ensures (w, landed) == Damage(old(w), j, owner)
    {
      var p := w.players[j];
      if p.protect > 0 {
        return false;
      }
      p := p.(hp := p.hp - DAMAGE);
      w := Set(w, j, p);
      if p.hp > 0 {
        w := Emit(w, EventHit, owner, p.id, p.hp);
        return true;
      }
      p := p.(hp := 0, alive := false, respawn := RESPAWN_TICKS);
      w := Set(w, j, p);
      assert w == Set(old(w), j, p);
      var k := IndexOf(w.players, owner);
      if k.Some? {
        w := Set(w, k.value, w.players[k.value].(score := w.players[k.value].score + 1));
      }
      w := Emit(w, EventHit, owner, p.id, 0);
      w := Emit(w, EventKill, owner, p.id, 0);
      return true;
    }

    /** The survivors are written over the shots they came from. */
    method AdvanceProjectiles()
      modifies this
      ensures w == Fly(rules, old(w))
    {
      var shots := w.projectiles;
      w := w.(projectiles := []);
      ghost var start := w;
      for i := 0 to |shots|
        invariant |w.players| == |start.players| && w == Walk(rules, start, Flying(shots), i)
      {
        ghost var before := w;
        var shot := shots[i];
        var fx, fy := shot.x, shot.y;
        shot := shot.(x := shot.x + shot.vx, y := shot.y + shot.vy);
        if shot.ttl > 0 {
          shot := shot.(ttl := shot.ttl - 1);
        }
        assert shot == Flown(shots[i]);
        if shot.ttl != 0 {
          var hit := SweepHit(shot, fx, fy);
          if hit {
            shot := shot.(ttl := 0);
          }
        }
        if shot.ttl == 0 || shot.x < 0 || shot.y < 0 || shot.x > MAP || shot.y > MAP {
          assert w == ShotAt(before, shots[i]);
          continue;
        }
        w := w.(projectiles := w.projectiles + [shot]);
        assert w == ShotAt(before, shots[i]);
      }
    }

    method Respawn()
      modifies this
      ensures w == Return(rules, old(w))
    {
      var n := |w.players|;
      if n == 0 {
        return;
      }
      var claimed: seq<bool> := [];
      for i := 0 to n
        invariant claimed == Unclaimed(i)
      {
        claimed := claimed + [false];
      }
      w := w.(claimed := claimed);
      ghost var start := w;
      for i := 0 to n
        invariant |w.players| == n == |w.claimed| && Fits(start, Returning, i) && w == Walk(rules, start, Returning, i)
      {
        var p := w.players[i];
        if p.alive {
          continue;
        }
        if p.left {
          continue;
        }
        if p.respawn > 0 {
          w := Set(w, i, p.(respawn := p.respawn - 1));
          continue;
        }
        var slot := FindSlot(p.id);
        w := w.(claimed := w.claimed[slot := true]);
        p := p.(alive := true, hp := MAX_HP, protect := SPAWN_PROTECT_TICKS, x := SpawnX(slot, n), y := SpawnY(slot, n));
        w := Set(w, i, p);
      }
    }

    method FindSlot(self: nat) returns (slot: nat)
      requires |w.claimed| == |w.players| > 0
      ensures slot == SafestSlot(w, self)
    {
      var n := |w.players|;
      var best: Option<nat> := None;
      var bestScore := -1;
      for k := 0 to n
        invariant best == Safest(w, self, k)
        invariant best.Some? ==> bestScore == Threat(w, self, best.value, n)
      {
        if w.claimed[k] {
          continue;
        }
        var nearest := NearestThreat(self, k);
        if best.None? || nearest > bestScore {
          best, bestScore := Some(k), nearest;
        }
      }
      slot := if best.None? then 0 else best.value;
    }

    method NearestThreat(self: nat, slot: nat) returns (nearest: int)
      ensures nearest == Threat(w, self, slot, |w.players|)
    {
      var n := |w.players|;
      nearest := -1;
      for j := 0 to n
        invariant nearest == Threat(w, self, slot, j)
      {
        var p := w.players[j];
        if !p.alive || p.id == self {
          continue;
        }
        var d := Dist2(SpawnX(slot, n), SpawnY(slot, n), p.x, p.y);
        if nearest < 0 || d < nearest {
          nearest := d;
        }
      }
    }

    method IsAbandoned() returns (gone: bool)
      ensures gone == Abandoned(w.players)
    {
      var seats := 0;
      for i := 0 to |w.players|
        invariant seats > 0 <==> exists k :: 0 <= k < i && !w.players[k].bot
        invariant seats >= 0
        invariant forall k :: 0 <= k < i && !w.players[k].bot ==> w.players[k].left && !w.players[k].alive
      {
        if w.players[i].bot {
          continue;
        }
        seats := seats + 1;
        if !w.players[i].left || w.players[i].alive {
          return false;
        }
      }
      gone := seats > 0;
    }

    method FindLeader() returns (id: nat)
      ensures id == Leader(w.players)
    {
      if |w.players| == 0 {
        return 0;
      }
      var best: nat, tied := 0, false;
      for i := 1 to |w.players|
        invariant (best, tied) == Lead(w.players, i) && best < i
      {
        if w.players[i].score > w.players[best].score {
          best, tied := i, false;
        } else if w.players[i].score == w.players[best].score {
          tied := true;
        }
      }
      id := if tied then 0 else w.players[best].id;
    }

    method Leave(id: nat)
      modifies this
      ensures w == Depart(old(w), id)
    {
      var i := IndexOf(w.players, id);
      if i.None? || w.players[i.value].left {
        return;
      }
      w := Set(w, i.value, w.players[i.value].(left := true, linger := LINGER_TICKS));
    }

    method ComeBack(id: nat)
      modifies this
      ensures w == Rejoin(old(w), id)
    {
      var i := IndexOf(w.players, id);
      if i.None? || !w.players[i.value].left {
        return;
      }
      var p := w.players[i.value].(left := false, linger := 0);
      if !p.alive && p.respawn == 0 {
        p := p.(respawn := RESPAWN_TICKS);
      }
      w := Set(w, i.value, p);
    }
  }
}
