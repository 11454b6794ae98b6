/** Clocks over whole runs: a gun's, a life's and an immunity's, counted in the ticks the match really ran. */
module Rhythm {
  import opened Wrappers
  import opened SimTypes
  import opened Arena
  import opened Laws
  import opened Steps
  import opened Lives
  import opened Firing
  import opened Departure

  ghost predicate Never(acts: seq<Action>, a: Action) {
    forall k :: 0 <= k < |acts| ==> acts[k] != a
  }

  /** Somebody's leaving or coming back, seen from a seat it does not take away. */
  lemma SeatBesideAct(r: Rules, w: State, a: Action, i: nat)
    requires Sound(r, w) && !a.Tick? && i < |w.players|
    ensures i < |Act(r, w, a).players|
    ensures var p, q := w.players[i], Act(r, w, a).players[i]; q.cooldown == p.cooldown
    ensures !w.players[i].left && a != Leave(w.players[i].id) ==> Act(r, w, a).players[i] == w.players[i]
    ensures Act(r, w, a).ended == w.ended
  {
    hide FineSeats, FineShots, IndexOf;
    ComesOrGoes(w, a);
  }

  // ---- a gun ----

  lemma ActCools(r: Rules, w: State, a: Action, i: nat)
    requires Sound(r, w) && i < |w.players|
    ensures i < |Act(r, w, a).players|
    ensures Act(r, w, a).players[i].cooldown + (if a.Tick? && !w.ended then 1 else 0) >= w.players[i].cooldown
  {
    hide Sound, Step, Arena.Depart, Rejoin;
    if a.Tick? {
      EndedStays(r, w, a.inputs);
      if !w.ended {
        SeatThroughStep(r, w, a.inputs, i);
        CooldownIsShort(r, w, i);
      }
    } else {
      SeatBesideAct(r, w, a, i);
    }
  }

  lemma CooldownIsShort(r: Rules, w: State, i: nat)
    requires Sound(r, w) && i < |w.players|
    ensures w.players[i].cooldown <= 8
  {
    Departure.FineAt(r, w, i);
  }

  lemma {:induction false} RunCools(r: Rules, w: State, acts: seq<Action>, i: nat)
    requires Sound(r, w) && i < |w.players|
    ensures i < |Run(r, w, acts).players|
    ensures Run(r, w, acts).players[i].cooldown + Ran(r, w, acts) >= w.players[i].cooldown
  {
    hide Sound, Act;
    if acts != [] {
      var n := |acts| - 1;
      RunCools(r, w, acts[..n], i);
      RunIsSound(r, w, acts[..n]);
      ActCools(r, Run(r, w, acts[..n]), acts[n], i);
    }
  }

  /** The seat fires in the `k`th action of a run. */
  ghost predicate FiresIn(r: Rules, w: State, acts: seq<Action>, k: nat, i: nat) {
    && k < |acts| && acts[k].Tick?
    && var before := Run(r, w, acts[..k]);
       !before.ended && i < |before.players| && Fires(r, before, acts[k].inputs, i)
  }

  lemma AfterAShot(r: Rules, w: State, acts: seq<Action>, j: nat, i: nat)
    requires Sound(r, w) && FiresIn(r, w, acts, j, i)
    ensures var after := Run(r, w, acts[..j + 1]);
      Sound(r, after) && i < |after.players| && after.players[i].cooldown == 8
      && Ran(r, w, acts[..j + 1]) == Ran(r, w, acts[..j]) + 1
  {
    assert acts[..j + 1][..j] == acts[..j];
    RunIsSound(r, w, acts[..j]);
    RunIsSound(r, w, acts[..j + 1]);
    hide Sound, Step, Fires;
    SeatThroughStep(r, Run(r, w, acts[..j]), acts[j].inputs, i);
  }

  lemma ReadyAt(r: Rules, w: State, acts: seq<Action>, k: nat, i: nat)
    requires FiresIn(r, w, acts, k, i)
    ensures var before := Run(r, w, acts[..k]); i < |before.players| && before.players[i].cooldown <= 1
  {
    hide Run, Fires;
    ReadyToFire(r, Run(r, w, acts[..k]), acts[k].inputs, i);
  }

  lemma ActionBounds(r: Rules, w: State, acts: seq<Action>, k: nat, i: nat)
    requires FiresIn(r, w, acts, k, i)
    ensures k < |acts|
  {
    hide Run, Fires;
  }

  /** Two shots of one seat are at least eight ticks apart. */
  lemma ShotsAreApart(r: Rules, w: State, acts: seq<Action>, j: nat, k: nat, i: nat)
    requires Sound(r, w) && j < k && FiresIn(r, w, acts, j, i) && FiresIn(r, w, acts, k, i)
    ensures Ran(r, w, acts[..k]) >= Ran(r, w, acts[..j]) + 8
  {
    hide Run, Ran, FiresIn, Fires, Sound;
    AfterAShot(r, w, acts, j, i);
    ReadyAt(r, w, acts, k, i);
    ActionBounds(r, w, acts, k, i);
    var first, between := acts[..j + 1], acts[j + 1..k];
    assert first + between == acts[..k];
    RunSplits(r, w, first, between);
    RunCools(r, Run(r, w, first), between, i);
  }

  lemma ReadyToFire(r: Rules, w: State, inputs: Inputs, i: nat)
    requires i < |w.players| && Fires(r, w, inputs, i)
    ensures w.players[i].cooldown <= 1
  {
    hide Turn, BotTurn;
  }

  // ---- a life ----

  lemma {:induction false} WaitsItsTurn(r: Rules, w: State, acts: seq<Action>, i: nat)
    requires Sound(r, w) && i < |w.players| && Never(acts, Leave(w.players[i].id))
    requires !w.players[i].alive && !w.players[i].left
    ensures i < |Run(r, w, acts).players|
    ensures var p, q, ran := w.players[i], Run(r, w, acts).players[i], Ran(r, w, acts);
      ran <= p.respawn ==> !q.alive && !q.left && q.respawn == p.respawn - ran && q.id == p.id
  {
    hide Sound, Act;
    if acts != [] {
      var n := |acts| - 1;
      var before, a := Run(r, w, acts[..n]), acts[n];
      WaitsItsTurn(r, w, acts[..n], i);
      RunIsSound(r, w, acts[..n]);
      RunIsSound(r, w, acts);
      assert a != Leave(w.players[i].id);
      if Ran(r, w, acts) <= w.players[i].respawn {
        WaitsOnce(r, before, a, i);
      }
    }
  }

  lemma WaitsOnce(r: Rules, w: State, a: Action, i: nat)
    requires Sound(r, w) && i < |w.players| && !w.players[i].alive && !w.players[i].left && a != Leave(w.players[i].id)
    requires a.Tick? && !w.ended ==> w.players[i].respawn > 0
    ensures i < |Act(r, w, a).players|
    ensures var p, q := w.players[i], Act(r, w, a).players[i];
      !q.alive && !q.left && q.id == p.id && q.respawn == p.respawn - if a.Tick? && !w.ended then 1 else 0
  {
    hide Sound, Step, Arena.Depart, Rejoin;
    if a.Tick? {
      EndedStays(r, w, a.inputs);
      if !w.ended {
        SeatThroughStep(r, w, a.inputs, i);
        NobodyLeaves(r, w, a.inputs, i);
      }
    } else {
      SeatBesideAct(r, w, a, i);
    }
  }

  lemma NobodyLeaves(r: Rules, w: State, inputs: Inputs, i: nat)
    requires Sound(r, w) && !w.ended && i < |w.players|
    ensures i < |Step(r, w, inputs).players| && Step(r, w, inputs).players[i].left == w.players[i].left
  {
    StepKeepsTheLaws(r, w, inputs);
    hide Step, FineSeats;
  }

  lemma FallsForForty(r: Rules, w: State, inputs: Inputs, i: nat)
    requires Sound(r, w) && !w.ended && i < |w.players| && w.players[i].alive && !w.players[i].left
    ensures var b := Step(r, w, inputs);
      && Sound(r, b) && |b.players| == |w.players| && b.players[i].id == w.players[i].id && !b.players[i].left
      && (!b.players[i].alive ==> b.players[i].respawn == 39)
  {
    hide Fires, AimAfter, CountOf, KillsBy, Step;
    SeatThroughStep(r, w, inputs, i);
    NobodyLeaves(r, w, inputs, i);
    StepKeepsTheLaws(r, w, inputs);
    hide Sound;
  }

  lemma ReturnsWhenDue(r: Rules, w: State, inputs: Inputs, i: nat)
    requires Sound(r, w) && !w.ended && i < |w.players| && !w.players[i].alive && !w.players[i].left && w.players[i].respawn == 0
    ensures i < |Step(r, w, inputs).players|
    ensures var q := Step(r, w, inputs).players[i]; q.alive && q.hp == 100 && q.protect == 10
  {
    hide Fires, AimAfter, CountOf, KillsBy, Step, Sound;
    SeatThroughStep(r, w, inputs, i);
  }

  /**
   A player killed in a step, whose connection holds, is down for the next thirty-nine ticks and back on the fortieth,
   with full health and ten ticks of immunity.
   */
  lemma BackAfterForty(r: Rules, w: State, inputs: Inputs, acts: seq<Action>, again: Inputs, i: nat)
    requires Sound(r, w) && !w.ended && i < |w.players| && w.players[i].alive && !w.players[i].left
    requires Never(acts, Leave(w.players[i].id))
    requires i < |Step(r, w, inputs).players| && !Step(r, w, inputs).players[i].alive
    ensures var b := Step(r, w, inputs);
      var c := Run(r, b, acts);
      && i < |c.players| && (Ran(r, b, acts) <= 39 ==> !c.players[i].alive)
      && (Ran(r, b, acts) == 39 && !c.ended ==>
           && i < |Step(r, c, again).players|
           && var q := Step(r, c, again).players[i]; q.alive && q.hp == 100 && q.protect == 10)
  {
    hide Sound, Step, Run, Ran, Never;
    var b := Step(r, w, inputs);
    FallsForForty(r, w, inputs, i);
    WaitsItsTurn(r, b, acts, i);
    RunIsSound(r, b, acts);
    var c := Run(r, b, acts);
    if !c.ended && Ran(r, b, acts) == 39 {
      ReturnsWhenDue(r, c, again, i);
    }
  }

  // ---- an immunity ----

  ghost predicate HoldsFire(r: Rules, w: State, acts: seq<Action>, i: nat) {
    forall k: nat :: k < |acts| ==> !FiresIn(r, w, acts, k, i)
  }

  /** Nobody is hurt who is immune and holds fire: not for as many ticks as the immunity has left, but one. */
  lemma {:induction false} ImmuneUntilItFires(r: Rules, w: State, acts: seq<Action>, i: nat)
    requires Sound(r, w) && i < |w.players| && w.players[i].alive && !w.players[i].left
    requires Never(acts, Leave(w.players[i].id)) && Ran(r, w, acts) < w.players[i].protect
    requires HoldsFire(r, w, acts, i)
    ensures i < |Run(r, w, acts).players|
    ensures var p, q := w.players[i], Run(r, w, acts).players[i];
      && q.id == p.id && q.alive && !q.left && q.hp == p.hp && q.protect == p.protect - Ran(r, w, acts)
      && CountOf(Feed(r, w, acts), EventHit, p.id) == 0
  {
    hide Sound, Act, CountOf;
    if acts == [] {
      NoHitsYet(w.players[i].id);
    } else {
      var n := |acts| - 1;
      var before, a := Run(r, w, acts[..n]), acts[n];
      HoldsFireBefore(r, w, acts, i);
      ImmuneUntilItFires(r, w, acts[..n], i);
      RunIsSound(r, w, acts[..n]);
      assert a != Leave(w.players[i].id) && !FiresIn(r, w, acts, n, i);
      ImmuneOnce(r, before, a, i);
      TickIsStep(r, before, a);
      CountsAdd(Feed(r, w, acts[..n]), if a.Tick? && !before.ended then Step(r, before, a.inputs).events else [], EventHit, w.players[i].id);
      NoHitsYet(w.players[i].id);
    }
  }

  lemma HoldsFireBefore(r: Rules, w: State, acts: seq<Action>, i: nat)
    requires acts != [] && HoldsFire(r, w, acts, i)
    ensures HoldsFire(r, w, acts[..|acts| - 1], i)
  {
    var n := |acts| - 1;
    hide Run, Fires;
    forall k: nat | k < n
      ensures !FiresIn(r, w, acts[..n], k, i)
    {
      assert acts[..n][..k] == acts[..k] && acts[..n][k] == acts[k];
      assert !FiresIn(r, w, acts, k, i);
    }
  }

  lemma NoHitsYet(id: nat)
    ensures CountOf([], EventHit, id) == 0
  {
  }

  lemma ImmuneOnce(r: Rules, w: State, a: Action, i: nat)
    requires Sound(r, w) && i < |w.players| && w.players[i].alive && !w.players[i].left && a != Leave(w.players[i].id)
    requires a.Tick? && !w.ended ==> w.players[i].protect >= 2 && !Fires(r, w, a.inputs, i)
    ensures i < |Act(r, w, a).players|
    ensures var p, q, ran := w.players[i], Act(r, w, a).players[i], a.Tick? && !w.ended;
      && q.id == p.id && q.alive && !q.left && q.hp == p.hp && q.protect == p.protect - (if ran then 1 else 0)
      && (ran ==> CountOf(Act(r, w, a).events, EventHit, p.id) == 0)
  {
    hide Sound, Step, Arena.Depart, Rejoin, Fires, CountOf;
    if a.Tick? {
      EndedStays(r, w, a.inputs);
      if !w.ended {
        SeatThroughStep(r, w, a.inputs, i);
        NobodyLeaves(r, w, a.inputs, i);
        Departure.FineAt(r, w, i);
      }
    } else {
      SeatBesideAct(r, w, a, i);
    }
  }

  // ---- coming back ----

  /**
   A player who comes back while the avatar still stands finds it where it was, its departure called off. One who comes
   back after it was taken away waits forty ticks, and is up again on the next.
   */
  lemma ComebackExactly(r: Rules, w: State, acts: seq<Action>, again: Inputs, i: nat)
    requires Sound(r, w) && i < |w.players| && w.players[i].left && Never(acts, Leave(w.players[i].id))
    ensures var b := Act(r, w, Back(w.players[i].id));
      && i < |b.players| && !b.players[i].left && b.players[i].linger == 0
      && (w.players[i].alive || w.players[i].respawn > 0 ==> b.players[i] == w.players[i].(left := false, linger := 0))
    ensures var b := Act(r, w, Back(w.players[i].id));
      var c := Run(r, b, acts);
      !w.players[i].alive && w.players[i].respawn == 0 ==>
        && i < |c.players| && (Ran(r, b, acts) <= 40 ==> !c.players[i].alive)
        && (Ran(r, b, acts) == 40 && !c.ended ==>
             i < |Step(r, c, again).players| && Step(r, c, again).players[i].alive && Step(r, c, again).players[i].hp == 100)
  {
    var b := Act(r, w, Back(w.players[i].id));
    SeatFound(w, i);
    ComingAndGoing(r, w, Back(w.players[i].id));
    hide Sound, Step, IndexOf;
    if !w.players[i].alive && w.players[i].respawn == 0 {
      hide Run, Ran, Never;
      WaitsItsTurn(r, b, acts, i);
      RunIsSound(r, b, acts);
      var c := Run(r, b, acts);
      if !c.ended && Ran(r, b, acts) == 40 {
        ReturnsWhenDue(r, c, again, i);
      }
    }
  }
}
