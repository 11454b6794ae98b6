/** Leaving, coming back and the end of a match, over whole runs of ticks, departures and returns. */
module Departure {
  import opened Wrappers
  import opened FixedPoint
  import opened SimTypes
  import opened Arena
  import opened Laws
  import opened Steps
  import opened Constancy

  datatype Action = Tick(inputs: Inputs) | Leave(id: nat) | Back(id: nat)

  function Act(r: Rules, w: State, a: Action): State {
    match a
    case Tick(inputs) => Step(r, w, inputs)
    case Leave(id) => Depart(w, id)
    case Back(id) => Rejoin(w, id)
  }

  function Run(r: Rules, w: State, acts: seq<Action>): State {
    if acts == [] then w else Act(r, Run(r, w, acts[..|acts| - 1]), acts[|acts| - 1])
  }

  /** The events of every tick the match really ran, in order. */
  function Feed(r: Rules, w: State, acts: seq<Action>): seq<Event> {
    if acts == [] then []
    else
      var before, a := Run(r, w, acts[..|acts| - 1]), acts[|acts| - 1];
      Feed(r, w, acts[..|acts| - 1]) + if a.Tick? && !before.ended then Step(r, before, a.inputs).events else []
  }

  /** How many ticks the match ran. */
  function Ran(r: Rules, w: State, acts: seq<Action>): nat {
    if acts == [] then 0
    else
      Ran(r, w, acts[..|acts| - 1]) + if acts[|acts| - 1].Tick? && !Run(r, w, acts[..|acts| - 1]).ended then 1 else 0
  }

  lemma {:induction false} CountsAdd(a: seq<Event>, b: seq<Event>, kind: EventKind, target: nat)
    ensures CountOf(a + b, kind, target) == CountOf(a, kind, target) + CountOf(b, kind, target)
    ensures Kills(a + b) == Kills(a) + Kills(b)
  {
    if b == [] {
      assert a + b == a;
    } else {
      var n := |b| - 1;
      CountsAdd(a, b[..n], kind, target);
      assert a + b == (a + b[..n]) + [b[n]];
      OneMoreEvent(a + b[..n], b[n]);
    }
  }

  lemma {:induction false} RunSplits(r: Rules, w: State, a: seq<Action>, b: seq<Action>)
    ensures Run(r, w, a + b) == Run(r, Run(r, w, a), b)
    ensures Ran(r, w, a + b) == Ran(r, w, a) + Ran(r, Run(r, w, a), b)
  {
    hide Act;
    if b == [] {
      assert a + b == a;
    } else {
      var n := |b| - 1;
      RunSplits(r, w, a, b[..n]);
      assert (a + b)[..|a + b| - 1] == a + b[..n];
    }
  }

  // ---- a match opens sound ----

  /** What the room hands over: seats in id order, sound of body, nobody gone. */
  ghost predicate FreshRoster(roster: seq<Player>) {
    && (forall i, j :: 0 <= i < j < |roster| ==> roster[i].id < roster[j].id)
    && (forall i :: 0 <= i < |roster| ==>
         var p := roster[i];
         0 <= p.hp <= MAX_HP && p.cooldown == 0 && p.respawn == 0 && p.protect == 0 && p.linger == 0 && !p.left)
  }

  lemma OpeningIsSound(r: Rules, roster: seq<Player>)
    requires FreshRoster(roster)
    ensures Sound(r, Opening(roster)) && !Opening(roster).ended && EventsNow(Opening(roster))
  {
    hide SpawnX, SpawnY;
    var w := Opening(roster);
    forall i | 0 <= i < |w.players|
      ensures FineSeat(w.players[i]) && w.players[i].id == roster[i].id
    {
      SpawnIsOnMap(i, |roster|);
    }
  }

  /** Everybody starts on their feet, whole unless the roster says otherwise, each on their own point of the ring; nothing has happened yet. */
  lemma OpeningIsFull(roster: seq<Player>, i: nat)
    requires i < |roster|
    ensures var w, n := Opening(roster), |roster|;
      && |w.players| == n && w.tick == 0 && w.projectiles == [] && w.nextProj == 1 && w.events == []
      && var p, q := roster[i], w.players[i];
         && q.alive && q.hp == (if p.hp == 0 then 100 else p.hp) && (q.x, q.y) == (SpawnX(i, n), SpawnY(i, n))
         && q == p.(alive := true, hp := q.hp, x := q.x, y := q.y)
  {
    hide SpawnX, SpawnY;
  }

  // ---- one action ----

  lemma SeatChangeIsSound(r: Rules, w: State, i: nat, p: Player)
    requires Sound(r, w) && i < |w.players| && FineSeat(p) && p.id == w.players[i].id && p.score == w.players[i].score
    ensures Sound(r, Set(w, i, p)) && TotalScore(Set(w, i, p).players) == TotalScore(w.players)
  {
    ScoreAfter(w.players, i, p);
    var b := Set(w, i, p);
    forall k | 0 <= k < |w.projectiles|
      ensures Seated(b.players, w.projectiles[k].owner)
    {
      var m :| 0 <= m < |w.players| && w.players[m].id == w.projectiles[k].owner;
      assert b.players[m].id == w.projectiles[k].owner;
    }
  }

  /** Leaving and coming back touch one seat, and only its flag, its linger and a respawn still to be set. */
  lemma ComingAndGoing(r: Rules, w: State, a: Action)
    requires Sound(r, w) && !a.Tick?
    ensures var b := Act(r, w, a);
      && Sound(r, b) && |b.players| == |w.players| && b.ended == w.ended && TotalScore(b.players) == TotalScore(w.players)
      && forall i :: 0 <= i < |w.players| ==>
        && b.players[i].id == w.players[i].id && b.players[i].bot == w.players[i].bot && b.players[i].alive == w.players[i].alive
        && (w.players[i].left && a != Back(w.players[i].id) ==> b.players[i] == w.players[i])
  {
    hide FineShots, FineSeat, TotalScore, Arena.Depart, Rejoin;
    var k := IndexOf(w.players, a.id);
    hide IndexOf;
    ComesOrGoes(w, a);
    if k.Some? {
      assert FineSeat(w.players[k.value]);
      SeatChangeIsSound(r, w, k.value, CameOrWent(w.players[k.value], a));
    }
  }

  /** The one seat a player's leaving or coming back touches. */
  function CameOrWent(p: Player, a: Action): (q: Player)
    requires !a.Tick?
    ensures FineSeat(p) ==> FineSeat(q)
    ensures q.id == p.id && q.bot == p.bot && q.alive == p.alive && q.score == p.score && (p.left && !a.Back? ==> q == p)
  {
    if a.Leave? then if p.left then p else p.(left := true, linger := LINGER_TICKS)
    else if !p.left then p
    else p.(left := false, linger := 0, respawn := if !p.alive && p.respawn == 0 then RESPAWN_TICKS else p.respawn)
  }

  lemma ComesOrGoes(w: State, a: Action)
    requires !a.Tick?
    ensures var b := if a.Leave? then Arena.Depart(w, a.id) else Rejoin(w, a.id);
      match IndexOf(w.players, a.id)
      case None => b == w
      case Some(k) => b == Set(w, k, CameOrWent(w.players[k], a))
  {
    hide FineSeat;
    var k := IndexOf(w.players, a.id);
    if k.Some? {
      assert w.players == w.players[k.value := w.players[k.value]];
    }
  }

  lemma {:induction false} RunIsSound(r: Rules, w: State, acts: seq<Action>)
    requires Sound(r, w)
    ensures var b := Run(r, w, acts);
      && Sound(r, b) && |b.players| == |w.players|
      && (forall i :: 0 <= i < |w.players| ==> b.players[i].id == w.players[i].id && b.players[i].bot == w.players[i].bot)
      && TotalScore(b.players) == TotalScore(w.players) + Kills(Feed(r, w, acts))
  {
    hide FineSeats, FineShots, Step, Depart, Rejoin;
    if acts != [] {
      var n := |acts| - 1;
      var before, a := Run(r, w, acts[..n]), acts[n];
      RunIsSound(r, w, acts[..n]);
      CountsAdd(Feed(r, w, acts[..n]), if a.Tick? && !before.ended then Step(r, before, a.inputs).events else [], EventKill, 0);
      if a.Tick? {
        EndedStays(r, before, a.inputs);
        if !before.ended {
          StepKeepsTheLaws(r, before, a.inputs);
        }
      } else {
        ComingAndGoing(r, before, a);
      }
    }
  }

  lemma EndedStays(r: Rules, w: State, inputs: Inputs)
    ensures w.ended ==> Step(r, w, inputs) == w
  {
  }

  // ---- gone ----

  /** One action, seen from a seat that is gone and does not come back by it. */
  lemma GoneSeat(r: Rules, w: State, a: Action, i: nat)
    requires Sound(r, w) && i < |w.players| && w.players[i].left && a != Back(w.players[i].id)
    ensures var b, id := Act(r, w, a), w.players[i].id;
      var ran := a.Tick? && !w.ended;
      var told := if ran then b.events else [];
      && i < |b.players| && b.players[i].id == id && b.players[i].left
      && b.players[i].linger == (if ran then CountDown(w.players[i].linger) else w.players[i].linger)
      && CountOf(told, EventKill, id) + (if b.players[i].alive then 1 else 0) <= (if w.players[i].alive then 1 else 0)
      && CountOf(told, EventDepart, id) == (if ran && w.players[i].linger == 1 then 1 else 0)
  {
    hide FineSeats, FineShots, Step, Depart, Rejoin;
    if a.Tick? {
      EndedStays(r, w, a.inputs);
      if !w.ended {
        StepKeepsTheLaws(r, w, a.inputs);
      }
    } else {
      ComingAndGoing(r, w, a);
    }
  }

  ghost predicate Away(acts: seq<Action>, id: nat) {
    forall k :: 0 <= k < |acts| ==> acts[k] != Back(id)
  }

  /**
   From the moment a seat is gone until its player comes back: it is killed at most once, and only if it still
   stood; it never stands again; and its departure is announced once, on the tick its linger runs out, if the
   match gets that far.
   */
  lemma {:induction false} WhileGone(r: Rules, w: State, acts: seq<Action>, i: nat)
    requires Sound(r, w) && i < |w.players| && w.players[i].left && Away(acts, w.players[i].id)
    ensures var b, feed, id, p := Run(r, w, acts), Feed(r, w, acts), w.players[i].id, w.players[i];
      && i < |b.players| && b.players[i].id == id && b.players[i].left
      && CountOf(feed, EventKill, id) + (if b.players[i].alive then 1 else 0) <= (if p.alive then 1 else 0)
      && CountOf(feed, EventDepart, id) == (if 0 < p.linger <= Ran(r, w, acts) then 1 else 0)
      && b.players[i].linger == (if Ran(r, w, acts) < p.linger then p.linger - Ran(r, w, acts) else 0)
  {
    hide Sound, Act, CountOf;
    if acts != [] {
      var n := |acts| - 1;
      WhileGone(r, w, acts[..n], i);
      RunIsSound(r, w, acts[..n]);
      var before, a := Run(r, w, acts[..n]), acts[n];
      assert a != Back(w.players[i].id);
      GoneSeat(r, before, a, i);
      var told := if a.Tick? && !before.ended then Act(r, before, a).events else [];
      TickIsStep(r, before, a);
      CountsAdd(Feed(r, w, acts[..n]), told, EventKill, w.players[i].id);
      CountsAdd(Feed(r, w, acts[..n]), told, EventDepart, w.players[i].id);
    } else {
      NothingCounted(w.players[i].id);
    }
  }

  lemma TickIsStep(r: Rules, w: State, a: Action)
    ensures a.Tick? ==> Act(r, w, a) == Step(r, w, a.inputs)
  {
  }

  lemma NothingCounted(id: nat)
    ensures CountOf([], EventKill, id) == 0 && CountOf([], EventDepart, id) == 0
  {
  }

  /** Disconnecting, and not coming back: one announcement, on exactly the 60th tick after, and at most one kill. */
  lemma DepartureIsAnnouncedOnce(r: Rules, w: State, acts: seq<Action>, i: nat)
    requires Sound(r, w) && i < |w.players| && !w.players[i].left && Away(acts, w.players[i].id)
    ensures var gone, id := Depart(w, w.players[i].id), w.players[i].id;
      && CountOf(Feed(r, gone, acts), EventDepart, id) == (if Ran(r, gone, acts) >= LINGER_TICKS then 1 else 0)
      && CountOf(Feed(r, gone, acts), EventKill, id) <= 1
      && i < |Run(r, gone, acts).players|
      && (Ran(r, gone, acts) >= LINGER_TICKS ==> !Run(r, gone, acts).players[i].alive)
  {
    var id := w.players[i].id;
    var gone := Depart(w, id);
    SeatFound(w, i);
    ComingAndGoing(r, w, Leave(id));
    hide Sound, IndexOf;
    WhileGone(r, gone, acts, i);
    RunIsSound(r, gone, acts);
    FineAt(r, Run(r, gone, acts), i);
  }

  lemma SeatFound(w: State, i: nat)
    requires FineSeats(w.players) && i < |w.players|
    ensures IndexOf(w.players, w.players[i].id) == Some(i)
  {
    var k := IndexOf(w.players, w.players[i].id);
    assert k.Some? && k.value == i;
  }

  lemma FineAt(r: Rules, w: State, i: nat)
    requires Sound(r, w) && i < |w.players|
    ensures FineSeat(w.players[i])
  {
  }

  // ---- the end ----

  /** A step ends the match exactly when its time is up or every human seat is gone and down. */
  lemma StepEndsExactly(r: Rules, w: State, inputs: Inputs)
    requires !w.ended
    ensures var b := Step(r, w, inputs);
      && b.tick == w.tick + 1
      && (b.ended <==> b.tick >= r.matchTicks || Abandoned(b.players))
      && (b.ended ==> b.winner == Leader(b.players))
  {
    PassesAreQuiet(r, w, inputs);
  }

  /** A match with human seats is over as soon as a step leaves all of them gone and down. */
  lemma NobodyLeftEndsIt(r: Rules, w: State, inputs: Inputs, i: nat)
    requires Sound(r, w) && !w.ended && i < |w.players| && !w.players[i].bot
    ensures var b := Step(r, w, inputs);
      (forall k :: 0 <= k < |b.players| && !b.players[k].bot ==> b.players[k].left && !b.players[k].alive) ==> b.ended
  {
    StepEndsExactly(r, w, inputs);
    StepKeepsTheLaws(r, w, inputs);
    assert !Step(r, w, inputs).players[i].bot;
  }
}
