/**
 The simulation under the replication protocol: the views a match hands to its room are ordered, ids of shots
 only grow, and so the two clients, which merge projectiles in different ways, rebuild the same worlds.
 */
module ServedMatch {
  import opened Wrappers
  import opened Keyed
  import opened Snapshots
  import opened DeltaSpec
  import opened DeltaClients
  import opened Broadcast
  import R = Replication
  import Sim = SimTypes
  import A = Arena
  import L = Laws
  import S = Steps
  import F = Shots
  import C = Constancy
  import D = Departure

  /** What the world hands to the room after a tick. */
  function ViewOf(w: A.State): Sim.View {
    Sim.View(w.tick, w.players, w.projectiles, w.ended, w.winner, w.events)
  }

  lemma ViewIsSorted(r: A.Rules, w: A.State)
    requires S.Sound(r, w) && C.EventsNow(w)
    ensures Sim.Sorted(ViewOf(w))
  {
    hide S.FineShot, L.FineSeat, L.Owned;
  }

  // ---- ids only grow ----

  predicate Among(shots: seq<Sim.Projectile>, id: nat) {
    exists k :: 0 <= k < |shots| && shots[k].id == id
  }

  predicate HasShot(w: A.State, id: nat) {
    Among(w.projectiles, id)
  }

  /** A later world: whatever shot is new in it has an id the earlier world had not given out. */
  ghost predicate Later(a: A.State, b: A.State) {
    && a.tick <= b.tick && a.nextProj <= b.nextProj
    && forall j :: 0 <= j < |b.projectiles| ==> b.projectiles[j].id >= a.nextProj || HasShot(a, b.projectiles[j].id)
  }

  lemma LaterChain(a: A.State, b: A.State, c: A.State)
    requires Later(a, b) && Later(b, c)
    ensures Later(a, c)
  {
    forall j | 0 <= j < |c.projectiles|
      ensures c.projectiles[j].id >= a.nextProj || HasShot(a, c.projectiles[j].id)
    {
      if c.projectiles[j].id < b.nextProj {
        var k :| 0 <= k < |b.projectiles| && b.projectiles[k].id == c.projectiles[j].id;
      }
    }
  }

  lemma StepIsLater(r: A.Rules, w: A.State, inputs: A.Inputs)
    requires S.Sound(r, w)
    ensures Later(w, A.Step(r, w, inputs))
  {
    if w.ended {
      SameShotsAreLater(w, w);
    } else {
      var b := A.Step(r, w, inputs);
      S.StepKeepsTheLaws(r, w, inputs);
      NextProjGrows(r, w, inputs);
      forall j | 0 <= j < |b.projectiles|
        ensures b.projectiles[j].id >= w.nextProj || HasShot(w, b.projectiles[j].id)
      {
        F.ShotsOnlyFly(r, w, inputs, j);
      }
    }
  }

  lemma NextProjGrows(r: A.Rules, w: A.State, inputs: A.Inputs)
    requires S.Sound(r, w) && !w.ended
    ensures w.nextProj <= A.Step(r, w, inputs).nextProj
  {
    S.ClocksCharged(r, w);
    F.DrivenIsFine(r, w, inputs);
    S.LandingIsLawful(r, F.Driven(r, w, inputs));
    S.JudgedSame(r, A.Passes(r, A.Begun(w), inputs));
    hide S.Sound, L.Lawful, A.Fly, A.Return, F.Driven, F.Traced;
  }

  lemma SameShotsAreLater(a: A.State, b: A.State)
    requires b.projectiles == a.projectiles && a.nextProj <= b.nextProj && a.tick <= b.tick
    ensures Later(a, b)
  {
  }

  lemma ActIsLater(r: A.Rules, w: A.State, a: D.Action)
    requires S.Sound(r, w)
    ensures Later(w, D.Act(r, w, a)) && (C.EventsNow(w) ==> C.EventsNow(D.Act(r, w, a)))
  {
    hide A.Step, S.Sound, Later;
    match a
    case Tick(inputs) =>
      StepIsLater(r, w, inputs);
      if C.EventsNow(w) {
        C.StepTellsItsTick(r, w, inputs);
      }
    case _ => SameShotsAreLater(w, D.Act(r, w, a));
  }

  /** Over any run the views stay ordered and new ids stay above every id there was. */
  lemma {:induction false} RunIsLater(r: A.Rules, w: A.State, acts: seq<D.Action>)
    requires S.Sound(r, w) && C.EventsNow(w)
    ensures var b := D.Run(r, w, acts); S.Sound(r, b) && C.EventsNow(b) && Later(w, b) && Sim.Sorted(ViewOf(b))
  {
    D.RunIsSound(r, w, acts);
    if acts == [] {
      SameShotsAreLater(w, w);
    } else {
      var before := acts[..|acts| - 1];
      RunIsLater(r, w, before);
      D.RunIsSound(r, w, before);
      hide Later, D.Act, S.Sound, C.EventsNow, Sim.Sorted;
      ActIsLater(r, D.Run(r, w, before), acts[|acts| - 1]);
      LaterChain(w, D.Run(r, w, before), D.Run(r, w, acts));
    }
    hide D.Run, Later;
    ViewIsSorted(r, D.Run(r, w, acts));
  }

  // ---- as the room encodes them ----

  lemma {:induction false} LiveIds(ps: seq<Sim.Projectile>)
    requires forall i :: 0 <= i < |ps| ==> ps[i].ttl > 0
    ensures forall id: nat :: id in ById(LiveProjectiles(ps)) <==> Among(ps, id)
  {
    if ps == [] {
      ByIdEmpty<Point>();
    } else {
      var n, p := |ps| - 1, ps[|ps| - 1];
      LiveIds(ps[..n]);
      ByIdAppend(LiveProjectiles(ps[..n]), Entity(p.id, Point(p.x, p.y)));
      OneMoreAmong(ps);
      hide ById, Among;
    }
  }

  lemma OneMoreAmong(ps: seq<Sim.Projectile>)
    requires ps != []
    ensures forall id: nat :: Among(ps, id) <==> Among(ps[..|ps| - 1], id) || id == ps[|ps| - 1].id
  {
    var n := |ps| - 1;
    forall id: nat
      ensures Among(ps, id) <==> Among(ps[..n], id) || id == ps[n].id
    {
      if Among(ps, id) {
        var i :| 0 <= i < |ps| && ps[i].id == id;
        assert i < n ==> ps[..n][i].id == id;
      }
      if Among(ps[..n], id) {
        var i :| 0 <= i < n && ps[..n][i].id == id;
        assert ps[i].id == id;
      }
    }
  }

  lemma EncodedIds(r: A.Rules, w: A.State, roomId: string)
    requires S.Sound(r, w)
    ensures forall id: nat :: id in ById(Encoded(roomId, ViewOf(w)).projectiles) <==> HasShot(w, id)
    ensures forall id: nat :: HasShot(w, id) ==> id < w.nextProj
  {
    forall i | 0 <= i < |w.projectiles|
      ensures w.projectiles[i].ttl > 0
    {
      assert S.FineShot(r, w.projectiles[i]);
    }
    LiveIds(w.projectiles);
    hide ById, LiveProjectiles;
  }

  /** What the clients' merges need of the server, and the simulation gives: new ids are above all old ones. */
  lemma NewIdsAreAbove(r: A.Rules, a: A.State, b: A.State, roomId: string)
    requires S.Sound(r, a) && S.Sound(r, b) && Later(a, b)
    ensures var base, cur := ById(Encoded(roomId, ViewOf(a)).projectiles), ById(Encoded(roomId, ViewOf(b)).projectiles);
      forall s, n :: s in base && n in cur.Keys - base.Keys ==> s < n
  {
    EncodedIds(r, a, roomId);
    EncodedIds(r, b, roomId);
    hide S.Sound, Encoded, ById;
  }

  /** A history broadcast from one match: every state in it is the encoding of a world of the run. */
  ghost predicate Simulated(h: History, roomId: string, r: A.Rules, start: A.State, acts: seq<D.Action>) {
    forall t :: t in h ==> FromRun(h[t], roomId, r, start, acts)
  }

  ghost predicate FromRun(s: Snapshot, roomId: string, r: A.Rules, start: A.State, acts: seq<D.Action>) {
    exists k: nat :: k <= |acts| && s == Encoded(roomId, ViewOf(D.Run(r, start, acts[..k])))
  }

  /** Of two broadcast states the one with the later tick is the later world. */
  lemma BroadcastsAreLater(base: Snapshot, cur: Snapshot, roomId: string, r: A.Rules, start: A.State, acts: seq<D.Action>)
    requires S.Sound(r, start) && C.EventsNow(start) && base.tick < cur.tick
    requires FromRun(base, roomId, r, start, acts) && FromRun(cur, roomId, r, start, acts)
    ensures forall s, n :: s in ById(base.projectiles) && n in ById(cur.projectiles).Keys - ById(base.projectiles).Keys ==> s < n
  {
    var j: nat :| j <= |acts| && base == Encoded(roomId, ViewOf(D.Run(r, start, acts[..j])));
    var k: nat :| k <= |acts| && cur == Encoded(roomId, ViewOf(D.Run(r, start, acts[..k])));
    hide S.Sound, Later, D.Run, ById;
    var a, b := D.Run(r, start, acts[..j]), D.Run(r, start, acts[..k]);
    assert a.tick == base.tick && b.tick == cur.tick;
    hide Encoded;
    if j <= k {
      LaterInRun(r, start, acts, j, k);
      NewIdsAreAbove(r, a, b, roomId);
    } else {
      LaterInRun(r, start, acts, k, j);
      TicksOrder(b, a);
    }
  }

  lemma LaterInRun(r: A.Rules, start: A.State, acts: seq<D.Action>, j: nat, k: nat)
    requires S.Sound(r, start) && C.EventsNow(start) && j <= k <= |acts|
    ensures var a, b := D.Run(r, start, acts[..j]), D.Run(r, start, acts[..k]); S.Sound(r, a) && S.Sound(r, b) && Later(a, b)
  {
    hide S.Sound, Later, D.Run, C.EventsNow, Sim.Sorted;
    assert acts[..j] + acts[j..k] == acts[..k];
    RunIsLater(r, start, acts[..j]);
    RunIsLater(r, start, acts[..k]);
    D.RunSplits(r, start, acts[..j], acts[j..k]);
    RunIsLater(r, D.Run(r, start, acts[..j]), acts[j..k]);
  }

  lemma TicksOrder(a: A.State, b: A.State)
    requires Later(a, b)
    ensures a.tick <= b.tick
  {
  }

  /**
   On the messages of a simulated match the browser is the reference client: over any exact history, any
   message the server owes anybody is rejected by both or rebuilds the same state in both, list for list.
   */
  lemma BrowserIsReference(h: History, roomId: string, r: A.Rules, start: A.State, acts: seq<D.Action>,
                           held: map<nat, Snapshot>, ack: nat, now: nat)
    requires S.Sound(r, start) && C.EventsNow(start) && Simulated(h, roomId, r, start, acts) && IsHistory(h) && now in h
    requires forall t :: t in held ==> R.Exact(h, held, t)
    ensures var m := MessageFor(h, ack, now);
      BrowserApplied(Get(held, m.baselineTick), m) == Applied(Get(held, m.baselineTick), m)
  {
    hide S.Sound, D.Run, ById, C.EventsNow, Encoded, Applied, DeltaOf, FromRun, BrowserProjectiles, Moved;
    var m := MessageFor(h, ack, now);
    if Usable(h, ack, now) && ack in held {
      assert R.Exact(h, held, ack);
      assert FromRun(h[ack], roomId, r, start, acts) && FromRun(h[now], roomId, r, start, acts);
      BroadcastsAreLater(h[ack], h[now], roomId, r, start, acts);
      ClientsAgreeOnServerDeltas(h[ack], h[now], Newest(Span(h, ack, now)));
      DeltaIsAppliedAlike(held[ack], h[ack], h[now], Newest(Span(h, ack, now)));
    } else {
      NotUsableIsFull(h, held, ack, now);
    }
  }

  lemma DeltaIsAppliedAlike(held: Snapshot, base: Snapshot, cur: Snapshot, events: seq<GameEvent>)
    requires held.projectiles == base.projectiles && base.tick > 0
    requires var d := DeltaOf(base, cur, events);
      BrowserProjectiles(base.projectiles, d.removed, d.projectiles)
      == Ascend(Moved(ById(base.projectiles), Ids(d.removed), ById(d.projectiles)))
    ensures DeltaOf(base, cur, events).baselineTick == base.tick
    ensures BrowserApplied(Some(held), DeltaOf(base, cur, events)) == Applied(Some(held), DeltaOf(base, cur, events))
  {
    hide ById, BrowserProjectiles, Ascend, Patched, Moved, PlayersOwed, ProjectilesOwed, SortedIds;
  }

  /** Without its baseline a delta is nothing to either client, and a full state is the same to both. */
  lemma NotUsableIsFull(h: History, held: map<nat, Snapshot>, ack: nat, now: nat)
    requires IsHistory(h) && now in h && !(Usable(h, ack, now) && ack in held)
    ensures var m := MessageFor(h, ack, now);
      BrowserApplied(Get(held, m.baselineTick), m) == Applied(Get(held, m.baselineTick), m)
  {
    hide ById, BrowserProjectiles, Ascend, Patched, Moved, PlayersOwed, ProjectilesOwed, SortedIds;
  }

  // ---- the whole system ----

  /** The ticks of the run broadcast worlds of the match, in whatever rhythm the room sends. */
  ghost predicate Serves(steps: seq<R.Step>, roomId: string, r: A.Rules, start: A.State, acts: seq<D.Action>) {
    forall i :: 0 <= i < |steps| && steps[i].Tick? ==> FromRun(steps[i].world, roomId, r, start, acts)
  }

  lemma {:induction false} HistoryIsSimulated(roster: set<nat>, steps: seq<R.Step>, roomId: string, r: A.Rules, start: A.State,
                                              acts: seq<D.Action>)
    requires Serves(steps, roomId, r, start, acts)
    ensures Simulated(R.Run(roster, steps).history, roomId, r, start, acts)
  {
    hide FromRun, MessageFor, R.Receive, ById, Sendable;
    if steps != [] {
      var n := |steps| - 1;
      assert Serves(steps[..n], roomId, r, start, acts);
      HistoryIsSimulated(roster, steps[..n], roomId, r, start, acts);
      assert steps[n].Tick? ==> FromRun(steps[n].world, roomId, r, start, acts);
    }
  }

  /**
   End to end: in any run of the protocol over a simulated match, whatever the network and the acknowledgements,
   the browser makes of any message in flight to a client exactly what the reference client makes of it, and if
   it makes anything of it, that is the world the server broadcast.
   */
  lemma BrowsersSeeTheMatch(roster: set<nat>, steps: seq<R.Step>, roomId: string, r: A.Rules, start: A.State,
                            acts: seq<D.Action>, player: nat, m: Snapshot)
    requires S.Sound(r, start) && C.EventsNow(start) && Serves(steps, roomId, r, start, acts)
    requires var s := R.Run(roster, steps); player in s.clients && (player, m) in s.mail
    ensures var s := R.Run(roster, steps);
      var base := Get(s.clients[player].held, m.baselineTick);
      && BrowserApplied(base, m) == Applied(base, m)
      && (BrowserApplied(base, m).Some? ==> m.tick in s.history && BrowserApplied(base, m).value == s.history[m.tick].(events := m.events))
  {
    hide S.Sound, D.Run, R.Run, C.EventsNow, FromRun, BrowserApplied, Applied, MessageFor, R.Exact;
    R.SafetyHolds(roster, steps);
    HistoryIsSimulated(roster, steps, roomId, r, start, acts);
    var s := R.Run(roster, steps);
    var held := s.clients[player].held;
    assert R.Genuine(s.history, m);
    var ack: nat :| m.tick in s.history && m == MessageFor(s.history, ack, m.tick);
    R.ReceiveIsExact(s, held, ack, m.tick);
    BrowserIsReference(s.history, roomId, r, start, acts, held, ack, m.tick);
  }

  /** The protocol with the browser's own merge at the clients that are browsers. */
  ghost function BrowserDo(s: R.System, step: R.Step, browsers: set<nat>): R.System {
    if step.Deliver? && R.Possible(s, step) && step.to_ in browsers then
      var c, m := s.clients[step.to_], step.message;
      s.(clients := s.clients[step.to_ := R.Took(s.history, c, m, BrowserApplied(Get(c.held, m.baselineTick), m))])
    else R.Do(s, step)
  }

  ghost function BrowserRun(roster: set<nat>, steps: seq<R.Step>, browsers: set<nat>): R.System {
    if steps == [] then R.Start(roster)
    else BrowserDo(BrowserRun(roster, steps[..|steps| - 1], browsers), steps[|steps| - 1], browsers)
  }

  /**
   Whichever clients are browsers, and whatever the network does, a served match runs exactly as it would with
   reference clients everywhere: what a browser holds is what its own merges left it, and it is the same.
   */
  lemma {:induction false} BrowsersRunAlike(roster: set<nat>, steps: seq<R.Step>, browsers: set<nat>, roomId: string, r: A.Rules,
                                            start: A.State, acts: seq<D.Action>)
    requires S.Sound(r, start) && C.EventsNow(start) && Serves(steps, roomId, r, start, acts)
    ensures BrowserRun(roster, steps, browsers) == R.Run(roster, steps)
  {
    hide S.Sound, C.EventsNow, FromRun, BrowserApplied, Applied, MessageFor, R.Took, R.Possible;
    if steps != [] {
      var n := |steps| - 1;
      assert Serves(steps[..n], roomId, r, start, acts);
      BrowsersRunAlike(roster, steps[..n], browsers, roomId, r, start, acts);
      var s, step := R.Run(roster, steps[..n]), steps[n];
      if step.Deliver? && R.Possible(s, step) && step.to_ in browsers {
        DeliveredIsInFlight(s, step);
        BrowsersSeeTheMatch(roster, steps[..n], roomId, r, start, acts, step.to_, step.message);
      }
    }
  }

  lemma DeliveredIsInFlight(s: R.System, step: R.Step)
    requires step.Deliver? && R.Possible(s, step)
    ensures (step.to_, step.message) in s.mail && step.to_ in s.clients
  {
  }
}
