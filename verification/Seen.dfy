/**
 What a client has on its screen: the seats, the shots, the feed and the result of the match, as the simulation had
 them on that tick, whatever the network did. And what it predicts from them.
 */
module Seen {
  import opened Wrappers
  import opened Keyed
  import opened Snapshots
  import opened DeltaSpec
  import opened Broadcast
  import opened ServedMatch
  import R = Replication
  import E = EventFeed
  import P = Prediction
  import Sim = SimTypes
  import A = Arena
  import S = Steps
  import C = Constancy
  import D = Departure

  // ---- what a state shows ----

  /** The seat as players see it; somebody who is down has no health, whatever the seat still says. */
  predicate ShowsSeat(e: PlayerSnap, p: Sim.Player) {
    && e.id == p.id && e.v.x == p.x && e.v.y == p.y && e.v.aim == p.aim && e.v.score == p.score && e.v.bot == p.bot
    && e.v.inputSeq == p.inputSeq && (p.alive ==> e.v.hp == p.hp) && (!p.alive ==> e.v.hp == 0)
  }

  ghost predicate ShowsShots(list: seq<ProjSnap>, shots: seq<Sim.Projectile>) {
    && (forall e :: e in list ==> exists k :: 0 <= k < |shots| && shots[k].ttl > 0 && e == Entity(shots[k].id, Point(shots[k].x, shots[k].y)))
    && (forall k :: 0 <= k < |shots| && shots[k].ttl > 0 ==> Entity(shots[k].id, Point(shots[k].x, shots[k].y)) in list)
  }

  /** A whole state is the world of its tick: every seat in order, every shot with life left, and the result. */
  ghost predicate Shows(s: Snapshot, roomId: string, w: A.State) {
    && s.tick == w.tick && s.roomId == roomId && s.ended == w.ended && s.winner == w.winner && s.baselineTick == 0
    && |s.players| == |w.players| && (forall i :: 0 <= i < |s.players| ==> ShowsSeat(s.players[i], w.players[i]))
    && ShowsShots(s.projectiles, w.projectiles)
  }

  predicate TellsOf(e: GameEvent, f: Sim.Event) {
    && e.tick == f.tick && e.actor == f.actor && e.target == f.target && e.hp == f.hp
    && (e.kind == Hit <==> f.kind == Sim.EventHit) && (e.kind == Kill <==> f.kind == Sim.EventKill)
    && (e.kind == Departed <==> f.kind == Sim.EventDepart)
  }

  /** The newest eight of the tick's feed, or all of it, one for one. */
  ghost predicate Tells(evs: seq<GameEvent>, feed: seq<Sim.Event>) {
    && |evs| == (if |feed| < 8 then |feed| else 8)
    && forall i :: 0 <= i < |evs| ==> TellsOf(evs[i], feed[|feed| - |evs| + i])
  }

  lemma {:induction false} LiveAreShown(shots: seq<Sim.Projectile>)
    ensures ShowsShots(LiveProjectiles(shots), shots)
  {
    if shots != [] {
      var n, s := |shots| - 1, shots[|shots| - 1];
      LiveAreShown(shots[..n]);
      var before, list := LiveProjectiles(shots[..n]), LiveProjectiles(shots);
      forall e | e in list
        ensures exists k :: 0 <= k < |shots| && shots[k].ttl > 0 && e == Entity(shots[k].id, Point(shots[k].x, shots[k].y))
      {
        if e in before {
          var k :| 0 <= k < n && shots[..n][k].ttl > 0 && e == Entity(shots[..n][k].id, Point(shots[..n][k].x, shots[..n][k].y));
          assert shots[k].ttl > 0;
        } else {
          assert s.ttl > 0 && e == Entity(shots[n].id, Point(shots[n].x, shots[n].y));
        }
      }
      forall k | 0 <= k < |shots| && shots[k].ttl > 0
        ensures Entity(shots[k].id, Point(shots[k].x, shots[k].y)) in list
      {
        if k < n {
          assert shots[..n][k] == shots[k];
        }
      }
    }
  }

  lemma EncodedShows(roomId: string, w: A.State)
    ensures Shows(Encoded(roomId, ViewOf(w)), roomId, w) && Tells(Encoded(roomId, ViewOf(w)).events, w.events)
  {
    LiveAreShown(w.projectiles);
    hide LiveProjectiles, ShowsShots;
  }

  // ---- one tick, one sight ----

  /** Nothing that is shown has changed. */
  ghost predicate LooksTheSame(a: A.State, b: A.State) {
    && b.tick == a.tick && b.ended == a.ended && b.winner == a.winner && b.projectiles == a.projectiles && b.events == a.events
    && |b.players| == |a.players|
    && forall i :: 0 <= i < |a.players| ==> SeatLooksTheSame(a.players[i], b.players[i])
  }

  predicate SeatLooksTheSame(p: Sim.Player, q: Sim.Player) {
    && q.id == p.id && q.x == p.x && q.y == p.y && q.aim == p.aim && q.score == p.score && q.bot == p.bot && q.inputSeq == p.inputSeq
    && q.alive == p.alive && q.hp == p.hp
  }

  lemma ActTicksOrLooksTheSame(r: A.Rules, w: A.State, a: D.Action)
    ensures var b := D.Act(r, w, a); b.tick == w.tick + 1 || LooksTheSame(w, b)
  {
    hide A.Passes, A.IndexOf, A.Depart, A.Rejoin;
    if a.Tick? {
      D.EndedStays(r, w, a.inputs);
      if !w.ended {
        D.StepEndsExactly(r, w, a.inputs);
      }
    } else {
      D.ComesOrGoes(w, a);
    }
  }

  lemma LooksTheSameOn(a: A.State, b: A.State, c: A.State)
    requires LooksTheSame(a, b) && LooksTheSame(b, c)
    ensures LooksTheSame(a, c)
  {
  }

  /** While the tick stays the same, so does everything shown. */
  lemma {:induction false} SameTickLooksTheSame(r: A.Rules, w: A.State, acts: seq<D.Action>)
    ensures var b := D.Run(r, w, acts); b.tick > w.tick || LooksTheSame(w, b)
  {
    hide D.Act, LooksTheSame;
    if acts == [] {
      ItselfLooksTheSame(w);
    } else {
      var n := |acts| - 1;
      SameTickLooksTheSame(r, w, acts[..n]);
      var before := D.Run(r, w, acts[..n]);
      ActTicksOrLooksTheSame(r, before, acts[n]);
      TickOfTheSame(before, D.Act(r, before, acts[n]));
      if LooksTheSame(w, before) && LooksTheSame(before, D.Act(r, before, acts[n])) {
        LooksTheSameOn(w, before, D.Act(r, before, acts[n]));
      }
      TickOfTheSame(w, before);
    }
  }

  lemma ItselfLooksTheSame(w: A.State)
    ensures LooksTheSame(w, w)
  {
  }

  lemma TickOfTheSame(a: A.State, b: A.State)
    ensures LooksTheSame(a, b) ==> b.tick == a.tick
  {
  }

  lemma ShowsTheSame(s: Snapshot, roomId: string, a: A.State, b: A.State)
    requires LooksTheSame(a, b) || LooksTheSame(b, a)
    ensures Shows(s, roomId, a) <==> Shows(s, roomId, b)
    ensures Tells(s.events, a.events) <==> Tells(s.events, b.events)
  {
    hide ShowsShots;
  }

  /** Whichever moment of the match one takes that tick for, the broadcast of the tick shows it. */
  lemma BroadcastShowsItsTick(s: Snapshot, roomId: string, r: A.Rules, start: A.State, acts: seq<D.Action>, k: nat)
    requires FromRun(s, roomId, r, start, acts) && k <= |acts| && D.Run(r, start, acts[..k]).tick == s.tick
    ensures Shows(s, roomId, D.Run(r, start, acts[..k])) && Tells(s.events, D.Run(r, start, acts[..k]).events)
  {
    var j: nat :| j <= |acts| && s == Encoded(roomId, ViewOf(D.Run(r, start, acts[..j])));
    var a, b := D.Run(r, start, acts[..j]), D.Run(r, start, acts[..k]);
    EncodedShows(roomId, a);
    hide D.Run, Shows, Tells, LooksTheSame;
    TickShown(s, roomId, a);
    if j <= k {
      LaterSameTick(r, start, acts, j, k);
    } else {
      LaterSameTick(r, start, acts, k, j);
    }
    ShowsTheSame(s, roomId, a, b);
  }

  lemma TickShown(s: Snapshot, roomId: string, w: A.State)
    requires Shows(s, roomId, w)
    ensures s.tick == w.tick
  {
  }

  lemma LaterSameTick(r: A.Rules, start: A.State, acts: seq<D.Action>, j: nat, k: nat)
    requires j <= k <= |acts| && D.Run(r, start, acts[..j]).tick == D.Run(r, start, acts[..k]).tick
    ensures LooksTheSame(D.Run(r, start, acts[..j]), D.Run(r, start, acts[..k]))
  {
    assert acts[..j] + acts[j..k] == acts[..k];
    D.RunSplits(r, start, acts[..j], acts[j..k]);
    SameTickLooksTheSame(r, D.Run(r, start, acts[..j]), acts[j..k]);
    hide D.Run, LooksTheSame;
  }

  // ---- what clients have ----

  lemma SameWorldShowsTheSame(s: Snapshot, t: Snapshot, roomId: string, w: A.State)
    requires SameWorld(s, t) && Shows(t, roomId, w)
    ensures Shows(s, roomId, w)
  {
    hide ShowsShots, ShowsSeat;
    assert s.players == t.players && s.projectiles == t.projectiles && s.tick == t.tick && s.roomId == t.roomId
      && s.ended == t.ended && s.winner == t.winner && s.baselineTick == t.baselineTick by {
      Fields(s);
      Fields(t);
    }
  }

  lemma Fields(s: Snapshot)
    ensures var e := s.(events := []);
      && e.players == s.players && e.projectiles == s.projectiles && e.tick == s.tick && e.roomId == s.roomId
      && e.ended == s.ended && e.winner == s.winner && e.baselineTick == s.baselineTick
  {
  }

  /** The match was at this tick at some moment of the run. */
  ghost predicate Reaches(r: A.Rules, start: A.State, acts: seq<D.Action>, tick: nat) {
    exists k: nat :: k <= |acts| && D.Run(r, start, acts[..k]).tick == tick
  }

  /**
   Over every run of the protocol serving a simulated match: whatever a client holds for a tick is the match as it was
   at that tick; and what it has shown of a tick's events is a newest part of what the broadcast of that tick carried,
   which is the newest eight of what the simulation told.
   */
  lemma ClientsSeeTheMatch(roster: set<nat>, steps: seq<R.Step>, roomId: string, r: A.Rules, start: A.State,
                           acts: seq<D.Action>, player: nat, tick: nat, k: nat)
    requires Serves(steps, roomId, r, start, acts)
    requires var s := R.Run(roster, steps); player in s.clients && tick in s.clients[player].held
    ensures Reaches(r, start, acts, tick)
    ensures var s := R.Run(roster, steps);
      k <= |acts| && D.Run(r, start, acts[..k]).tick == tick ==>
        && Shows(s.clients[player].held[tick], roomId, D.Run(r, start, acts[..k]))
        && Tells(E.TickEvents(s.history, tick), D.Run(r, start, acts[..k]).events)
        && E.IsSuffix(E.OfTick(s.clients[player].fed, tick), E.TickEvents(s.history, tick))
  {
    hide D.Run, R.Run, Shows, Tells, FromRun, Encoded, SameWorld;
    R.Agreement(roster, steps, player, tick);
    E.FeedIsFaithful(roster, steps, player, tick);
    HistoryIsSimulated(roster, steps, roomId, r, start, acts);
    R.SafetyHolds(roster, steps);
    var s := R.Run(roster, steps);
    assert FromRun(s.history[tick], roomId, r, start, acts);
    assert s.history[tick].tick == tick;
    SimulatedTick(s.history[tick], roomId, r, start, acts);
    if k <= |acts| && D.Run(r, start, acts[..k]).tick == tick {
      BroadcastShowsItsTick(s.history[tick], roomId, r, start, acts, k);
      SameWorldShowsTheSame(s.clients[player].held[tick], s.history[tick], roomId, D.Run(r, start, acts[..k]));
    }
  }

  lemma SimulatedTick(s: Snapshot, roomId: string, r: A.Rules, start: A.State, acts: seq<D.Action>)
    requires FromRun(s, roomId, r, start, acts)
    ensures Reaches(r, start, acts, s.tick)
  {
    var k: nat :| k <= |acts| && s == Encoded(roomId, ViewOf(D.Run(r, start, acts[..k])));
    assert D.Run(r, start, acts[..k]).tick == s.tick by {
      hide D.Run;
    }
  }

  // ---- what a client predicts from it ----

  /** The entry of a seat in what a client holds. */
  ghost predicate HoldsSeat(roster: set<nat>, steps: seq<R.Step>, player: nat, tick: nat, i: nat) {
    var s := R.Run(roster, steps);
    player in s.clients && tick in s.clients[player].held && i < |s.clients[player].held[tick].players|
  }

  ghost function SeatHeld(roster: set<nat>, steps: seq<R.Step>, player: nat, tick: nat, i: nat): Avatar
    requires HoldsSeat(roster, steps, player, tick, i)
  {
    R.Run(roster, steps).clients[player].held[tick].players[i].v
  }

  lemma HeldSeatIsTheSeat(roster: set<nat>, steps: seq<R.Step>, roomId: string, r: A.Rules, start: A.State, acts: seq<D.Action>,
                          player: nat, tick: nat, k: nat, i: nat)
    requires Serves(steps, roomId, r, start, acts) && HoldsSeat(roster, steps, player, tick, i)
    requires k <= |acts| && D.Run(r, start, acts[..k]).tick == tick
    ensures i < |D.Run(r, start, acts[..k]).players|
    ensures var v, p := SeatHeld(roster, steps, player, tick, i), D.Run(r, start, acts[..k]).players[i];
      v.x == p.x && v.y == p.y && v.inputSeq == p.inputSeq
  {
    hide D.Run, R.Run, Tells, ShowsShots;
    ClientsSeeTheMatch(roster, steps, roomId, r, start, acts, player, tick, k);
  }

  /**
   Prediction end to end. A page takes its first position from a state it holds and reconciles with a later one it holds,
   over any network. Its avatar stood in between and took up what was flying to it at first and then the first `n`
   inputs sent since: the later state moves the player by exactly what was flying, and not at all when nothing was.
   */
  lemma PredictionHoldsOverTheNetwork(roster: set<nat>, steps: seq<R.Step>, m: nat, roomId: string, r: A.Rules, start: A.State,
                                      acts: seq<D.Action>, player: nat, i: nat, j: nat, k: nat, tick0: nat, tick1: nat,
                                      base: nat, moves: seq<P.Move>, flying: seq<P.Sent>, n: nat)
    requires S.Sound(r, start) && Serves(steps, roomId, r, start, acts)
    requires m <= |steps| && HoldsSeat(roster, steps[..m], player, tick0, i) && HoldsSeat(roster, steps, player, tick1, i)
    requires j <= k <= |acts| && D.Run(r, start, acts[..j]).tick == tick0 && D.Run(r, start, acts[..k]).tick == tick1
    requires var w := D.Run(r, start, acts[..j]);
      P.StandsThroughout(r, w, acts[j..k], i) && i < |w.players| && !w.players[i].bot
    requires var v0 := SeatHeld(roster, steps[..m], player, tick0, i);
      var s := P.Play(P.Begin(base, (v0.x, v0.y)), moves, r.speed);
      && v0.inputSeq <= base && (forall q :: 0 <= q < |flying| ==> flying[q].inputSeq <= base)
      && s.acked <= n <= |s.all| && P.Consumed(r, D.Run(r, start, acts[..j]), acts[j..k], i) == flying + s.all[..n]
    ensures var v0, v1 := SeatHeld(roster, steps[..m], player, tick0, i), SeatHeld(roster, steps, player, tick1, i);
      var s := P.Play(P.Begin(base, (v0.x, v0.y)), moves, r.speed);
      var at := P.Folded((v1.x, v1.y), P.Unacked(s.pending, v1.inputSeq), r.speed);
      at == P.Folded(P.Folded((v0.x, v0.y), flying, r.speed), s.all, r.speed) && (flying == [] ==> at == s.at)
  {
    hide D.Run, R.Run, S.Sound, SeatHeld, P.StandsThroughout, P.Consumed, P.Play, P.Folded, P.Unacked;
    ServesSoFar(steps, m, roomId, r, start, acts);
    HeldSeatIsTheSeat(roster, steps[..m], roomId, r, start, acts, player, tick0, j, i);
    HeldSeatIsTheSeat(roster, steps, roomId, r, start, acts, player, tick1, k, i);
    assert acts[..j] + acts[j..k] == acts[..k];
    D.RunSplits(r, start, acts[..j], acts[j..k]);
    D.RunIsSound(r, start, acts[..j]);
    P.CorrectedByWhatWasFlying(r, D.Run(r, start, acts[..j]), acts[j..k], i, base, moves, flying, n);
  }

  lemma ServesSoFar(steps: seq<R.Step>, m: nat, roomId: string, r: A.Rules, start: A.State, acts: seq<D.Action>)
    requires m <= |steps| && Serves(steps, roomId, r, start, acts)
    ensures Serves(steps[..m], roomId, r, start, acts)
  {
    hide FromRun;
  }
}
