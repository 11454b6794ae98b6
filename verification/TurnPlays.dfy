/**
 What the committed moves of a match are: what their players asked for, or what the rules play for somebody whose time
 is up; and what a commit stores of one, deadline and log included.
 */
module TurnPlays {
  import opened Wrappers
  import opened CardGame
  import opened MatchStore
  import opened TurnService

  /**
   A commit stores what the move does and nothing else: the state numbered by its last event and stamped with the deadline
   of the turn it opens, or with none when the match is over; the move's events numbered on and behind what is retained
   of the log, the last of them carrying the deadline as well.
   */
  lemma CommitIsTheMove(rec: Record, m: Move, deadline: int)
    requires WellFormed(rec.state) && Accepted(rec.state, m) && LogOk(rec)
    ensures ApplyMove(rec.state, m).Ok?
    ensures var r, (g, events) := CommitPlay(rec, m, deadline), ApplyMove(rec.state, m).value;
      && r.state == g.(seqNo := rec.nextSeq + |events|, deadline := if g.ended then 0 else deadline)
      && r.version == rec.version + 1 && r.nextSeq == rec.nextSeq + |events|
      && |events| <= |r.events| && Tail(rec.events, r.events[..|r.events| - |events|])
      && Logged(r.events[|r.events| - |events|..], events, rec.nextSeq, if g.ended then 0 else deadline)
  {
    hide Without, Rejection, Outcome, Appended, Accepted, CommitPlay, PlayOnce, LogOk, ApplyMove;
    AcceptedIsItsOutcome(rec.state, m);
    OutcomeHasNoDeadlines(rec.state, m);
    CommitStores(rec, m, deadline);
    StampedEvents(rec.state, m, deadline, rec.nextSeq);
    AppendedLog(rec, PlayOnce(rec.state, m, deadline).1);
  }

  /** The record a commit leaves, but for the log, which is appended to. */
  lemma CommitStores(rec: Record, m: Move, deadline: int)
    requires WellFormed(rec.state) && Accepted(rec.state, m)
    ensures var r, stamped := CommitPlay(rec, m, deadline), PlayOnce(rec.state, m, deadline).1;
      && r.version == rec.version + 1 && r.events == Appended(rec, stamped).events && r.nextSeq == Appended(rec, stamped).nextSeq
      && (stamped != [] ==>
           r.state == Outcome(rec.state, m).0.(seqNo := rec.nextSeq + |stamped|,
                                               deadline := if Outcome(rec.state, m).0.ended then 0 else deadline))
  {
    hide Without, Accepted, Outcome, Appended;
  }

  /** Stamping and numbering an outcome's events is logging them. */
  lemma StampedEvents(g: Game, m: Move, deadline: int, next: nat)
    requires WellFormed(g) && Accepted(g, m)
    ensures var stamped, (g', events) := PlayOnce(g, m, deadline).1, Outcome(g, m);
      && |stamped| == |events| && Logged(WithNumbers(stamped, next), events, next, if g'.ended then 0 else deadline)
  {
    OutcomeHasNoDeadlines(g, m);
    hide Without, Accepted, Outcome;
  }

  lemma AcceptedIsItsOutcome(g: Game, m: Move)
    requires WellFormed(g) && Accepted(g, m)
    ensures ApplyMove(g, m) == Ok(Outcome(g, m))
  {
    hide Outcome, Rejection;
  }

  lemma AppendedLog(rec: Record, events: seq<Event>)
    requires LogOk(rec) && |events| <= 3
    ensures var r := Appended(rec, events);
      && r.nextSeq == rec.nextSeq + |events| && |events| <= |r.events| && Tail(rec.events, r.events[..|r.events| - |events|])
      && r.events[|r.events| - |events|..] == WithNumbers(events, rec.nextSeq)
  {
  }

  /** These entries are those events, numbered on from `next`, the last with the deadline and the others with none. */
  ghost predicate Logged(entries: seq<Event>, events: seq<Event>, next: nat, deadline: int) {
    && |entries| == |events|
    && forall i :: 0 <= i < |entries| ==>
      entries[i] == events[i].(seqNo := next + 1 + i, deadline := if i == |events| - 1 then deadline else 0)
  }

  ghost predicate Tail<T>(log: seq<T>, kept: seq<T>) {
    |kept| <= |log| && kept == log[|log| - |kept|..]
  }

  lemma OutcomeHasNoDeadlines(g: Game, m: Move)
    requires WellFormed(g) && Accepted(g, m)
    ensures var events := Outcome(g, m).1; 1 <= |events| <= 3 && forall i :: 0 <= i < |events| ==> events[i].deadline == 0
  {
    hide Without;
  }

  // ---- whose moves they are ----

  ghost predicate Asked(steps: seq<Step>, id: nat, m: Move) {
    exists j :: 0 <= j < |steps| && steps[j] == Submit(id, m)
  }

  /** Every player's call still means what was submitted, a sweeper's is its own, and every committed move is that of the call that committed it. */
  ghost predicate AsSubmitted(steps: seq<Step>, s: Service) {
    && (forall id :: id in s.writers && s.writers[id].owner.Player? ==> Asked(steps, id, s.writers[id].move))
    && (forall id :: id in s.writers && s.writers[id].owner.Sweeper? ==> s.writers[id].move.auto)
    && (forall i :: 0 <= i < |s.committed| ==>
         var p := s.committed[i];
         p.writer in s.writers && s.writers[p.writer].phase.Finished? && s.writers[p.writer].move == p.move)
  }

  lemma AskedStays(steps: seq<Step>, step: Step, id: nat, m: Move)
    ensures Asked(steps, id, m) ==> Asked(steps + [step], id, m)
    ensures step == Submit(id, m) ==> Asked(steps + [step], id, m)
  {
    var more := steps + [step];
    assert more[|steps|] == step;
    if Asked(steps, id, m) {
      var j :| 0 <= j < |steps| && steps[j] == Submit(id, m);
      assert more[j] == Submit(id, m);
    }
  }

  lemma StepKeepsSubmissions(steps: seq<Step>, s: Service, step: Step)
    requires AsSubmitted(steps, s)
    ensures AsSubmitted(steps + [step], Do(s, step))
  {
    hide Asked, PlayOnce, Accepted, Lowest, Committed, GoneAfter;
    var s' := Do(s, step);
    forall id, m
      ensures Asked(steps, id, m) ==> Asked(steps + [step], id, m)
      ensures step == Submit(id, m) ==> Asked(steps + [step], id, m)
    {
      AskedStays(steps, step, id, m);
    }
  }

  lemma {:induction false} SubmissionsKept(start: Record, steps: seq<Step>)
    ensures AsSubmitted(steps, Run(start, steps))
  {
    hide AsSubmitted, Do;
    if steps == [] {
      NothingSubmitted(start);
    } else {
      var n := |steps| - 1;
      SubmissionsKept(start, steps[..n]);
      StepKeepsSubmissions(steps[..n], Run(start, steps[..n]), steps[n]);
      assert steps[..n] + [steps[n]] == steps;
    }
  }

  lemma NothingSubmitted(start: Record)
    ensures AsSubmitted([], Run(start, []))
  {
  }

  /** The move the rules make for a player whose time is up, in the match as it stood when it was committed. */
  ghost predicate PlayedForThem(start: Record, committed: seq<Play>, i: nat)
    requires i < |committed|
  {
    match Sequential(start, committed[..i])
    case None => false
    case Some(rec) => WellFormed(rec.state) && committed[i].move == AutoMove(rec.state)
  }

  ghost predicate AutosOk(start: Record, s: Service) {
    forall i :: 0 <= i < |s.committed| && s.committed[i].move.auto ==> PlayedForThem(start, s.committed, i)
  }

  lemma StepKeepsAutos(start: Record, s: Service, step: Step)
    requires Inv(start, s) && AutosOk(start, s)
    ensures AutosOk(start, Do(s, step))
  {
    hide Inv, PlayedForThem, Accepted, AutoMove, PlayOnce, Sequential, GoneAfter, Committed;
    var s' := Do(s, step);
    if s'.committed != s.committed {
      var w := s.writers[step.id];
      var play := Play(step.id, w.move, w.phase.deadline);
      assert s'.committed == s.committed + [play];
      WriterIsOk(start, s, step.id);
      SweepersMove(start, s, w);
      hide Do, WriterOk;
      OneMoreAuto(start, s, play);
    }
  }

  lemma WriterIsOk(start: Record, s: Service, id: nat)
    requires Inv(start, s) && id in s.writers
    ensures WriterOk(s.rec, s.armed, s.writers[id])
  {
    hide WriterOk, RecordOk, ClockOk, PlaysOk, ReportsOk;
  }

  lemma OneMoreAuto(start: Record, s: Service, play: Play)
    requires AutosOk(start, s) && Sequential(start, s.committed) == Some(s.rec)
    requires play.move.auto ==> WellFormed(s.rec.state) && play.move == AutoMove(s.rec.state)
    ensures AutosOk(start, s.(committed := s.committed + [play]))
  {
    hide Sequential, AutoMove;
    var n, more := |s.committed|, s.committed + [play];
    forall i | 0 <= i < |more| && more[i].move.auto
      ensures PlayedForThem(start, more, i)
    {
      assert more[..i] == s.committed[..i];
      if i < n {
        assert PlayedForThem(start, s.committed, i);
      } else {
        assert s.committed[..n] == s.committed;
      }
    }
  }

  lemma SweepersMove(start: Record, s: Service, w: Writer)
    requires Inv(start, s) && WriterOk(s.rec, s.armed, w) && w.phase.Armed? && w.phase.version == s.rec.version
    ensures w.move.auto ==> WellFormed(s.rec.state) && w.move == AutoMove(s.rec.state)
    ensures Sequential(start, s.committed) == Some(s.rec)
  {
    hide Sequential, Accepted, AutoMove, PlayOnce, LogOk, AfterMoves;
  }

  lemma {:induction false} AutosHold(start: Record, steps: seq<Step>)
    requires TurnService.Opening(start)
    ensures AutosOk(start, Run(start, steps))
  {
    hide AutosOk, Do, Inv;
    if steps == [] {
      NoAutos(start);
    } else {
      var n := |steps| - 1;
      AutosHold(start, steps[..n]);
      InvHolds(start, steps[..n]);
      StepKeepsAutos(start, Run(start, steps[..n]), steps[n]);
    }
  }

  lemma NoAutos(start: Record)
    ensures AutosOk(start, Run(start, []))
  {
  }

  /**
   Over any interleaving: a committed move that is nobody's own is the lowest card of the player on the clock, and every
   other one is, to the letter, what was submitted under the call that committed it.
   */
  lemma PlaysAreAskedFor(start: Record, steps: seq<Step>, i: nat)
    requires TurnService.Opening(start) && i < |Run(start, steps).committed|
    ensures var p := Run(start, steps).committed[i];
      if p.move.auto then PlayedForThem(start, Run(start, steps).committed, i) else Asked(steps, p.writer, p.move)
  {
    hide Run, Inv, AutosOk, Asked, PlayedForThem;
    SubmissionsKept(start, steps);
    AutosHold(start, steps);
    InvHolds(start, steps);
    var s := Run(start, steps);
    var p := s.committed[i];
    assert AutosOk(start, s);
    if p.move.auto {
      AutoAt(start, s, i);
    }
  }

  lemma AutoAt(start: Record, s: Service, i: nat)
    requires AutosOk(start, s) && i < |s.committed| && s.committed[i].move.auto
    ensures PlayedForThem(start, s.committed, i)
  {
  }

  // ---- nothing is left ticking ----

  /** The match as some number of moves has left it. */
  ghost predicate InPlay(deal: Game, g: Game) {
    exists k: nat, gone: multiset<nat>, events: nat :: AfterMoves(g, deal, k, gone, events)
  }

  ghost predicate SeesTheEnd(deal: Game, w: Writer) {
    match w.phase
    case Holding(st, _) => InPlay(deal, st)
    case Prepared(next, _, _, _) => next.ended <==> next.turnNumber >= 7
    case Armed(next, _, _, _) => next.ended <==> next.turnNumber >= 7
    case _ => true
  }

  ghost predicate EndInSight(deal: Game, s: Service) {
    && (forall t :: t in s.armed ==> t <= 6)
    && (forall id :: id in s.writers ==> SeesTheEnd(deal, s.writers[id]))
  }

  lemma ComputedSeesTheEnd(deal: Game, w: Writer, deadline: int)
    requires w.phase.Holding? && WellFormed(w.phase.st) && InPlay(deal, w.phase.st)
    ensures SeesTheEnd(deal, Computed(w, deadline))
  {
    hide AfterMoves, Accepted, Outcome;
    var st, m := w.phase.st, w.move;
    if Accepted(st, m) {
      var k: nat, gone: multiset<nat>, events: nat :| AfterMoves(st, deal, k, gone, events);
      MoveKeeps(st, deal, k, gone, events, m);
      EndsOnTheSixth(Outcome(st, m).0, deal, k + 1, GoneAfter(st, gone, m), events + |Outcome(st, m).1|);
    }
  }

  lemma EndsOnTheSixth(g: Game, deal: Game, k: nat, gone: multiset<nat>, events: nat)
    requires AfterMoves(g, deal, k, gone, events)
    ensures g.ended <==> g.turnNumber >= 7
  {
  }

  lemma StepKeepsTheEndInSight(start: Record, s: Service, step: Step)
    requires Inv(start, s) && EndInSight(start.state, s)
    ensures EndInSight(start.state, Do(s, step))
  {
    hide Sequential, AfterMoves, LogOk, Accepted, AutoMove, PlayOnce, InPlay, Committed, GoneAfter, Computed, WriterOk;
    if Possible(s, step) {
      match step
      case Read(id) => RecordIsInPlay(start, s);
      case Compute(id, deadline) =>
        assert SeesTheEnd(start.state, s.writers[id]);
        ComputedSeesTheEnd(start.state, s.writers[id], deadline);
      case Arm(id) => assert SeesTheEnd(start.state, s.writers[id]);
      case _ =>
    }
  }

  lemma RecordIsInPlay(start: Record, s: Service)
    requires Inv(start, s)
    ensures InPlay(start.state, s.rec.state)
  {
    hide Sequential, AfterMoves, LogOk;
    assert AfterMoves(s.rec.state, start.state, |s.committed|, s.gone, s.rec.nextSeq);
  }

  lemma {:induction false} TheEndIsInSight(start: Record, steps: seq<Step>)
    requires TurnService.Opening(start)
    ensures EndInSight(start.state, Run(start, steps))
  {
    hide Do, Inv, EndInSight;
    if steps == [] {
      NothingArmedYet(start);
    } else {
      var n := |steps| - 1;
      TheEndIsInSight(start, steps[..n]);
      InvHolds(start, steps[..n]);
      StepKeepsTheEndInSight(start, Run(start, steps[..n]), steps[n]);
    }
  }

  lemma NothingArmedYet(start: Record)
    ensures EndInSight(start.state, Run(start, []))
  {
  }

  /** A match that is over has nothing left to expire: whatever is still armed names a turn that is past. */
  lemma NothingExpiresAfterTheEnd(start: Record, steps: seq<Step>)
    requires TurnService.Opening(start)
    ensures var s := Run(start, steps); s.rec.state.ended ==> forall t :: t in s.armed ==> 0 < t < s.rec.state.turnNumber
  {
    hide Run, Sequential, LogOk, WriterOk;
    TheEndIsInSight(start, steps);
    InvHolds(start, steps);
  }

  // ---- and moves land ----

  /** A call that nobody gets in the way of, step by step. */
  ghost function Undisturbed(s: Service, id: nat, deadline: int): Service {
    Do(Do(Do(Do(s, Read(id)), Compute(id, deadline)), Arm(id)), Commit(id))
  }

  lemma ReadyMoveLands(s: Service, id: nat, deadline: int)
    requires id in s.writers && s.writers[id].phase.Ready? && WellFormed(s.rec.state) && Accepted(s.rec.state, s.writers[id].move)
    ensures var m, t := s.writers[id].move, Undisturbed(s, id, deadline);
      && t.committed == s.committed + [Play(id, m, deadline)] && t.rec == CommitPlay(s.rec, m, deadline)
      && (!t.rec.state.ended ==> PlayOnce(s.rec.state, m, deadline).0.turnNumber in t.armed)
  {
    hide Accepted, PlayOnce, Committed, GoneAfter;
    var a := Do(s, Read(id));
    var b := Do(a, Compute(id, deadline));
    var c := Do(b, Arm(id));
    CommitKeepsTheEnd(s.rec, s.writers[id].move, deadline);
  }

  lemma CommitKeepsTheEnd(rec: Record, m: Move, deadline: int)
    requires WellFormed(rec.state) && Accepted(rec.state, m)
    ensures CommitPlay(rec, m, deadline).state.ended == PlayOnce(rec.state, m, deadline).0.ended
  {
    hide Accepted, Outcome, Appended;
  }

  lemma SubmittedLands(s: Service, id: nat, m: Move, deadline: int)
    requires WellFormed(s.rec.state) && Accepted(s.rec.state, m) && !m.auto && id !in s.writers
    ensures Undisturbed(Do(s, Submit(id, m)), id, deadline).committed == s.committed + [Play(id, m, deadline)]
  {
    hide Accepted, Undisturbed;
    ReadyMoveLands(Do(s, Submit(id, m)), id, deadline);
  }

  lemma ExpiredLands(start: Record, s: Service, id: nat, deadline: int)
    requires Inv(start, s) && !s.rec.state.ended && s.rec.version in s.armed && id !in s.writers
    ensures WellFormed(s.rec.state)
    ensures Undisturbed(Do(Do(s, Pop(id, s.rec.version)), Expire(id)), id, deadline).committed
         == s.committed + [Play(id, AutoMove(s.rec.state), deadline)]
  {
    TheClockIsPlayed(start, s);
    hide Inv, Accepted, AutoMove, Undisturbed, Lowest;
    var popped := Do(s, Pop(id, s.rec.version));
    ReadyMoveLands(Do(popped, Expire(id)), id, deadline);
  }

  /**
   From any reachable moment: a move the rules accept, submitted and left undisturbed, lands; and the
   armed deadline of a live match's turn, popped and left undisturbed, plays the lowest card for whoever let it run out.
   */
  lemma MovesLand(start: Record, steps: seq<Step>, id: nat, m: Move, deadline: int)
    requires TurnService.Opening(start) && id !in Run(start, steps).writers
    ensures var s := Run(start, steps);
      && WellFormed(s.rec.state)
      && (Accepted(s.rec.state, m) && !m.auto ==>
           Undisturbed(Do(s, Submit(id, m)), id, deadline).committed == s.committed + [Play(id, m, deadline)])
      && (!s.rec.state.ended && s.rec.version in s.armed ==>
           Undisturbed(Do(Do(s, Pop(id, s.rec.version)), Expire(id)), id, deadline).committed
           == s.committed + [Play(id, AutoMove(s.rec.state), deadline)])
  {
    hide Run, Do, Inv, Accepted, Undisturbed, AutoMove;
    InvHolds(start, steps);
    var s := Run(start, steps);
    StateIsWellFormed(start, s);
    if Accepted(s.rec.state, m) && !m.auto {
      SubmittedLands(s, id, m, deadline);
    }
    if !s.rec.state.ended && s.rec.version in s.armed {
      ExpiredLands(start, s, id, deadline);
    }
  }

  lemma StateIsWellFormed(start: Record, s: Service)
    requires Inv(start, s)
    ensures WellFormed(s.rec.state)
  {
    WellFormedRecord(start, s);
  }

  lemma TheClockIsPlayed(start: Record, s: Service)
    requires Inv(start, s) && !s.rec.state.ended
    ensures WellFormed(s.rec.state) && Accepted(s.rec.state, AutoMove(s.rec.state)) && Lowest(s.rec.state.hands[s.rec.state.turn]) != 0
    ensures s.rec.version == s.rec.state.turnNumber
  {
    hide Sequential, LogOk;
    AutoMoveIsLegal(s.rec.state, start.state, |s.committed|, s.gone, s.rec.nextSeq);
    LowestIsLeast(s.rec.state.hands[s.rec.state.turn]);
  }
}
