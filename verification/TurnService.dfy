/**
 The only write path of a match, under any interleaving: players' moves and the deadline sweeper race
 through read, apply, arm and compare-and-swap commit. A run is any sequence of steps; a step that is
 not possible where it stands does nothing.

 Any call may fail at any point before its commit: a store or a schedule that answers with an error, or a
 process that dies. One thing the deployment has to provide is built into the steps: a deadline armed for a
 turn that is not committed yet is not popped before it is.
 */
module TurnService {
  import opened Wrappers
  import opened CardGame
  import opened MatchStore
  import Deadlines
  import Deal

  const ATTEMPTS: nat := 4

  datatype Owner = Player | Sweeper(turn: nat)

  datatype Phase =
    | Popped
    | Ready
    | Holding(st: Game, version: nat)
    | Prepared(next: Game, version: nat, events: seq<Event>, deadline: int)
    | Armed(next: Game, version: nat, events: seq<Event>, deadline: int)
    | Finished

  /** One call of the write path. `lost` counts the compare-and-swaps it has lost. */
  datatype Writer = Writer(owner: Owner, move: Move, phase: Phase, lost: nat)

  /** A committed move, who committed it and the deadline it stamped. */
  datatype Play = Play(writer: nat, move: Move, deadline: int)

  /** `dropped` holds the turns whose deadline a sweeper popped and then failed with, until somebody arms them again. */
  datatype Service = Service(
    rec: Record, armed: set<nat>, writers: map<nat, Writer>, dropped: set<nat>,
    committed: seq<Play>, gone: multiset<nat>, reporting: set<nat>, reports: nat)

  datatype Step =
    | Submit(id: nat, move: Move)
    | Pop(id: nat, turn: nat)
    | Expire(id: nat)
    | Read(id: nat)
    | Compute(id: nat, deadline: int)
    | Arm(id: nat)
    | Fails(id: nat)
    | Commit(id: nat)
    | Report(id: nat)

  // ---- one accepted move, with its deadline ----

  function StampLast(events: seq<Event>, deadline: int): seq<Event>
    requires events != []
  {
    events[|events| - 1 := events[|events| - 1].(deadline := deadline)]
  }

  function PlayOnce(g: Game, m: Move, deadline: int): (Game, seq<Event>)
    requires WellFormed(g) && Accepted(g, m)
  {
    var (g', events) := Outcome(g, m);
    if g'.ended then (g'.(deadline := 0), events) else (g'.(deadline := deadline), StampLast(events, deadline))
  }

  function CommitPlay(rec: Record, m: Move, deadline: int): Record
    requires WellFormed(rec.state) && Accepted(rec.state, m)
  {
    var (g, events) := PlayOnce(rec.state, m, deadline);
    Committed(rec, g, events)
  }

  /** The match played by one writer alone, move after move. */
  ghost function Sequential(start: Record, plays: seq<Play>): Option<Record> {
    if plays == [] then Some(start)
    else
      var last := plays[|plays| - 1];
      match Sequential(start, plays[..|plays| - 1])
      case None => None
      case Some(rec) =>
        if WellFormed(rec.state) && Accepted(rec.state, last.move) then Some(CommitPlay(rec, last.move, last.deadline))
        else None
  }

  // ---- steps ----

  ghost predicate Possible(s: Service, step: Step) {
    match step
    case Submit(id, m) => id !in s.writers && !m.auto
    case Pop(id, turn) => id !in s.writers && turn in s.armed && turn <= s.rec.state.turnNumber
    case Expire(id) => id in s.writers && s.writers[id].phase.Popped? && s.writers[id].owner.Sweeper? && WellFormed(s.rec.state)
    case Read(id) => id in s.writers && s.writers[id].phase.Ready?
    case Compute(id, _) => id in s.writers && s.writers[id].phase.Holding? && WellFormed(s.writers[id].phase.st)
    case Arm(id) => id in s.writers && s.writers[id].phase.Prepared?
    case Fails(id) => id in s.writers && !s.writers[id].phase.Finished?
    case Commit(id) => id in s.writers && s.writers[id].phase.Armed?
    case Report(id) => id in s.reporting
  }

  /** What the sweeper decides when it looks at the match its deadline names. */
  ghost function Expired(g: Game, w: Writer, turn: nat): Writer
    requires WellFormed(g)
  {
    if g.ended || (turn != 0 && g.turnNumber != turn) || Lowest(g.hands[g.turn]) == 0 then w.(phase := Finished)
    else w.(move := AutoMove(g), phase := Ready)
  }

  ghost function Computed(w: Writer, deadline: int): Writer
    requires w.phase.Holding? && WellFormed(w.phase.st)
  {
    if Accepted(w.phase.st, w.move) then
      var (next, events) := PlayOnce(w.phase.st, w.move, deadline);
      w.(phase := Prepared(next, w.phase.version, events, deadline))
    else w.(phase := Finished)   // rejected, or a retry already handled
  }

  ghost function Do(s: Service, step: Step): Service {
    if !Possible(s, step) then s
    else
      match step
      case Submit(id, m) => s.(writers := s.writers[id := Writer(Player, m, Ready, 0)])
      case Pop(id, turn) =>
        s.(armed := s.armed - {turn},
           writers := s.writers[id := Writer(Sweeper(turn), Move("", 0, 0, "", true), Popped, 0)])
      case Expire(id) => s.(writers := s.writers[id := Expired(s.rec.state, s.writers[id], s.writers[id].owner.turn)])
      case Read(id) => s.(writers := s.writers[id := s.writers[id].(phase := Holding(s.rec.state, s.rec.version))])
      case Compute(id, deadline) => s.(writers := s.writers[id := Computed(s.writers[id], deadline)])
      case Arm(id) =>
        var p := s.writers[id].phase;
        s.(armed := if p.next.ended then s.armed else s.armed + {p.next.turnNumber},
           dropped := if p.next.ended then s.dropped else s.dropped - {p.next.turnNumber},
           writers := s.writers[id := s.writers[id].(phase := Armed(p.next, p.version, p.events, p.deadline))])
      case Fails(id) =>
        var w := s.writers[id];
        s.(writers := s.writers[id := w.(phase := Finished)],
           dropped := if w.owner.Sweeper? && w.owner.turn !in s.armed then s.dropped + {w.owner.turn} else s.dropped)
      case Commit(id) =>
        var w := s.writers[id];
        if s.rec.version == w.phase.version then
          s.(rec := Committed(s.rec, w.phase.next, w.phase.events),
             committed := s.committed + [Play(id, w.move, w.phase.deadline)],
             gone := GoneAfter(s.rec.state, s.gone, w.move),
             reporting := if w.phase.next.ended then s.reporting + {id} else s.reporting,
             writers := s.writers[id := w.(phase := Finished)])
        else
          s.(writers := s.writers[id := w.(lost := w.lost + 1, phase := if w.lost + 1 < ATTEMPTS then Ready else Finished)])
      case Report(id) => s.(reporting := s.reporting - {id}, reports := s.reports + 1)
  }

  /** A match as it is created: dealt, its two opening events logged, its first turn armed. */
  ghost predicate Opening(rec: Record) {
    FreshDeal(rec.state) && rec.version == 1 && rec.nextSeq == rec.state.seqNo == 2 && LogOk(rec)
  }

  /** How a match comes to be: dealt, its first deadline armed, then stored with one event for each hand. */
  method Create(store: MemoryStore, schedule: Deadlines.MemoryDeadlines, matchId: string, draw: nat -> nat,
                first: string, second: string, deadline: int) returns (st: Game)
    requires first != second && first != "" && second != ""
    modifies store, schedule
    ensures matchId in store.m && store.m == old(store.m)[matchId := store.m[matchId]]
    ensures Opening(store.m[matchId]) && st == store.m[matchId].state
    ensures schedule.at == old(schedule.at)[Deadlines.DueKey(matchId, 1) := deadline]
  {
    st := Deal.NewState(matchId, draw, first, second);
    st := st.(deadline := deadline);
    var events: seq<Event> := [];
    for seat := 0 to 2
      invariant |events| == seat
    {
      events := events + [Blank(Dealt, st.players[seat]).(hand := st.hands[seat], handCount := |st.hands[seat]|, deadline := deadline)];
    }
    schedule.Arm(matchId, st.turnNumber, deadline);
    var dealt := st;
    var stored;
    st, stored := store.Create(st, events);
    AppendKeepsLog(Record(st, 1, [], 0), events);
  }

  ghost function Run(start: Record, steps: seq<Step>): Service {
    if steps == [] then Service(start, {1}, map[], {}, [], multiset{}, {}, 0)
    else Do(Run(start, steps[..|steps| - 1]), steps[|steps| - 1])
  }

  // ---- invariant ----

  ghost predicate RecordOk(start: Record, s: Service) {
    && Opening(start)
    && Sequential(start, s.committed) == Some(s.rec)
    && LogOk(s.rec)
    && s.rec.version == s.rec.state.turnNumber && s.rec.state.seqNo == s.rec.nextSeq
    && AfterMoves(s.rec.state, start.state, |s.committed|, s.gone, s.rec.nextSeq)
  }

  /** The move was computed from version `v`, and if nobody has written since it is still right. */
  ghost predicate Proposal(rec: Record, w: Writer, next: Game, v: nat, events: seq<Event>, deadline: int) {
    && v <= rec.version && next.turnNumber == v + 1
    && (w.move.turnNumber != 0 ==> v == w.move.turnNumber && w.lost == 0)
    && (v == rec.version ==>
         WellFormed(rec.state) && Accepted(rec.state, w.move) && (next, events) == PlayOnce(rec.state, w.move, deadline))
  }

  ghost predicate WriterOk(rec: Record, armed: set<nat>, w: Writer) {
    && (w.owner.Sweeper? ==> 1 <= w.owner.turn <= rec.version)
    && (w.owner.Sweeper? && !w.phase.Popped? && !w.phase.Finished? ==>
         && w.move.turnNumber == w.owner.turn != 0 && w.move.auto
         && (rec.version == w.owner.turn ==> WellFormed(rec.state) && w.move == AutoMove(rec.state)))
    && (w.owner.Player? ==> !w.phase.Popped? && !w.move.auto)
    && (w.move.turnNumber != 0 ==> w.lost <= 1 && (w.lost == 1 ==> w.move.turnNumber < rec.version))
    && match w.phase
       case Popped => w.owner.Sweeper? && w.lost == 0
       case Ready => true
       case Finished => true
       case Holding(st, v) =>
         && v <= rec.version && WellFormed(st) && st.turnNumber == v && (v == rec.version ==> st == rec.state)
         && (w.move.turnNumber != 0 && w.lost == 1 ==> w.move.turnNumber < v)
         && (w.owner.Sweeper? ==> w.owner.turn <= v)
       case Prepared(next, v, events, deadline) => Proposal(rec, w, next, v, events, deadline)
       case Armed(next, v, events, deadline) =>
         Proposal(rec, w, next, v, events, deadline) && (v == rec.version && !next.ended ==> v + 1 in armed)
  }

  ghost predicate WritersOk(s: Service) {
    forall id :: id in s.writers ==> WriterOk(s.rec, s.armed, s.writers[id])
  }

  ghost predicate InHands(s: Service, turn: nat) {
    exists id :: id in s.writers && s.writers[id].owner == Sweeper(turn) && !s.writers[id].phase.Finished?
  }

  /** Something will move a live match on. */
  ghost predicate ClockOk(s: Service) {
    && 0 !in s.armed && s.armed !! s.dropped
    && (s.rec.state.ended || s.rec.version in s.armed || InHands(s, s.rec.version) || s.rec.version in s.dropped)
  }

  ghost predicate PlaysOk(s: Service) {
    && (forall i :: 0 <= i < |s.committed| ==>
         var p := s.committed[i];
         && p.writer in s.writers && s.writers[p.writer].phase.Finished?
         && (p.move.turnNumber != 0 ==> p.move.turnNumber == i + 1)
         && (p.move.auto ==> s.writers[p.writer].owner == Sweeper(i + 1)))
    && (forall i, j :: 0 <= i < j < |s.committed| ==> s.committed[i].writer != s.committed[j].writer)
  }

  ghost predicate ReportsOk(s: Service) {
    s.reports + |s.reporting| == if s.rec.state.ended then 1 else 0
  }

  ghost predicate Inv(start: Record, s: Service) {
    RecordOk(start, s) && WritersOk(s) && ClockOk(s) && PlaysOk(s) && ReportsOk(s)
  }

  // ---- the pieces of the proof ----

  /** Numbering and deadlines are bookkeeping: what a legal run keeps does not see them. */
  lemma BookkeepingIsInvisible(g: Game, h: Game, deal: Game, k: nat, gone: multiset<nat>, events: nat)
    requires AfterMoves(g, deal, k, gone, events) && h == g.(seqNo := h.seqNo, deadline := h.deadline)
    ensures AfterMoves(h, deal, k, gone, events)
  {
    assert h.hands == g.hands && h.scores == g.scores;
    assert CardsInPlay(h) == CardsInPlay(g);
  }

  lemma CommitKeepsRecord(start: Record, s: Service, id: nat, m: Move, deadline: int)
    requires RecordOk(start, s) && Accepted(s.rec.state, m)
    ensures var rec' := CommitPlay(s.rec, m, deadline);
      RecordOk(start, s.(rec := rec', committed := s.committed + [Play(id, m, deadline)], gone := GoneAfter(s.rec.state, s.gone, m)))
    ensures CommitPlay(s.rec, m, deadline).version == s.rec.version + 1
    ensures CommitPlay(s.rec, m, deadline).state.ended == PlayOnce(s.rec.state, m, deadline).0.ended
  {
    hide RecordOk, Sequential, AfterMoves, Outcome, Accepted, LogOk, GoneAfter, CommitPlay, PlayOnce, Opening;
    RecordHolds(start, s);
    CommittedRecord(s.rec, m, deadline);
    OneMorePlay(start, s.committed, s.rec, Play(id, m, deadline));
    MoveKeeps(s.rec.state, start.state, |s.committed|, s.gone, s.rec.nextSeq, m);
    var rec' := CommitPlay(s.rec, m, deadline);
    BookkeepingIsInvisible(Outcome(s.rec.state, m).0, rec'.state, start.state, |s.committed| + 1,
                           GoneAfter(s.rec.state, s.gone, m), rec'.nextSeq);
    RecordHolds(start, s.(rec := rec', committed := s.committed + [Play(id, m, deadline)], gone := GoneAfter(s.rec.state, s.gone, m)));
  }

  /** The record's invariant, part by part. */
  lemma RecordHolds(start: Record, s: Service)
    ensures RecordOk(start, s)
       <==> Opening(start) && Sequential(start, s.committed) == Some(s.rec) && LogOk(s.rec)
            && s.rec.version == s.rec.state.turnNumber && s.rec.state.seqNo == s.rec.nextSeq
            && AfterMoves(s.rec.state, start.state, |s.committed|, s.gone, s.rec.nextSeq)
    ensures RecordOk(start, s) ==> WellFormed(s.rec.state)
  {
  }

  lemma OneMorePlay(start: Record, plays: seq<Play>, rec: Record, play: Play)
    requires Sequential(start, plays) == Some(rec) && WellFormed(rec.state) && Accepted(rec.state, play.move)
    ensures Sequential(start, plays + [play]) == Some(CommitPlay(rec, play.move, play.deadline))
  {
    hide Accepted, CommitPlay;
    assert (plays + [play])[..|plays|] == plays;
  }

  /** A commit stamps, numbers and counts, and otherwise stores the outcome of the move. */
  lemma CommittedRecord(rec: Record, m: Move, deadline: int)
    requires WellFormed(rec.state) && Accepted(rec.state, m) && LogOk(rec)
    ensures var r, (g, events) := CommitPlay(rec, m, deadline), Outcome(rec.state, m);
      && LogOk(r) && r.version == rec.version + 1 && r.state.seqNo == r.nextSeq == rec.nextSeq + |events|
      && r.state == g.(seqNo := r.state.seqNo, deadline := r.state.deadline)
      && r.state.ended == PlayOnce(rec.state, m, deadline).0.ended && r.state.turnNumber == rec.state.turnNumber + 1
  {
    var (g, events) := PlayOnce(rec.state, m, deadline);
    AppendKeepsLog(rec, events);
  }

  /** Another writer's success makes every proposal at the old version stale and nothing worse. */
  lemma OthersSurviveCommit(rec: Record, rec': Record, armed: set<nat>, w: Writer)
    requires WriterOk(rec, armed, w) && rec'.version == rec.version + 1
    requires w.owner.Sweeper? && !w.phase.Popped? && !w.phase.Finished? ==> w.owner.turn <= rec.version
    ensures WriterOk(rec', armed, w)
  {
  }

  lemma OthersSurviveArming(rec: Record, armed: set<nat>, armed': set<nat>, w: Writer)
    requires WriterOk(rec, armed, w) && (rec.version + 1 in armed ==> rec.version + 1 in armed')
    ensures WriterOk(rec, armed', w)
  {
  }

  lemma AcceptedNamesTheTurn(g: Game, m: Move)
    requires WellFormed(g) && Accepted(g, m)
    ensures m.turnNumber != 0 ==> m.turnNumber == g.turnNumber
    ensures forall d :: PlayOnce(g, m, d).0.turnNumber == g.turnNumber + 1
  {
  }

  /** A sweeper that declines, or whose move is refused, was too late: the turn had already moved on. */
  lemma SweeperNeverDeclinesTheLiveTurn(start: Record, s: Service, w: Writer)
    requires RecordOk(start, s) && WriterOk(s.rec, s.armed, w) && w.owner == Sweeper(s.rec.version) && !s.rec.state.ended
    ensures w.phase.Popped? ==> Expired(s.rec.state, w, s.rec.version).phase.Ready?
    ensures w.phase.Holding? && w.phase.version == s.rec.version ==> Accepted(w.phase.st, w.move)
  {
    AutoMoveIsLegal(s.rec.state, start.state, |s.committed|, s.gone, s.rec.nextSeq);
  }

  lemma StepSubmit(start: Record, s: Service, step: Step)
    requires Inv(start, s) && Possible(s, step) && (step.Submit? || step.Read? || step.Report?)
    ensures Inv(start, Do(s, step))
  {
    hide AfterMoves, LogOk, Sequential, Opening, PlayOnce, AutoMove, Accepted;
    WellFormedRecord(start, s);
    var s' := Do(s, step);
    forall turn | InHands(s, turn)
      ensures InHands(s', turn)
    {
      var id :| id in s.writers && s.writers[id].owner == Sweeper(turn) && !s.writers[id].phase.Finished?;
      assert id in s'.writers && s'.writers[id].owner == Sweeper(turn) && !s'.writers[id].phase.Finished?;
    }
  }

  lemma WellFormedRecord(start: Record, s: Service)
    requires RecordOk(start, s)
    ensures WellFormed(s.rec.state) && s.rec.version == |s.committed| + 1
  {
  }

  lemma StepPop(start: Record, s: Service, step: Step)
    requires Inv(start, s) && Possible(s, step) && step.Pop?
    ensures Inv(start, Do(s, step))
  {
    hide AfterMoves, LogOk, Sequential, Opening, PlayOnce, AutoMove, Accepted;
    WellFormedRecord(start, s);
    var s' := Do(s, step);
    forall id | id in s'.writers
      ensures WriterOk(s'.rec, s'.armed, s'.writers[id])
    {
      if id != step.id {
        OthersSurviveArming(s.rec, s.armed, s'.armed, s.writers[id]);
      }
    }
    HandsKept(s, s', step.id);
    if step.turn == s.rec.version {
      assert s'.writers[step.id].owner == Sweeper(s.rec.version);
    }
  }

  /** Steps of one writer leave every other deadline in the hands it was in. */
  lemma HandsKept(s: Service, s': Service, id: nat)
    requires s.writers.Keys <= s'.writers.Keys && forall j :: j in s.writers && j != id ==> s'.writers[j] == s.writers[j]
    ensures forall turn :: InHands(s, turn) && (id in s.writers ==> s.writers[id].owner != Sweeper(turn)) ==> InHands(s', turn)
  {
    forall turn | InHands(s, turn) && (id in s.writers ==> s.writers[id].owner != Sweeper(turn))
      ensures InHands(s', turn)
    {
      var j :| j in s.writers && s.writers[j].owner == Sweeper(turn) && !s.writers[j].phase.Finished?;
      assert j in s'.writers && s'.writers[j].owner == Sweeper(turn) && !s'.writers[j].phase.Finished?;
    }
  }

  lemma StepOwn(start: Record, s: Service, step: Step)
    requires Inv(start, s) && Possible(s, step) && (step.Expire? || step.Compute?)
    ensures Inv(start, Do(s, step))
  {
    hide AfterMoves, LogOk, Sequential, Opening, PlayOnce, Accepted, AutoMove;
    WellFormedRecord(start, s);
    var s' := Do(s, step);
    var w := s.writers[step.id];
    assert WriterOk(s.rec, s.armed, w);
    var w' := s'.writers[step.id];
    if step.Expire? {
      AutoMoveShape(s.rec.state);
    } else if step.Compute? && Accepted(w.phase.st, w.move) {
      AcceptedNamesTheTurn(w.phase.st, w.move);
    }
    assert WriterOk(s'.rec, s'.armed, w');
    HandsKept(s, s', step.id);
    if !s.rec.state.ended && w.owner == Sweeper(s.rec.version) {
      SweeperNeverDeclinesTheLiveTurn(start, s, w);
      StillTrying(s, step);
    }
  }

  lemma AutoMoveShape(g: Game)
    requires WellFormed(g)
    ensures AutoMove(g).turnNumber == g.turnNumber && AutoMove(g).auto
  {
  }

  /** A call that fails leaves the record alone; if it was a sweeper's, its turn is dropped. */
  lemma StepFails(start: Record, s: Service, step: Step)
    requires Inv(start, s) && Possible(s, step) && step.Fails?
    ensures Inv(start, Do(s, step))
  {
    hide AfterMoves, LogOk, Sequential, Opening, PlayOnce, Accepted, AutoMove;
    WellFormedRecord(start, s);
    var s' := Do(s, step);
    assert WriterOk(s.rec, s.armed, s.writers[step.id]);
    assert WriterOk(s'.rec, s'.armed, s'.writers[step.id]);
    HandsKept(s, s', step.id);
  }

  /** The live turn's sweeper keeps it in hand through expiry and apply. */
  lemma StillTrying(s: Service, step: Step)
    requires WritersOk(s) && Possible(s, step) && (step.Expire? || step.Compute?)
    requires WellFormed(s.rec.state) && s.writers[step.id].owner == Sweeper(s.rec.version)
    requires s.writers[step.id].phase.Popped? ==> Expired(s.rec.state, s.writers[step.id], s.rec.version).phase.Ready?
    requires s.writers[step.id].phase.Holding? && s.writers[step.id].phase.version == s.rec.version ==>
               Accepted(s.writers[step.id].phase.st, s.writers[step.id].move)
    ensures InHands(Do(s, step), s.rec.version)
  {
    hide Accepted, PlayOnce, AutoMove;
    var w := s.writers[step.id];
    assert WriterOk(s.rec, s.armed, w);
    var w' := Do(s, step).writers[step.id];
    assert w'.owner == Sweeper(s.rec.version) && !w'.phase.Finished?;
  }

  lemma StepArm(start: Record, s: Service, step: Step)
    requires Inv(start, s) && Possible(s, step) && step.Arm?
    ensures Inv(start, Do(s, step))
  {
    hide AfterMoves, LogOk, Sequential, Opening, PlayOnce, Accepted, AutoMove;
    WellFormedRecord(start, s);
    var s' := Do(s, step);
    forall id | id in s'.writers
      ensures WriterOk(s'.rec, s'.armed, s'.writers[id])
    {
      OthersSurviveArming(s.rec, s.armed, s'.armed, s.writers[id]);
    }
    HandsKept(s, s', step.id);
    if s.writers[step.id].owner == Sweeper(s.rec.version) {
      assert s'.writers[step.id].owner == Sweeper(s.rec.version) && !s'.writers[step.id].phase.Finished?;
    }
  }

  /** Losing the swap means somebody else advanced the match. */
  lemma StepLose(start: Record, s: Service, step: Step)
    requires Inv(start, s) && Possible(s, step) && step.Commit? && s.rec.version != s.writers[step.id].phase.version
    ensures Inv(start, Do(s, step))
  {
    hide AfterMoves, LogOk, Sequential, Opening, PlayOnce, Accepted, AutoMove;
    WellFormedRecord(start, s);
    var s' := Do(s, step);
    var w := s.writers[step.id];
    assert WriterOk(s.rec, s.armed, w);
    assert WriterOk(s'.rec, s'.armed, s'.writers[step.id]);
    HandsKept(s, s', step.id);
  }

  lemma StepWin(start: Record, s: Service, step: Step)
    requires Inv(start, s) && Possible(s, step) && step.Commit? && s.rec.version == s.writers[step.id].phase.version
    ensures Inv(start, Do(s, step))
  {
    hide AfterMoves, LogOk, Sequential, Opening, PlayOnce, Accepted, AutoMove;
    WellFormedRecord(start, s);
    var s' := Do(s, step);
    var w := s.writers[step.id];
    assert WriterOk(s.rec, s.armed, w);
    AcceptedNamesTheTurn(s.rec.state, w.move);
    CommitKeepsRecord(start, s, step.id, w.move, w.phase.deadline);
    forall id | id in s'.writers
      ensures WriterOk(s'.rec, s'.armed, s'.writers[id])
    {
      OthersSurviveCommit(s.rec, s'.rec, s.armed, s.writers[id]);
    }
    LiveBefore(s, w.move);
    assert ReportsOk(s');
    assert PlaysOk(s');
  }

  lemma LiveBefore(s: Service, m: Move)
    requires WellFormed(s.rec.state) && Accepted(s.rec.state, m) && ReportsOk(s)
    ensures !s.rec.state.ended && s.reports == 0 && s.reporting == {}
  {
  }

  lemma StepKeeps(start: Record, s: Service, step: Step)
    requires Inv(start, s)
    ensures Inv(start, Do(s, step))
  {
    hide Inv;
    if Possible(s, step) {
      match step
      case Submit(_, _) => StepSubmit(start, s, step);
      case Read(_) => StepSubmit(start, s, step);
      case Report(_) => StepSubmit(start, s, step);
      case Pop(_, _) => StepPop(start, s, step);
      case Expire(_) => StepOwn(start, s, step);
      case Compute(_, _) => StepOwn(start, s, step);
      case Fails(_) => StepFails(start, s, step);
      case Arm(_) => StepArm(start, s, step);
      case Commit(id) =>
        if s.rec.version == s.writers[id].phase.version {
          StepWin(start, s, step);
        } else {
          StepLose(start, s, step);
        }
    }
  }

  lemma {:induction false} InvHolds(start: Record, steps: seq<Step>)
    requires Opening(start)
    ensures Inv(start, Run(start, steps))
  {
    if steps == [] {
      FreshIsStart(start.state);
    } else {
      InvHolds(start, steps[..|steps| - 1]);
      StepKeeps(start, Run(start, steps[..|steps| - 1]), steps[|steps| - 1]);
    }
  }

  // ---- what it means ----

  /**
   Every interleaving is one sequential match: the stored state and log are those of a single writer
   playing the committed moves in order, the log is numbered consecutively, a writer that lost left
   nothing behind, and version and turn never part.
   */
  lemma Linearizable(start: Record, steps: seq<Step>)
    requires Opening(start)
    ensures var s := Run(start, steps);
      && Sequential(start, s.committed) == Some(s.rec) && LogOk(s.rec)
      && s.rec.version == s.rec.state.turnNumber == |s.committed| + 1 && s.rec.state.seqNo == s.rec.nextSeq
      && (s.rec.state.ended ==> |s.committed| == 6 && s.rec.nextSeq == 12 && s.rec.state.winner != "")
  {
    InvHolds(start, steps);
  }

  /** A writer commits at most once, and a deadline popped for turn N commits at turn N or not at all. */
  lemma OneMovePerWriter(start: Record, steps: seq<Step>, i: nat, j: nat)
    requires Opening(start) && i < |Run(start, steps).committed| && j < |Run(start, steps).committed|
    ensures var c := Run(start, steps).committed;
      && (c[i].writer == c[j].writer ==> i == j)
      && (c[i].move.turnNumber != 0 ==> c[i].move.turnNumber == i + 1)
      && (c[i].move.auto ==> c[i].writer in Run(start, steps).writers
                             && Run(start, steps).writers[c[i].writer].owner == Sweeper(i + 1))
  {
    InvHolds(start, steps);
  }

  /** A move that names its turn loses at most one compare-and-swap, so it never runs out of attempts. */
  lemma NamedMoveLosesAtMostOnce(start: Record, steps: seq<Step>, id: nat)
    requires Opening(start) && id in Run(start, steps).writers
    ensures var w := Run(start, steps).writers[id]; w.move.turnNumber != 0 ==> w.lost <= 1 < ATTEMPTS
  {
    InvHolds(start, steps);
    var s := Run(start, steps);
    assert WriterOk(s.rec, s.armed, s.writers[id]);
  }

  /**
   Unless a sweeper is at work on it, the current turn of a live match is armed exactly when it was not dropped:
   popped by a sweeper that failed, and armed by nobody since. Only failures drop a turn.
   */
  lemma ClockNeverStops(start: Record, steps: seq<Step>)
    requires Opening(start)
    ensures var s := Run(start, steps);
      s.rec.state.ended || InHands(s, s.rec.version) || (s.rec.version in s.armed <==> s.rec.version !in s.dropped)
    ensures (forall i :: 0 <= i < |steps| ==> !steps[i].Fails?) ==> Run(start, steps).dropped == {}
  {
    InvHolds(start, steps);
    NothingDropped(start, steps);
  }

  lemma {:induction false} NothingDropped(start: Record, steps: seq<Step>)
    ensures (forall i :: 0 <= i < |steps| ==> !steps[i].Fails?) ==> Run(start, steps).dropped == {}
  {
    if steps != [] {
      var n := |steps| - 1;
      NothingDropped(start, steps[..n]);
      assert (forall i :: 0 <= i < |steps| ==> !steps[i].Fails?) ==> !steps[n].Fails?;
    }
  }

  /** One failure is enough: a sweeper that pops the first deadline and fails leaves nothing counting down. */
  lemma AFailedSweepStrandsTheTurn(start: Record)
    requires Opening(start)
    ensures var s := Run(start, [Pop(0, 1), Fails(0)]);
      !s.rec.state.ended && s.rec.version !in s.armed && !InHands(s, s.rec.version)
  {
    var steps := [Pop(0, 1), Fails(0)];
    assert steps[..1] == [Pop(0, 1)] && steps[..1][..0] == [];
    var a := Run(start, []);
    var b := Do(a, Pop(0, 1));
    assert Run(start, steps[..1]) == b;
    assert Run(start, steps) == Do(b, Fails(0));
  }

  /** The end of a match is reported at most once, and only by the writer whose commit ended it. */
  lemma EndReportedOnce(start: Record, steps: seq<Step>)
    requires Opening(start)
    ensures var s := Run(start, steps); s.reports <= 1 && (s.reports == 1 ==> s.rec.state.ended)
    ensures var s := Run(start, steps); s.rec.state.ended && s.reporting == {} ==> s.reports == 1
  {
    InvHolds(start, steps);
  }
}
