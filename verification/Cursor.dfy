/**
 The client half of the event log: a cursor over pushes that are lost, duplicated and reordered, repaired
 by syncs whose two reads happen at different moments. A run is any sequence of steps.
 */
module Cursor {
  import opened Wrappers
  import opened CardGame
  import opened MatchStore

  /** An update as it travels. `stateSeq` is the last event its state accounts for. */
  datatype Update = Update(fullResync: bool, stateSeq: nat, events: seq<Event>, current: nat)

  /** The update carries the consecutive run that starts right after the cursor and ends where it says. */
  ghost predicate IsRun(u: Update, seqNo: nat) {
    |u.events| == u.current - seqNo && forall i :: 0 <= i < |u.events| ==> u.events[i].seqNo == seqNo + 1 + i
  }

  /** The check as the page makes it, proved to be `Gap`. */
  method HasGap(u: Update, seqNo: nat) returns (gap: bool)
    ensures gap <==> Gap(u, seqNo)
  {
    if u.current <= seqNo {
      return false;
    }
    if |u.events| == 0 {
      return true;
    }
    if u.events[0].seqNo != seqNo + 1 {
      return true;
    }
    var i := 1;
    while i < |u.events|
      invariant 1 <= i <= |u.events|
      invariant forall j :: 0 <= j < i ==> u.events[j].seqNo == seqNo + 1 + j
    {
      if u.events[i].seqNo != u.events[i - 1].seqNo + 1 {
        return true;
      }
      i := i + 1;
    }
    gap := u.events[|u.events| - 1].seqNo != u.current;
  }

  ghost predicate Gap(u: Update, seqNo: nat) {
    u.current > seqNo && !IsRun(u, seqNo)
  }

  /** The answer to a cursor never looks like a hole to that cursor. */
  lemma DiffNeverGaps(rec: Record, since: nat, stateSeq: nat)
    requires LogOk(rec) && Since(rec, since).Some?
    ensures !Gap(Update(false, stateSeq, Since(rec, since).value, rec.nextSeq), since)
  {
    SinceIsTheRun(rec, since);
  }

  // ---- the system ----

  /**
   `shown` is what the page has rendered since it last took a whole state, at `from`. `repeats` counts
   the updates it rendered although their cursor was not ahead of its own.
   */
  datatype Client = Client(shown: seq<Event>, from: nat, cursor: nat, repeats: nat)

  /** A sync that has read the log and not yet the state. */
  datatype Pending = Pending(current: nat, events: Option<seq<Event>>)

  /** `log` is every event ever committed; the store retains the end of it. */
  datatype System = System(rec: Record, log: seq<Event>, mail: set<Update>, syncs: set<Pending>, client: Client)

  datatype Step =
    | Committing(events: seq<Event>)
    | SyncReadsLog(since: nat)
    | SyncReadsState(sync: Pending)
    | Handle(update: Update)

  ghost predicate Possible(s: System, step: Step) {
    match step
    case Committing(events) => events != []
    case SyncReadsLog(_) => true
    case SyncReadsState(p) => p in s.syncs
    case Handle(u) => u in s.mail
  }

  /** The page's rule. On a hole it takes the state, leaves the cursor and asks again. */
  ghost function Handled(c: Client, u: Update): Client {
    if u.fullResync then
      if u.current > c.cursor then Client([], u.current, u.current, 0) else c
    else if Gap(u, c.cursor) then c
    else
      Client(c.shown + u.events, c.from, if u.current > c.cursor then u.current else c.cursor,
             if u.current <= c.cursor && u.events != [] then c.repeats + 1 else c.repeats)
  }

  ghost function Do(s: System, step: Step): System {
    if !Possible(s, step) then s
    else
      match step
      case Committing(events) =>
        var stored := WithNumbers(events, s.rec.nextSeq);
        var rec := Appended(s.rec, events);
        s.(rec := rec, log := s.log + stored, mail := s.mail + {Update(false, rec.nextSeq, stored, rec.nextSeq)})
      case SyncReadsLog(since) => s.(syncs := s.syncs + {Pending(s.rec.nextSeq, Since(s.rec, since))})
      case SyncReadsState(p) =>
        var u := match p.events
                 case None => Update(true, s.rec.nextSeq, [], p.current)
                 case Some(run) => Update(false, s.rec.nextSeq, run, p.current);
        s.(mail := s.mail + {u})
      case Handle(u) => s.(client := Handled(s.client, u))
  }

  ghost function Run(steps: seq<Step>): System {
    if steps == [] then System(Record(Game("", 0, [], [], [], 0, 0, 0, 0, false, "", 0, map[]), 1, [], 0), [], {}, {}, Client([], 0, 0, 0))
    else Do(Run(steps[..|steps| - 1]), steps[|steps| - 1])
  }

  // ---- invariant ----

  /** A run of the log, from some event on, up to `current`. */
  ghost predicate Slice(log: seq<Event>, events: seq<Event>, current: nat) {
    |events| <= current <= |log| && events == log[current - |events|..current]
  }

  ghost predicate Genuine(log: seq<Event>, u: Update) {
    Slice(log, u.events, u.current) && u.current <= u.stateSeq <= |log|
  }

  ghost predicate ServerOk(s: System) {
    && LogOk(s.rec) && s.rec.nextSeq == |s.log|
    && (forall i :: 0 <= i < |s.log| ==> s.log[i].seqNo == i + 1)
    && s.rec.events == s.log[|s.log| - |s.rec.events|..]
    && (forall u :: u in s.mail ==> Genuine(s.log, u))
    && (forall p :: p in s.syncs ==> p.current <= |s.log| && (p.events.Some? ==> Slice(s.log, p.events.value, p.current)))
  }

  /** Everything after `from` up to the cursor has been shown, nothing else has, and in full order unless something repeated. */
  ghost predicate ClientOk(log: seq<Event>, c: Client) {
    && c.from <= c.cursor <= |log|
    && (forall e :: e in log[c.from..c.cursor] ==> e in c.shown)
    && (forall e :: e in c.shown ==> e in log[..c.cursor])
    && (if c.repeats == 0 then c.shown == log[c.from..c.cursor] else |c.shown| > c.cursor - c.from)
  }

  lemma CommitStep(s: System, events: seq<Event>)
    requires ServerOk(s) && ClientOk(s.log, s.client) && events != []
    ensures ServerOk(Do(s, Committing(events))) && ClientOk(Do(s, Committing(events)).log, s.client)
  {
    var s' := Do(s, Committing(events));
    AppendKeepsLog(s.rec, events);
    var stored := WithNumbers(events, s.rec.nextSeq);
    assert s'.log == s.log + stored;
    assert s'.rec.events == s'.log[|s'.log| - |s'.rec.events|..];
    forall u | u in s.mail
      ensures Genuine(s'.log, u)
    {
      SliceGrows(s.log, stored, u.events, u.current);
    }
    assert stored == s'.log[s'.rec.nextSeq - |stored|..s'.rec.nextSeq];
    forall p | p in s.syncs && p.events.Some?
      ensures Slice(s'.log, p.events.value, p.current)
    {
      SliceGrows(s.log, stored, p.events.value, p.current);
    }
    var c := s.client;
    assert s'.log[c.from..c.cursor] == s.log[c.from..c.cursor] && s'.log[..c.cursor] == s.log[..c.cursor];
  }

  lemma SliceGrows(log: seq<Event>, more: seq<Event>, events: seq<Event>, current: nat)
    requires Slice(log, events, current)
    ensures Slice(log + more, events, current)
  {
    assert (log + more)[current - |events|..current] == log[current - |events|..current];
  }

  lemma SyncStep(s: System, since: nat)
    requires ServerOk(s)
    ensures ServerOk(Do(s, SyncReadsLog(since)))
  {
    hide Genuine, WithNumbers, Appended;
    SinceIsTheRun(s.rec, since);
    hide Since;
    if Since(s.rec, since).Some? {
      RunIsSlice(s.log, s.rec.events, Since(s.rec, since).value);
    }
  }

  /** The end of the retained end of the log is the end of the log. */
  lemma RunIsSlice(log: seq<Event>, kept: seq<Event>, run: seq<Event>)
    requires |run| <= |kept| <= |log| && kept == log[|log| - |kept|..]
    requires forall i :: 0 <= i < |run| ==> run[i] == kept[|kept| - |run| + i]
    ensures Slice(log, run, |log|)
  {
    assert run == log[|log| - |run|..|log|];
  }

  /** An update that shows no hole extends what is shown by exactly what follows it, or repeats part of it. */
  lemma HandleStep(log: seq<Event>, c: Client, u: Update)
    requires ClientOk(log, c) && Genuine(log, u)
    requires forall i :: 0 <= i < |log| ==> log[i].seqNo == i + 1
    ensures ClientOk(log, Handled(c, u))
  {
    var c' := Handled(c, u);
    var first := u.current - |u.events|;
    if u.fullResync {
      if u.current > c.cursor {
        assert log[c'.from..c'.cursor] == [];
      }
    } else if !Gap(u, c.cursor) {
      if u.current > c.cursor {
        assert first == c.cursor;
        assert log[c.from..c'.cursor] == log[c.from..c.cursor] + u.events;
        assert log[..c'.cursor] == log[..c.cursor] + u.events;
      } else {
        forall e | e in u.events
          ensures e in log[..c.cursor]
        {
          var i :| 0 <= i < |u.events| && u.events[i] == e;
          assert log[..c.cursor][first + i] == e;
        }
        assert c.shown + [] == c.shown;
      }
    }
  }

  lemma StepKeeps(s: System, step: Step)
    requires ServerOk(s) && ClientOk(s.log, s.client)
    ensures ServerOk(Do(s, step)) && ClientOk(Do(s, step).log, Do(s, step).client)
  {
    if Possible(s, step) {
      match step
      case Committing(events) => CommitStep(s, events);
      case SyncReadsLog(since) => SyncStep(s, since);
      case SyncReadsState(p) => assert s.log[p.current..p.current] == [];
      case Handle(u) => HandleStep(s.log, s.client, u);
    }
  }

  lemma {:induction false} InvHolds(steps: seq<Step>)
    ensures ServerOk(Run(steps)) && ClientOk(Run(steps).log, Run(steps).client)
  {
    if steps != [] {
      InvHolds(steps[..|steps| - 1]);
      StepKeeps(Run(steps[..|steps| - 1]), steps[|steps| - 1]);
    }
  }

  /**
   Under any loss, duplication and reordering: everything between the last whole state and the cursor has
   been shown and nothing past the cursor has. It has been shown once each and in order exactly when no
   update whose cursor was not ahead of the page's own was rendered.
   */
  lemma NothingIsMissed(steps: seq<Step>)
    ensures var s := Run(steps);
      var c := s.client;
      && c.from <= c.cursor <= |s.log|
      && (forall e :: e in s.log[c.from..c.cursor] ==> e in c.shown)
      && (forall e :: e in c.shown ==> e in s.log[..c.cursor])
      && (c.shown == s.log[c.from..c.cursor] <==> c.repeats == 0)
  {
    InvHolds(steps);
  }

  /**
   The page keeps up. A push that arrives while it is up to date is shown; and wherever it is, one sync with its cursor
   brings it to the end of the log, showing everything in between unless that has been trimmed away.
   */
  lemma SyncCatchesUp(steps: seq<Step>)
    ensures var s := Run(steps);
      var c := s.client;
      var read := Pending(s.rec.nextSeq, Since(s.rec, c.cursor));
      var u := match read.events
               case None => Update(true, s.rec.nextSeq, [], read.current)
               case Some(run) => Update(false, s.rec.nextSeq, run, read.current);
      var b := Do(Do(s, SyncReadsLog(c.cursor)), SyncReadsState(read));
      && u in b.mail && c.cursor <= |s.log| && Do(b, Handle(u)).client.cursor == |s.log|
      && (read.events.Some? ==> Do(b, Handle(u)).client.shown == c.shown + s.log[c.cursor..])
  {
    InvHolds(steps);
    var s := Run(steps);
    hide Run, Since, WithNumbers, Appended;
    SinceIsTheRun(s.rec, s.client.cursor);
    if Since(s.rec, s.client.cursor).Some? {
      DiffNeverGaps(s.rec, s.client.cursor, s.rec.nextSeq);
      var run := Since(s.rec, s.client.cursor).value;
      RunIsSlice(s.log, s.rec.events, run);
      assert run == s.log[s.client.cursor..];
    }
  }

  lemma PushIsShown(steps: seq<Step>, events: seq<Event>)
    requires events != [] && Run(steps).client.cursor == |Run(steps).log|
    ensures var s := Run(steps);
      var a := Do(s, Committing(events));
      var u := Update(false, a.rec.nextSeq, a.log[|s.log|..], a.rec.nextSeq);
      && s.log <= a.log && |a.log| == |s.log| + |events| && u in a.mail
      && Do(a, Handle(u)).client.cursor == |a.log| && Do(a, Handle(u)).client.shown == s.client.shown + a.log[|s.log|..]
  {
    InvHolds(steps);
    var s := Run(steps);
    var a := Do(s, Committing(events));
    assert a.log[|s.log|..] == WithNumbers(events, s.rec.nextSeq);
  }

  /** A state is never older than the cursor it travels with. */
  lemma StateNeverLagsCursor(steps: seq<Step>, u: Update)
    requires u in Run(steps).mail
    ensures u.current <= u.stateSeq
  {
    InvHolds(steps);
  }

  /** The repeat is real: one duplicated push shows its events twice. */
  lemma DuplicatePushRepeats()
    ensures exists steps :: var c := Run(steps).client; |c.shown| == 2 && c.cursor == 1
  {
    var e := Blank(Dealt, "p");
    var stored := WithNumbers([e], 0);
    var u := Update(false, 1, stored, 1);
    var a := [Committing([e])];
    var b := a + [Handle(u)];
    var d := b + [Handle(u)];
    assert a[..0] == [] && b[..1] == a && d[..2] == b;
    assert Run([]).client == Client([], 0, 0, 0);
    assert u in Run(a).mail;
    assert Run(b) == Do(Run(a), Handle(u)) && Run(d) == Do(Run(b), Handle(u));
    assert Run(b).client == Client(stored, 0, 1, 0);
    assert Run(d).client == Client(stored + stored, 0, 1, 1);
  }
}
