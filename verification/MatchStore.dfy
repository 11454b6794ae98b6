/**
 The stored half of a match: state, version and log advance together under one compare-and-swap, and a
 cursor is answered with the run of events it is owed or told that the window has moved past it.
 */
module MatchStore {
  import opened Wrappers
  import opened CardGame

  const LOG_WINDOW: nat := 500

  datatype StoreError = NoMatch | VersionConflict

  datatype Record = Record(state: Game, version: nat, events: seq<Event>, nextSeq: nat)

  /** Events numbered on from `next`. */
  function WithNumbers(events: seq<Event>, next: nat): (r: seq<Event>)
    ensures |r| == |events|
    ensures forall i :: 0 <= i < |r| ==> r[i] == events[i].(seqNo := next + 1 + i)
  {
    seq(|events|, i requires 0 <= i < |events| => events[i].(seqNo := next + 1 + i))
  }

  function Trimmed(log: seq<Event>): seq<Event> {
    if |log| > LOG_WINDOW then log[|log| - LOG_WINDOW..] else log
  }

  function Appended(rec: Record, events: seq<Event>): Record {
    rec.(events := Trimmed(rec.events + WithNumbers(events, rec.nextSeq)), nextSeq := rec.nextSeq + |events|)
  }

  /** The state as stored carries the number of the last event that produced it. */
  function Stamped(g: Game, nextSeq: nat, events: seq<Event>): Game {
    if events == [] then g else g.(seqNo := nextSeq + |events|)
  }

  /** The retained log is the run of consecutive numbers that ends at the cursor. */
  ghost predicate LogOk(rec: Record) {
    && |rec.events| <= rec.nextSeq && |rec.events| <= LOG_WINDOW
    && (rec.nextSeq > 0 ==> rec.events != [])
    && forall i :: 0 <= i < |rec.events| ==> rec.events[i].seqNo == rec.nextSeq - |rec.events| + 1 + i
  }

  lemma AppendKeepsLog(rec: Record, events: seq<Event>)
    requires LogOk(rec)
    ensures LogOk(Appended(rec, events))
  {
  }

  /** Nothing is dropped from the log that it has room for: it keeps the newest five hundred. */
  lemma LogKeepsTheNewest(rec: Record, events: seq<Event>)
    ensures var all, kept := rec.events + WithNumbers(events, rec.nextSeq), Appended(rec, events).events;
      |kept| == (if |all| <= 500 then |all| else 500) && kept == all[|all| - |kept|..]
  {
  }

  /** What a cursor is owed: None when its next event is no longer retained. */
  function Since(rec: Record, since: nat): Option<seq<Event>> {
    if rec.events == [] then if since != rec.nextSeq then None else Some([])
    else if since + 1 < rec.events[0].seqNo then None
    else Some(Later(rec.events, since))
  }

  function Later(events: seq<Event>, since: nat): seq<Event> {
    if events == [] then []
    else Later(events[..|events| - 1], since) + if events[|events| - 1].seqNo > since then [events[|events| - 1]] else []
  }

  lemma {:induction false} LaterIsSuffix(events: seq<Event>, first: nat, since: nat)
    requires forall i :: 0 <= i < |events| ==> events[i].seqNo == first + i
    requires since + 1 >= first
    ensures Later(events, since) == if since + 1 - first <= |events| then events[since + 1 - first..] else []
  {
    if events != [] {
      var n, k := |events| - 1, since + 1 - first;
      LaterIsSuffix(events[..n], first, since);
      assert events[n].seqNo > since <==> n >= k;
      hide Later;
      LaterSnoc(events, since);
      if k <= n {
        assert events[k..] == events[..n][k..] + [events[n]];
      } else if k == n + 1 {
        assert events[k..] == [];
      }
    }
  }

  lemma LaterSnoc(events: seq<Event>, since: nat)
    requires events != []
    ensures var n := |events| - 1;
      Later(events, since) == Later(events[..n], since) + if events[n].seqNo > since then [events[n]] else []
  {
  }

  /**
   An answered cursor gets exactly the numbers after it, consecutively, up to the current one. It is
   refused when its next event has been trimmed away, or when it is ahead of a log that is still empty.
   */
  lemma SinceIsTheRun(rec: Record, since: nat)
    requires LogOk(rec)
    ensures Since(rec, since).None? <==> since + |rec.events| < rec.nextSeq || (rec.events == [] && since > 0)
    ensures Since(rec, since).Some? ==>
      var run := Since(rec, since).value;
      && |run| == (if since < rec.nextSeq then rec.nextSeq - since else 0)
      && forall i :: 0 <= i < |run| ==> run[i].seqNo == since + 1 + i && run[i] == rec.events[|rec.events| - |run| + i]
  {
    hide Later;
    if rec.events != [] && since + 1 >= rec.events[0].seqNo {
      LaterIsSuffix(rec.events, rec.events[0].seqNo, since);
    }
  }

  class MemoryStore {
    var m: map<string, Record>

    constructor ()
      ensures m == map[]
    {
      m := map[];
    }

    /** Gives every event its number and keeps the newest of the log. */
    method Append(rec: Record, events: seq<Event>) returns (rec': Record, stored: seq<Event>)
      ensures rec' == Appended(rec, events) && stored == WithNumbers(events, rec.nextSeq)
    {
      stored := [];
      rec' := rec;
      var i := 0;
      while i < |events|
        invariant 0 <= i <= |events|
        invariant stored == WithNumbers(events, rec.nextSeq)[..i]
        invariant rec' == rec.(events := rec.events + stored, nextSeq := rec.nextSeq + i)
      {
        var e := events[i].(seqNo := rec'.nextSeq + 1);
        rec' := rec'.(nextSeq := rec'.nextSeq + 1, events := rec'.events + [e]);
        stored := stored + [e];
        assert rec.events + stored == rec.events + stored[..i] + [e];
        i := i + 1;
      }
      assert stored == WithNumbers(events, rec.nextSeq);
      var over := |rec'.events| - LOG_WINDOW;
      if over > 0 {
        rec' := rec'.(events := rec'.events[over..]);
      }
    }

    method Create(st: Game, events: seq<Event>) returns (st': Game, stored: seq<Event>)
      modifies this
      ensures stored == WithNumbers(events, 0) && st' == Stamped(st, 0, events)
      ensures m == old(m)[st.matchId := Appended(Record(st', 1, [], 0), events)]
    {
      var rec;
      rec, stored := Append(Record(st, 1, [], 0), events);
      st' := st;
      if |stored| > 0 {
        st' := st.(seqNo := stored[|stored| - 1].seqNo);
      }
      m := m[st.matchId := rec.(state := st')];
    }

    method Get(matchId: string) returns (r: Result<(Game, nat), StoreError>)
      ensures r == if matchId in m then Ok((m[matchId].state, m[matchId].version)) else Err(NoMatch)
    {
      if matchId !in m {
        return Err(NoMatch);
      }
      r := Ok((m[matchId].state, m[matchId].version));
    }

    /** State and events land together, or nothing does. */
    method Commit(st: Game, expected: nat, events: seq<Event>) returns (r: Result<(Game, seq<Event>), StoreError>)
      modifies this
      ensures st.matchId !in old(m) ==> r == Err(NoMatch) && m == old(m)
      ensures st.matchId in old(m) && old(m)[st.matchId].version != expected ==> r == Err(VersionConflict) && m == old(m)
      ensures st.matchId in old(m) && old(m)[st.matchId].version == expected ==>
        && m == old(m)[st.matchId := Committed(old(m)[st.matchId], st, events)]
        && r == Ok((m[st.matchId].state, WithNumbers(events, old(m)[st.matchId].nextSeq)))
    {
      if st.matchId !in m {
        return Err(NoMatch);
      }
      var rec := m[st.matchId];
      if rec.version != expected {
        return Err(VersionConflict);
      }
      var stored;
      var next := rec.nextSeq;
      rec, stored := Append(rec, events);
      var st' := st;
      if |stored| > 0 {
        st' := st.(seqNo := stored[|stored| - 1].seqNo);
      }
      m := m[st.matchId := rec.(state := st', version := expected + 1)];
      r := Ok((st', stored));
    }

    method SinceCursor(matchId: string, since: nat) returns (r: Result<(seq<Event>, nat, bool), StoreError>)
      ensures r == if matchId !in m then Err(NoMatch)
                   else match Since(m[matchId], since)
                        case None => Ok(([], m[matchId].nextSeq, true))
                        case Some(run) => Ok((run, m[matchId].nextSeq, false))
    {
      if matchId !in m {
        return Err(NoMatch);
      }
      var rec := m[matchId];
      if |rec.events| == 0 {
        return Ok(([], rec.nextSeq, since != rec.nextSeq));
      }
      if since + 1 < rec.events[0].seqNo {
        return Ok(([], rec.nextSeq, true));
      }
      var out := [];
      var i := 0;
      while i < |rec.events|
        invariant 0 <= i <= |rec.events|
        invariant out == Later(rec.events[..i], since)
      {
        assert rec.events[..i + 1][..i] == rec.events[..i];
        if rec.events[i].seqNo > since {
          out := out + [rec.events[i]];
        }
        i := i + 1;
      }
      assert rec.events[..i] == rec.events;
      r := Ok((out, rec.nextSeq, false));
    }
  }

  /** One successful commit. */
  function Committed(rec: Record, st: Game, events: seq<Event>): Record {
    Appended(rec, events).(state := Stamped(st, rec.nextSeq, events), version := rec.version + 1)
  }
}
