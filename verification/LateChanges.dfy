/**
 Roster changes drained after the last tick: they are in the checksum of the recording and in none of its frames.
 When such a recording verifies is decided seat by seat.
 */
module LateChanges {
  import opened Wrappers
  import opened SimTypes
  import opened Arena
  import opened Constancy
  import opened ReplayFormat
  import opened Replay

  // ---- one seat ----

  function SeatApplied(p: Player, e: RosterEvent): Player {
    if e.id != p.id then p
    else
      match e.kind
      case Depart => if p.left then p else p.(left := true, linger := LINGER_TICKS)
      case Rejoin =>
        if !p.left then p
        else p.(left := false, linger := 0, respawn := if !p.alive && p.respawn == 0 then RESPAWN_TICKS else p.respawn)
      case Unknown(_) => p
  }

  function SeatAfter(p: Player, es: seq<RosterEvent>): (q: Player)
    ensures q.id == p.id
  {
    if es == [] then p else SeatApplied(SeatAfter(p, es[..|es| - 1]), es[|es| - 1])
  }

  predicate Names(es: seq<RosterEvent>, kind: Roster, id: nat) {
    exists i :: 0 <= i < |es| && es[i] == RosterEvent(id, kind)
  }

  /** The last departure or return that names a present seat is a departure. */
  predicate EndsGone(es: seq<RosterEvent>, id: nat) {
    es != []
    && var e := es[|es| - 1];
       if e == RosterEvent(id, Depart) then true
       else if e == RosterEvent(id, Rejoin) then false
       else EndsGone(es[..|es| - 1], id)
  }

  /** A departed seat sees no return; a present one does not end gone, and is only taken out and back if that sets it no respawn. */
  predicate Unmarked(p: Player, es: seq<RosterEvent>) {
    if p.left then !Names(es, Rejoin, p.id)
    else !EndsGone(es, p.id) && (Names(es, Depart, p.id) ==> p.alive || p.respawn > 0)
  }

  lemma NamesLast(es: seq<RosterEvent>, kind: Roster, id: nat)
    requires es != []
    ensures Names(es, kind, id) <==> Names(es[..|es| - 1], kind, id) || es[|es| - 1] == RosterEvent(id, kind)
  {
    var n := |es| - 1;
    if Names(es, kind, id) {
      var i :| 0 <= i < |es| && es[i] == RosterEvent(id, kind);
      assert i < n ==> es[..n][i] == es[i];
    }
    if Names(es[..n], kind, id) {
      var i :| 0 <= i < n && es[..n][i] == RosterEvent(id, kind);
      assert es[i] == RosterEvent(id, kind);
    }
  }

  /** A seat that was gone is as it was until a return names it, and can never look so again. */
  lemma {:induction false} GoneSeatAfter(p: Player, es: seq<RosterEvent>)
    requires p.left && p.linger < LINGER_TICKS
    ensures var q := SeatAfter(p, es);
      if Names(es, Rejoin, p.id) then !q.left || q.linger == LINGER_TICKS else q == p
  {
    hide Names;
    if es != [] {
      GoneSeatAfter(p, es[..|es| - 1]);
      NamesLast(es, Rejoin, p.id);
    } else {
      NobodyNamed(Rejoin, p.id);
    }
  }

  lemma NobodyNamed(kind: Roster, id: nat)
    ensures !Names([], kind, id)
  {
  }

  /** A seat that was present has changed in three things at most. */
  lemma {:induction false} PresentSeatAfter(p: Player, es: seq<RosterEvent>)
    requires !p.left && p.linger == 0
    ensures var q, gone := SeatAfter(p, es), EndsGone(es, p.id);
      && q == p.(left := gone, linger := if gone then LINGER_TICKS else 0, respawn := q.respawn)
      && (q.respawn == p.respawn || (!p.alive && p.respawn == 0 && q.respawn == RESPAWN_TICKS && Names(es, Depart, p.id)))
      && (!gone && Names(es, Depart, p.id) && !p.alive && p.respawn == 0 ==> q.respawn == RESPAWN_TICKS)
      && (gone ==> Names(es, Depart, p.id))
  {
    hide Names;
    if es != [] {
      PresentSeatAfter(p, es[..|es| - 1]);
      NamesLast(es, Depart, p.id);
    } else {
      NobodyNamed(Depart, p.id);
    }
  }

  lemma SeatIsUnmarkedExactly(p: Player, es: seq<RosterEvent>)
    requires if p.left then p.linger < LINGER_TICKS else p.linger == 0
    ensures SeatAfter(p, es) == p <==> Unmarked(p, es)
  {
    hide Names, SeatAfter, EndsGone;
    if p.left {
      GoneSeatAfter(p, es);
    } else {
      PresentSeatAfter(p, es);
    }
  }

  // ---- all seats ----

  lemma {:induction false} SameIdsSameIndex(a: seq<Player>, b: seq<Player>, id: nat, from: nat)
    requires |a| == |b| && from <= |a| && forall i :: 0 <= i < |a| ==> a[i].id == b[i].id
    ensures IndexOf(a, id, from) == IndexOf(b, id, from)
    decreases |a| - from
  {
    if from < |a| && a[from].id != id {
      SameIdsSameIndex(a, b, id, from + 1);
    }
  }

  /** The seat a change that names its id finds. */
  predicate Found(players: seq<Player>, i: nat) {
    i < |players| && IndexOf(players, players[i].id) == Some(i)
  }

  predicate NoMarks(w: State, es: seq<RosterEvent>) {
    forall i :: 0 <= i < |w.players| && Found(w.players, i) ==> Unmarked(w.players[i], es)
  }

  lemma AppliedSeatBySeat(w: State, e: RosterEvent)
    ensures var b := Applied(w, e);
      && b == w.(players := b.players) && |b.players| == |w.players|
      && forall i :: 0 <= i < |w.players| ==>
        b.players[i] == if Found(w.players, i) then SeatApplied(w.players[i], e) else w.players[i]
  {
    var k := IndexOf(w.players, e.id);
    forall i | 0 <= i < |w.players| && Found(w.players, i) && w.players[i].id == e.id
      ensures k == Some(i)
    {
    }
    hide IndexOf;
  }

  lemma {:induction false} ChangesSeatBySeat(w: State, es: seq<RosterEvent>)
    ensures var b := AllApplied(w, es);
      && b == w.(players := b.players) && |b.players| == |w.players|
      && forall i :: 0 <= i < |w.players| ==>
        b.players[i] == if Found(w.players, i) then SeatAfter(w.players[i], es) else w.players[i]
  {
    if es != [] {
      var n := |es| - 1;
      var a := AllApplied(w, es[..n]);
      ChangesSeatBySeat(w, es[..n]);
      AppliedSeatBySeat(a, es[n]);
      forall i | 0 <= i < |w.players|
        ensures Found(a.players, i) <==> Found(w.players, i)
      {
        SameIdsSameIndex(w.players, a.players, w.players[i].id, 0);
      }
      hide Applied, Found, SeatApplied;
    }
  }

  /** Changes leave the seats as they were exactly when they leave no seat marked. */
  lemma ChangesLeaveNoMarkExactly(w: State, es: seq<RosterEvent>)
    requires Lingers(w, LINGER_TICKS - 1)
    ensures AllApplied(w, es).players == w.players <==> NoMarks(w, es)
  {
    ChangesSeatBySeat(w, es);
    hide AllApplied, SeatAfter, Unmarked, Found;
    var b := AllApplied(w, es);
    forall i | 0 <= i < |w.players|
      ensures b.players[i] == w.players[i] <==> (Found(w.players, i) ==> Unmarked(w.players[i], es))
    {
      SeatIsUnmarkedExactly(w.players[i], es);
    }
  }

  // ---- a whole match ----

  lemma OneChangeKeepsLingers(w: State, e: RosterEvent)
    requires Lingers(w, LINGER_TICKS)
    ensures Lingers(Applied(w, e), LINGER_TICKS)
  {
    AppliedSeatBySeat(w, e);
    hide Applied, Found;
  }

  lemma {:induction false} ChangesKeepLingers(w: State, es: seq<RosterEvent>)
    requires Lingers(w, LINGER_TICKS)
    ensures Lingers(AllApplied(w, es), LINGER_TICKS)
  {
    hide Lingers, Applied;
    if es != [] {
      ChangesKeepLingers(w, es[..|es| - 1]);
      OneChangeKeepsLingers(AllApplied(w, es[..|es| - 1]), es[|es| - 1]);
    }
  }

  /** Between ticks, a seat that is gone has less than its full linger left. */
  lemma {:induction false} LiveLingers(r: Rules, w: State, ticks: seq<TickIn>)
    requires Played(r, w, ticks) && Lingers(w, LINGER_TICKS - 1)
    ensures Lingers(Live(r, w, ticks), LINGER_TICKS - 1)
  {
    hide Step;
    if ticks != [] {
      var n := |ticks| - 1;
      ShorterPlayed(r, w, ticks, n);
      LiveLingers(r, w, ticks[..n]);
      var before := Live(r, w, ticks[..n]);
      ChangesKeepLingers(before, ticks[n].events);
      EventsLeaveTheClock(before, ticks[n].events);
      StepChargesLingers(r, AllApplied(before, ticks[n].events), ticks[n].inputs);
    }
  }

  /**
   A recording closed with any changes pending verifies exactly when they leave no seat marked, for a checksum
   that tells apart the two worlds compared: the last one played and what the changes make of it.
   */
  lemma LateChangesAreADesync(h: Header, streams: Streams, ticks: seq<TickIn>, trailing: seq<RosterEvent>, digest: State -> nat)
    requires Played(RulesOf(h, streams), StartOf(h), ticks) && |ticks| <= MAX_REPLAY_TICKS
    requires var live := Live(RulesOf(h, streams), StartOf(h), ticks);
      digest(live) == digest(AllApplied(live, trailing)) ==> live.players == AllApplied(live, trailing).players
    ensures var rec, live := Recorded(h, streams, ticks, trailing, digest), Live(RulesOf(h, streams), StartOf(h), ticks);
      digest(Replayed(RulesOf(h, streams), StartOf(h), rec.frames, FinalTick(rec)).0) == rec.checksum <==> NoMarks(live, trailing)
  {
    hide Step, NoMarks, AllApplied;
    var live := Live(RulesOf(h, streams), StartOf(h), ticks);
    MatchesAreShort(h, streams, ticks);
    ReplayIsTheMatch(RulesOf(h, streams), StartOf(h), ticks, |ticks|);
    assert ticks[..|ticks|] == ticks;
    LiveLingers(RulesOf(h, streams), StartOf(h), ticks);
    ChangesLeaveNoMarkExactly(live, trailing);
    ChangesSeatBySeat(live, trailing);
    hide Opening, RulesOf;
  }

  /** One departure is enough: a match stopped before its first tick, and its only player gone as it stopped. */
  lemma OneLateDepartShows(streams: Streams)
    ensures var h := Header(20, 1800, 7, [Seat(1, false)]);
      !NoMarks(Live(RulesOf(h, streams), StartOf(h), []), [RosterEvent(1, Depart)])
  {
    var h := Header(20, 1800, 7, [Seat(1, false)]);
    var w := StartOf(h);
    assert w.players[0].id == 1 && !w.players[0].left;
    assert IndexOf(w.players, 1) == Some(0);
    assert Found(w.players, 0) && EndsGone([RosterEvent(1, Depart)], 1);
  }
}
