/**
 What a delta owes a client and what applying one means, stated on maps from id to entity, and
 the theorem that the two undo each other.
 */
module DeltaSpec {
  import opened Wrappers
  import opened Keyed
  import opened Snapshots

  function ChangedFields(b: Avatar, c: Avatar): Fields {
    Fields(c.x != b.x, c.y != b.y, c.aim != b.aim, c.hp != b.hp, c.score != b.score, c.bot != b.bot,
           c.inputSeq != b.inputSeq)
  }

  /** Whether a player has anything to say against what the client holds. */
  predicate Owed(b: Option<Avatar>, c: Avatar) {
    b.None? || b.value.(changed := NO_FIELDS) != c.(changed := NO_FIELDS)
  }

  /** The player's delta: the whole avatar, or the changed fields with every other one zero. */
  function PlayerDelta(b: Option<Avatar>, c: Avatar): Avatar {
    match b
    case None => c.(changed := ALL_FIELDS)
    case Some(b) =>
      Avatar(if c.x != b.x then c.x else 0, if c.y != b.y then c.y else 0,
             if c.aim != b.aim then c.aim else 0, if c.hp != b.hp then c.hp else 0,
             if c.score != b.score then c.score else 0, c.bot != b.bot && c.bot,
             if c.inputSeq != b.inputSeq then c.inputSeq else 0, ChangedFields(b, c))
  }

  /** Laying a player's delta over what the client holds for that id, if anything. */
  function Patch(b: Option<Avatar>, d: Avatar): Avatar {
    var o := if b.Some? then b.value.(changed := NO_FIELDS) else BLANK;
    Avatar(if d.changed.x then d.x else o.x, if d.changed.y then d.y else o.y,
           if d.changed.aim then d.aim else o.aim, if d.changed.hp then d.hp else o.hp,
           if d.changed.score then d.score else o.score,
           if d.changed.bot then d.bot else o.bot,
           if d.changed.inputSeq then d.inputSeq else o.inputSeq, NO_FIELDS)
  }

  /** Patching with a player's delta restores the player; without one, the baseline was right. */
  lemma PatchUndoesDelta(b: Option<Avatar>, c: Avatar)
    ensures Patch(b, PlayerDelta(b, c)) == c.(changed := NO_FIELDS)
    ensures !Owed(b, c) ==> b.value.(changed := NO_FIELDS) == c.(changed := NO_FIELDS)
  {
  }

  // ---- the server's side ----

  ghost function PlayersOwed(base: map<nat, Avatar>, cur: map<nat, Avatar>): map<nat, Avatar> {
    map id | id in cur && Owed(Get(base, id), cur[id]) :: PlayerDelta(Get(base, id), cur[id])
  }

  ghost function ProjectilesOwed(base: map<nat, Point>, cur: map<nat, Point>): map<nat, Point> {
    map id | id in cur && Get(base, id) != Some(cur[id]) :: cur[id]
  }

  ghost function Units(ids: seq<nat>): seq<Entity<()>> {
    seq(|ids|, i requires 0 <= i < |ids| => Entity(ids[i], ()))
  }

  ghost function UnitMap(ids: set<nat>): map<nat, ()> {
    map id | id in ids :: ()
  }

  ghost function SortedIds(ids: set<nat>): seq<nat> {
    var s := Ascend(UnitMap(ids));
    seq(|s|, i requires 0 <= i < |s| => s[i].id)
  }

  lemma UnitsDenote(s: seq<nat>)
    ensures ById(Units(s)) == UnitMap(set id | id in s)
  {
    var u, m := ById(Units(s)), UnitMap(set id | id in s);
    forall id
      ensures id in u <==> id in m
    {
      ByIdKeys(Units(s), id);
      if id in s {
        var i :| 0 <= i < |s| && s[i] == id;
        assert Units(s)[i].id == id;
      }
    }
    forall id | id in m
      ensures u[id] == m[id]
    {
      assert u[id] == ();
    }
    assert u == m;
  }

  lemma IsSortedIds(s: seq<nat>, ids: set<nat>)
    requires AscendingIds(s) && forall id :: id in s <==> id in ids
    ensures s == SortedIds(ids)
  {
    UnitsDenote(s);
    assert (set id | id in s) == ids;
    IsAscend(Units(s), UnitMap(ids));
  }

  lemma SortedIdsDenotes(ids: set<nat>)
    ensures AscendingIds(SortedIds(ids)) && forall id :: id in SortedIds(ids) <==> id in ids
  {
    var m := UnitMap(ids);
    var s := Ascend(m);
    AscendDenotes(m);
    forall id
      ensures id in SortedIds(ids) <==> id in ids
    {
      ByIdKeys(s, id);
      if id in ids {
        var i :| 0 <= i < |s| && s[i].id == id;
        assert SortedIds(ids)[i] == id;
      }
      if id in SortedIds(ids) {
        var i :| 0 <= i < |s| && SortedIds(ids)[i] == id;
        assert s[i].id == id;
      }
    }
  }

  /** The one message a client holding `base` is owed for `cur`. */
  ghost function DeltaOf(base: Snapshot, cur: Snapshot, events: seq<GameEvent>): Snapshot {
    Snapshot(cur.tick, cur.roomId, cur.ended, cur.winner, base.tick,
             Ascend(PlayersOwed(ById(base.players), ById(cur.players))),
             Ascend(ProjectilesOwed(ById(base.projectiles), ById(cur.projectiles))),
             SortedIds(ById(base.projectiles).Keys - ById(cur.projectiles).Keys),
             events)
  }

  // ---- the client's side ----

  ghost function Patched(base: map<nat, Avatar>, d: map<nat, Avatar>): map<nat, Avatar> {
    map id | id in base.Keys + d.Keys :: if id in d then Patch(Get(base, id), d[id]) else base[id].(changed := NO_FIELDS)
  }

  ghost function Moved(base: map<nat, Point>, gone: set<nat>, d: map<nat, Point>): map<nat, Point> {
    map id | id in (base.Keys - gone) + d.Keys :: if id in d then d[id] else base[id]
  }

  ghost function Ids(s: seq<nat>): set<nat> {
    set id | id in s
  }

  function Cleared(players: seq<PlayerSnap>): (r: seq<PlayerSnap>)
    ensures |r| == |players|
    ensures forall i :: 0 <= i < |r| ==> r[i] == Entity(players[i].id, players[i].v.(changed := NO_FIELDS))
  {
    seq(|players|, i requires 0 <= i < |players| => Entity(players[i].id, players[i].v.(changed := NO_FIELDS)))
  }

  /** What a client must hold after message `d`, or None when the message is of no use to it. */
  ghost function Applied(base: Option<Snapshot>, d: Snapshot): Option<Snapshot> {
    if !WellOrdered(d) then None
    else if d.baselineTick == 0 then Some(d.(players := Cleared(d.players), removed := []))
    else if base.None? || base.value.tick != d.baselineTick || !WellOrdered(base.value) then None
    else Some(Snapshot(d.tick, d.roomId, d.ended, d.winner, 0,
                       Ascend(Patched(ById(base.value.players), ById(d.players))),
                       Ascend(Moved(ById(base.value.projectiles), Ids(d.removed), ById(d.projectiles))),
                       [], d.events))
  }

  // ---- the round trip ----

  lemma ChangedIsClear(s: Snapshot, id: nat)
    requires IsState(s) && id in ById(s.players)
    ensures ById(s.players)[id].changed == NO_FIELDS
  {
    ByIdKeys(s.players, id);
    var i :| 0 <= i < |s.players| && s.players[i].id == id;
    ByIdAt(s.players, i);
  }

  /** Players survive the trip exactly when nobody in the baseline has left the roster. */
  lemma PlayersRoundTrip(base: Snapshot, cur: Snapshot)
    requires IsState(base) && IsState(cur)
    ensures var b, c := ById(base.players), ById(cur.players);
      Patched(b, PlayersOwed(b, c)) == c <==> b.Keys <= c.Keys
  {
    var b, c := ById(base.players), ById(cur.players);
    var p := Patched(b, PlayersOwed(b, c));
    forall id | id in c
      ensures id in p && p[id] == c[id]
    {
      ChangedIsClear(cur, id);
      PatchUndoesDelta(Get(b, id), c[id]);
    }
    assert p.Keys == b.Keys + c.Keys;
    if b.Keys <= c.Keys {
      assert p.Keys == c.Keys;
    }
  }

  lemma ProjectilesRoundTrip(b: map<nat, Point>, c: map<nat, Point>)
    ensures Moved(b, b.Keys - c.Keys, ProjectilesOwed(b, c)) == c
  {
    var m := Moved(b, b.Keys - c.Keys, ProjectilesOwed(b, c));
    assert m.Keys == c.Keys;
  }

  /** Every message the server builds passes the client's own check. */
  lemma DeltaIsWellOrdered(base: Snapshot, cur: Snapshot, events: seq<GameEvent>)
    requires EventsOrdered(events)
    ensures WellOrdered(DeltaOf(base, cur, events))
  {
    AscendDenotes(PlayersOwed(ById(base.players), ById(cur.players)));
    AscendDenotes(ProjectilesOwed(ById(base.projectiles), ById(cur.projectiles)));
    SortedIdsDenotes(ById(base.projectiles).Keys - ById(cur.projectiles).Keys);
  }

  lemma AppliedDelta(held: Snapshot, base: Snapshot, cur: Snapshot, events: seq<GameEvent>)
    requires IsState(base) && IsState(cur) && SameWorld(held, base)
    requires base.tick > 0 && EventsOrdered(events) && EventsOrdered(held.events)
    ensures var b, c := ById(base.players), ById(cur.players);
      Applied(Some(held), DeltaOf(base, cur, events))
      == Some(cur.(players := Ascend(Patched(b, PlayersOwed(b, c))), events := events))
  {
    assert held == base.(events := held.events) by {
      assert held.(events := []).(events := held.events) == held;
    }
    var d := DeltaOf(base, cur, events);
    DeltaIsWellOrdered(base, cur, events);
    var bq, cq := ById(base.projectiles), ById(cur.projectiles);
    AscendDenotes(PlayersOwed(ById(base.players), ById(cur.players)));
    AscendDenotes(ProjectilesOwed(bq, cq));
    SortedIdsDenotes(bq.Keys - cq.Keys);
    assert Ids(d.removed) == bq.Keys - cq.Keys;
    ProjectilesRoundTrip(bq, cq);
    IsAscend(cur.projectiles, cq);
  }

  /**
   The law of the encoding. A client whose copy of the baseline shows the same world, whatever
   events that copy still carries, rebuilds the current world exactly when every baseline player
   is still on the roster: the delta has no way to name one who is not.
   */
  lemma RoundTrip(held: Snapshot, base: Snapshot, cur: Snapshot, events: seq<GameEvent>)
    requires IsState(base) && IsState(cur) && SameWorld(held, base)
    requires base.tick > 0 && EventsOrdered(events) && EventsOrdered(held.events)
    ensures Applied(Some(held), DeltaOf(base, cur, events)) == Some(cur.(events := events))
       <==> ById(base.players).Keys <= ById(cur.players).Keys
  {
    AppliedDelta(held, base, cur, events);
    var b, c := ById(base.players), ById(cur.players);
    PlayersRoundTrip(base, cur);
    IsAscend(cur.players, c);
    AscendDenotes(Patched(b, PlayersOwed(b, c)));
    var p := Ascend(Patched(b, PlayersOwed(b, c)));
    assert cur.(players := p, events := events) == cur.(events := events) <==> p == cur.players by {
      assert cur.(players := p, events := events).players == p;
    }
  }

  /** A full snapshot needs no baseline and is never refused. */
  lemma FullAlwaysApplies(held: Option<Snapshot>, cur: Snapshot)
    requires IsState(cur) && EventsOrdered(cur.events)
    ensures Applied(held, cur) == Some(cur)
  {
    assert Cleared(cur.players) == cur.players;
  }

  /** Every field the mask does not name is zero, so that it costs nothing on the wire. */
  predicate OnlyChangedFields(v: Avatar) {
    && (!v.changed.x ==> v.x == 0) && (!v.changed.y ==> v.y == 0) && (!v.changed.aim ==> v.aim == 0)
    && (!v.changed.hp ==> v.hp == 0) && (!v.changed.score ==> v.score == 0) && (!v.changed.bot ==> !v.bot)
    && (!v.changed.inputSeq ==> v.inputSeq == 0)
  }

  lemma PlayerDeltaIsMinimal(b: Option<Avatar>, c: Avatar)
    requires c.changed == NO_FIELDS && (b.Some? ==> b.value.changed == NO_FIELDS) && Owed(b, c)
    ensures PlayerDelta(b, c).changed != NO_FIELDS && OnlyChangedFields(PlayerDelta(b, c))
  {
  }

  lemma FieldsAreMinimal(base: Snapshot, cur: Snapshot, events: seq<GameEvent>)
    requires IsState(base) && IsState(cur)
    ensures var d := DeltaOf(base, cur, events);
      forall i :: 0 <= i < |d.players| ==> d.players[i].v.changed != NO_FIELDS && OnlyChangedFields(d.players[i].v)
  {
    var d := DeltaOf(base, cur, events);
    var b, c := ById(base.players), ById(cur.players);
    AscendDenotes(PlayersOwed(b, c));
    forall i | 0 <= i < |d.players|
      ensures d.players[i].v.changed != NO_FIELDS && OnlyChangedFields(d.players[i].v)
    {
      var id := d.players[i].id;
      ByIdAt(d.players, i);
      ChangedIsClear(cur, id);
      if id in b {
        ChangedIsClear(base, id);
      }
      PlayerDeltaIsMinimal(Get(b, id), c[id]);
    }
  }

  /** A delta mentions a player, or a projectile, only when the client's copy is wrong about it. */
  lemma DeltaIsMinimal(base: Snapshot, cur: Snapshot, events: seq<GameEvent>, id: nat)
    requires IsState(base) && IsState(cur)
    ensures var d := DeltaOf(base, cur, events);
      && (id in ById(d.players) <==>
          id in ById(cur.players) && Get(ById(base.players), id) != Get(ById(cur.players), id))
      && (id in ById(d.projectiles) <==>
          id in ById(cur.projectiles) && Get(ById(base.projectiles), id) != Get(ById(cur.projectiles), id))
      && (id in d.removed <==> id in ById(base.projectiles) && id !in ById(cur.projectiles))
    ensures var d := DeltaOf(base, cur, events);
      forall i :: 0 <= i < |d.players| ==> d.players[i].v.changed != NO_FIELDS && OnlyChangedFields(d.players[i].v)
  {
    FieldsAreMinimal(base, cur, events);
    AscendDenotes(PlayersOwed(ById(base.players), ById(cur.players)));
    AscendDenotes(ProjectilesOwed(ById(base.projectiles), ById(cur.projectiles)));
    SortedIdsDenotes(ById(base.projectiles).Keys - ById(cur.projectiles).Keys);
    if id in ById(cur.players) {
      ChangedIsClear(cur, id);
      if id in ById(base.players) {
        ChangedIsClear(base, id);
      }
    }
  }
}
