/**
 The encoder of the tick path. One message and one free list of player messages are overwritten
 for every baseline of every tick, so everything here has to hold whatever was left in them.
 */
module DeltaEncoder {
  import opened Wrappers
  import opened Keyed
  import opened Snapshots
  import opened DeltaSpec

  /** A scratch player message. Nothing about its contents is assumed between uses. */
  class PlayerMsg {
    var id: nat
    var x: int
    var y: int
    var aim: int
    var hp: int
    var score: nat
    var bot: bool
    var inputSeq: nat
    var changed: Fields
    /** Its place in the free list, which is what makes two entries two messages. */
    ghost const slot: nat

    constructor (ghost slot: nat)
      ensures Value() == Entity(0, BLANK) && this.slot == slot
    {
      this.slot := slot;
      id, x, y, aim, hp, score, bot, inputSeq, changed := 0, 0, 0, 0, 0, 0, false, 0, NO_FIELDS;
    }

    function Value(): PlayerSnap
      reads this
    {
      Entity(id, Avatar(x, y, aim, hp, score, bot, inputSeq, changed))
    }
  }

  /** Fills `d` with what changed; when it answers false `d` must not be sent. */
  method FillPlayerDelta(d: PlayerMsg, base: Option<PlayerSnap>, cur: PlayerSnap) returns (anything: bool)
    requires cur.v.changed == NO_FIELDS && (base.Some? ==> base.value.v.changed == NO_FIELDS)
    modifies d
    ensures var b := if base.Some? then Some(base.value.v) else None;
      && anything == Owed(b, cur.v)
      && (anything ==> d.Value() == Entity(cur.id, PlayerDelta(b, cur.v)))
  {
    if base.None? {
      d.id, d.x, d.y, d.aim := cur.id, cur.v.x, cur.v.y, cur.v.aim;
      d.hp, d.score, d.bot, d.inputSeq := cur.v.hp, cur.v.score, cur.v.bot, cur.v.inputSeq;
      d.changed := ALL_FIELDS;
      return true;
    }
    var b, c := base.value.v, cur.v;
    anything := FillChanges(d, cur.id, b, c);
  }

  /** Nothing is assumed about `d`, so each of its fields has to be written. */
  method FillChanges(d: PlayerMsg, id: nat, b: Avatar, c: Avatar) returns (anything: bool)
    modifies d
    ensures anything == (ChangedFields(b, c) != NO_FIELDS)
    ensures anything ==> d.Value() == Entity(id, PlayerDelta(Some(b), c))
  {
    hide ChangedFields;
    d.id := id;
    d.x := if c.x != b.x then c.x else 0;
    d.y := if c.y != b.y then c.y else 0;
    d.aim := if c.aim != b.aim then c.aim else 0;
    d.hp := if c.hp != b.hp then c.hp else 0;
    d.score := if c.score != b.score then c.score else 0;
    d.bot := c.bot != b.bot && c.bot;
    d.inputSeq := if c.inputSeq != b.inputSeq then c.inputSeq else 0;
    var mask := ChangedFields(b, c);
    if mask == NO_FIELDS {
      return false;
    }
    d.changed := mask;
    anything := true;
  }

  /** A walk that has passed every smaller id stands on `id` if it is there at all. */
  lemma CursorFinds<V>(s: seq<Entity<V>>, i: nat, id: nat)
    requires Ascending(s) && i <= |s|
    requires i < |s| ==> id <= s[i].id
    requires i > 0 ==> s[i - 1].id < id
    ensures Get(ById(s), id) == if i < |s| && s[i].id == id then Some(s[i].v) else None
  {
    ByIdKeys(s, id);
    if i < |s| && s[i].id == id {
      ByIdAt(s, i);
    }
  }

  lemma OwedNothing(b: map<nat, Avatar>)
    ensures ById<Avatar>([]) == map[] && PlayersOwed(b, map[]) == map[]
  {
  }

  lemma OwedMapStep(b: map<nat, Avatar>, c: map<nat, Avatar>, id: nat, v: Avatar)
    requires id !in c
    ensures PlayersOwed(b, c[id := v])
         == if Owed(Get(b, id), v) then PlayersOwed(b, c)[id := PlayerDelta(Get(b, id), v)] else PlayersOwed(b, c)
  {
    var o, o' := PlayersOwed(b, c), PlayersOwed(b, c[id := v]);
    if Owed(Get(b, id), v) {
      assert o' == o[id := PlayerDelta(Get(b, id), v)];
    } else {
      assert o' == o;
    }
  }

  /** One more player, above all the others, adds its own delta or nothing. */
  lemma OwedStep(b: map<nat, Avatar>, c: map<nat, Avatar>, sent: seq<PlayerSnap>, p: PlayerSnap, more: seq<PlayerSnap>)
    requires Ascending(sent) && ById(sent) == PlayersOwed(b, c)
    requires forall id :: id in c ==> id < p.id
    requires more == sent + if Owed(Get(b, p.id), p.v) then [Entity(p.id, PlayerDelta(Get(b, p.id), p.v))] else []
    ensures Ascending(more) && ById(more) == PlayersOwed(b, c[p.id := p.v])
  {
    OwedMapStep(b, c, p.id, p.v);
    if Owed(Get(b, p.id), p.v) {
      var e := Entity(p.id, PlayerDelta(Get(b, p.id), p.v));
      ByIdAppend(sent, e);
      AscendingAppend(sent, e);
    } else {
      assert more == sent;
    }
  }

  lemma ProjOwedMapStep(b: map<nat, Point>, c: map<nat, Point>, id: nat, v: Point)
    requires id !in c
    ensures ProjectilesOwed(b, c[id := v])
         == if Get(b, id) != Some(v) then ProjectilesOwed(b, c)[id := v] else ProjectilesOwed(b, c)
  {
    var o, o' := ProjectilesOwed(b, c), ProjectilesOwed(b, c[id := v]);
    if Get(b, id) != Some(v) {
      assert o' == o[id := v];
    } else {
      assert o' == o;
    }
  }

  lemma ProjOwedStep(b: map<nat, Point>, c: map<nat, Point>, sent: seq<ProjSnap>, q: ProjSnap, more: seq<ProjSnap>)
    requires Ascending(sent) && ById(sent) == ProjectilesOwed(b, c)
    requires forall id :: id in c ==> id < q.id
    requires more == sent + if Get(b, q.id) != Some(q.v) then [q] else []
    ensures Ascending(more) && ById(more) == ProjectilesOwed(b, c[q.id := q.v])
  {
    ProjOwedMapStep(b, c, q.id, q.v);
    if Get(b, q.id) != Some(q.v) {
      ByIdAppend(sent, q);
      AscendingAppend(sent, q);
    } else {
      assert more == sent;
    }
  }

  class DeltaBuf {
    /** The free list the player messages come from, and how many of them this encode has handed out. */
    var players: seq<PlayerMsg>
    var used: nat
    /** The reused message. Its players are the first `used` entries of the free list. */
    var tick: nat
    var roomId: string
    var ended: bool
    var winner: nat
    var baselineTick: nat
    var outPlayers: seq<PlayerMsg>
    var outProjectiles: seq<ProjSnap>
    var outRemoved: seq<nat>
    var outEvents: seq<GameEvent>
    ghost var Repr: set<PlayerMsg>

    ghost predicate Valid()
      reads this
    {
      && used <= |players|
      && outPlayers == players[..used]
      && forall i :: 0 <= i < |players| ==> players[i] in Repr && players[i].slot == i
    }

    ghost function Sent(): (r: seq<PlayerSnap>)
      requires Valid()
      reads this, Repr
      ensures |r| == |outPlayers|
    {
      seq(|outPlayers|, i requires 0 <= i < |outPlayers| && Valid() reads this, Repr => players[i].Value())
    }

    /** The message as the wire encoder reads it. */
    ghost function Message(): Snapshot
      requires Valid()
      reads this, Repr
    {
      Snapshot(tick, roomId, ended, winner, baselineTick, Sent(), outProjectiles, outRemoved, outEvents)
    }

    constructor ()
      ensures Valid() && fresh(Repr)
    {
      players, used, tick, roomId, ended, winner, baselineTick := [], 0, 0, "", false, 0, 0;
      outPlayers, outProjectiles, outRemoved, outEvents := [], [], [], [];
      Repr := {};
    }

    /**
     Sends one player if there is anything to say. `used` advances over the message taken, adding one to the
     free list if need be, and steps back when nothing was sent.
     */
    method EmitPlayer(base: Option<PlayerSnap>, cur: PlayerSnap)
      requires Valid() && cur.v.changed == NO_FIELDS && (base.Some? ==> base.value.v.changed == NO_FIELDS)
      modifies this`players, this`used, this`outPlayers, this`Repr, Repr
      ensures Valid() && fresh(Repr - old(Repr))
      ensures var b := if base.Some? then Some(base.value.v) else None;
        Sent() == old(Sent()) + if Owed(b, cur.v) then [Entity(cur.id, PlayerDelta(b, cur.v))] else []
    {
      ghost var before := Sent();
      if used == |players| {
        var m := new PlayerMsg(used);
        players := players + [m];
        Repr := Repr + {m};
      }
      var d := players[used];
      var anything := FillPlayerDelta(d, base, cur);
      assert Sent() == before;
      if anything {
        used := used + 1;
        outPlayers := outPlayers + [d];
        assert Sent() == before + [d.Value()];
      }
    }

    /**
     Encodes `cur` against `base` into the reused message. The merges give what looking every id up in the
     baseline would have given, whatever the message held.
     */
    method Encode(base: Snapshot, cur: Snapshot, events: seq<GameEvent>)
      requires Valid() && IsState(base) && IsState(cur)
      modifies this, Repr
      ensures Valid() && fresh(Repr - old(Repr))
      ensures Message() == DeltaOf(base, cur, events)
    {
      hide ById, PlayersOwed, ProjectilesOwed, Ascend, SortedIds, Ascending, DeltaBuf.Sent;
      used := 0;
      tick, roomId, ended, winner, baselineTick := cur.tick, cur.roomId, cur.ended, cur.winner, base.tick;
      outPlayers, outEvents := [], events;
      outProjectiles, outRemoved := MergeProjectiles(base.projectiles, cur.projectiles);
      EncodePlayers(base.players, cur.players);
    }

    method EncodePlayers(base: seq<PlayerSnap>, cur: seq<PlayerSnap>)
      requires Valid() && used == 0
      requires Ascending(base) && Ascending(cur)
      requires forall i :: 0 <= i < |base| ==> base[i].v.changed == NO_FIELDS
      requires forall i :: 0 <= i < |cur| ==> cur[i].v.changed == NO_FIELDS
      modifies this`players, this`used, this`outPlayers, this`Repr, Repr
      ensures Valid() && fresh(Repr - old(Repr))
      ensures Sent() == Ascend(PlayersOwed(ById(base), ById(cur)))
    {
      hide ById, PlayersOwed;
      ghost var b := ById(base);
      var i, k := 0, 0;
      OwedNothing(b);
      while k < |cur|
        invariant 0 <= k <= |cur| && 0 <= i <= |base|
        invariant i > 0 && k < |cur| ==> base[i - 1].id < cur[k].id
        invariant Valid() && fresh(Repr - old(Repr))
        invariant Ascending(Sent()) && ById(Sent()) == PlayersOwed(b, ById(cur[..k]))
      {
        var p := cur[k];
        i := SkipTo(base, i, p.id);
        CursorFinds(base, i, p.id);
        PrefixStep(cur, k);
        var bp := None;
        if i < |base| && base[i].id == p.id {
          bp := Some(base[i]);
        }
        ghost var before := Sent();
        EmitPlayer(bp, p);
        OwedStep(b, ById(cur[..k]), before, p, Sent());
        k := k + 1;
      }
      assert cur[..k] == cur;
      IsAscend(Sent(), PlayersOwed(b, ById(cur)));
    }
  }

  /** Moves the baseline cursor to the first player not below `id`. */
  method SkipTo(base: seq<PlayerSnap>, i0: nat, id: nat) returns (i: nat)
    requires Ascending(base) && i0 <= |base| && (i0 > 0 ==> base[i0 - 1].id < id)
    ensures i0 <= i <= |base|
    ensures i > 0 ==> base[i - 1].id < id
    ensures i < |base| ==> id <= base[i].id
  {
    i := i0;
    while i < |base| && base[i].id < id
      invariant i0 <= i <= |base| && (i > 0 ==> base[i - 1].id < id)
    {
      i := i + 1;
    }
  }

  /** The projectiles: one cursor in each list, and an id the baseline cursor leaves behind unmatched is removed. */
  method MergeProjectiles(base: seq<ProjSnap>, cur: seq<ProjSnap>)
    returns (projectiles: seq<ProjSnap>, removed: seq<nat>)
    requires Ascending(base) && Ascending(cur)
    ensures projectiles == Ascend(ProjectilesOwed(ById(base), ById(cur)))
    ensures removed == SortedIds(ById(base).Keys - ById(cur).Keys)
  {
    hide ById, ProjectilesOwed, RemovedSoFar;
    projectiles, removed := [], [];
    var j, k := 0, 0;
    MergedStart(base, cur);
    while k < |cur|
      invariant 0 <= k <= |cur| && 0 <= j <= |base|
      invariant ProjectilesMerged(base, cur, k, j, projectiles, removed)
    {
      var q := cur[k];
      j, removed := RemoveBelow(base, cur, k, j, q.id, removed);
      ghost var j0, kept := j, projectiles;
      var same := false;
      if j < |base| && base[j].id == q.id {
        same := base[j].v == q.v;
        j := j + 1;
      }
      if !same {
        projectiles := projectiles + [q];
      }
      ProjectileStep(base, cur, k, j0, j, kept, projectiles, removed);
      k := k + 1;
    }
    j, removed := RemoveBelow(base, cur, k, j, if base == [] then 0 else base[|base| - 1].id + 1, removed);
    assert cur[..k] == cur;
    IsAscend(projectiles, ProjectilesOwed(ById(base), ById(cur)));
    RemovedAll(base, cur, removed);
  }

  /** The merge has settled the first `k` current projectiles and the first `j` baseline ones. */
  ghost predicate ProjectilesMerged(base: seq<ProjSnap>, cur: seq<ProjSnap>, k: nat, j: nat,
                                    projectiles: seq<ProjSnap>, removed: seq<nat>)
    requires k <= |cur| && j <= |base|
  {
    && (j > 0 && k < |cur| ==> base[j - 1].id < cur[k].id)
    && (k > 0 && j < |base| ==> cur[k - 1].id < base[j].id)
    && Ascending(projectiles) && ById(projectiles) == ProjectilesOwed(ById(base), ById(cur[..k]))
    && RemovedSoFar(base, cur, j, removed)
  }

  lemma MergedStart(base: seq<ProjSnap>, cur: seq<ProjSnap>)
    ensures ProjectilesMerged(base, cur, 0, 0, [], [])
  {
  }

  lemma ProjectileStep(base: seq<ProjSnap>, cur: seq<ProjSnap>, k: nat, j: nat, next: nat,
                       projectiles: seq<ProjSnap>, more: seq<ProjSnap>, removed: seq<nat>)
    requires Ascending(base) && Ascending(cur) && k < |cur| && j <= |base|
    requires ProjectilesMerged(base, cur, k, j, projectiles, removed)
    requires j < |base| ==> cur[k].id <= base[j].id
    requires j > 0 ==> base[j - 1].id < cur[k].id
    requires next == if j < |base| && base[j].id == cur[k].id then j + 1 else j
    requires more == projectiles + if j < |base| && base[j] == cur[k] then [] else [cur[k]]
    ensures ProjectilesMerged(base, cur, k + 1, next, more, removed)
  {
    var q := cur[k];
    CursorFinds(base, j, q.id);
    PrefixStep(cur, k);
    ByIdAt(cur, k);
    ProjOwedStep(ById(base), ById(cur[..k]), projectiles, q, more);
    assert RemovedSoFar(base, cur, next, removed);
  }

  /** Names as removed every baseline projectile below `limit` that the walk of `cur` has gone past. */
  method RemoveBelow(base: seq<ProjSnap>, cur: seq<ProjSnap>, ghost k: nat, j0: nat, limit: nat, removed0: seq<nat>)
    returns (j: nat, removed: seq<nat>)
    requires Ascending(base) && Ascending(cur) && j0 <= |base| && k <= |cur|
    requires k > 0 && j0 < |base| ==> cur[k - 1].id < base[j0].id
    requires k < |cur| ==> limit <= cur[k].id
    requires j0 > 0 && k < |cur| ==> base[j0 - 1].id < limit
    requires RemovedSoFar(base, cur, j0, removed0)
    ensures j0 <= j <= |base| && RemovedSoFar(base, cur, j, removed)
    ensures j < |base| ==> limit <= base[j].id
    ensures j > 0 && k < |cur| ==> base[j - 1].id < limit
    ensures k > 0 && j < |base| ==> cur[k - 1].id < base[j].id
  {
    j, removed := j0, removed0;
    while j < |base| && base[j].id < limit
      invariant j0 <= j <= |base|
      invariant j > 0 && k < |cur| ==> base[j - 1].id < limit
      invariant k > 0 && j < |base| ==> cur[k - 1].id < base[j].id
      invariant RemovedSoFar(base, cur, j, removed)
    {
      NotBetween(cur, k, base[j].id);
      RemovedStep(base, cur, j, removed);
      removed := removed + [base[j].id];
      j := j + 1;
    }
  }

  lemma RemovedStep(base: seq<ProjSnap>, cur: seq<ProjSnap>, j: nat, removed: seq<nat>)
    requires Ascending(base) && j < |base| && RemovedSoFar(base, cur, j, removed)
    requires base[j].id !in ById(cur)
    ensures RemovedSoFar(base, cur, j + 1, removed + [base[j].id])
  {
    forall i | 0 <= i < |removed|
      ensures removed[i] < base[j].id
    {
      assert removed[i] in removed;
    }
    var more := removed + [base[j].id];
    forall m | 0 <= m < j + 1 && base[m].id !in ById(cur)
      ensures base[m].id in more
    {
      assert m < j ==> base[m].id in removed;
      assert more[|removed|] == base[j].id;
    }
  }

  lemma RemovedAll(base: seq<ProjSnap>, cur: seq<ProjSnap>, removed: seq<nat>)
    requires Ascending(base) && RemovedSoFar(base, cur, |base|, removed)
    ensures removed == SortedIds(ById(base).Keys - ById(cur).Keys)
  {
    forall id
      ensures id in removed <==> id in ById(base).Keys - ById(cur).Keys
    {
      ByIdKeys(base, id);
    }
    IsSortedIds(removed, ById(base).Keys - ById(cur).Keys);
  }

  /** `removed` lists, in order, the ids of the first `j` baseline entries that are gone from `cur`. */
  ghost predicate RemovedSoFar(base: seq<ProjSnap>, cur: seq<ProjSnap>, j: int, removed: seq<nat>)
    requires 0 <= j <= |base|
  {
    && AscendingIds(removed)
    && (forall id :: id in removed ==> id !in ById(cur) && exists m :: 0 <= m < j && base[m].id == id)
    && (forall m :: 0 <= m < j && base[m].id !in ById(cur) ==> base[m].id in removed)
  }

  lemma NotBetween(cur: seq<ProjSnap>, k: nat, id: nat)
    requires Ascending(cur) && k <= |cur|
    requires k > 0 ==> cur[k - 1].id < id
    requires k < |cur| ==> id < cur[k].id
    ensures id !in ById(cur)
  {
    ByIdKeys(cur, id);
  }
}
