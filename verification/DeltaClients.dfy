/**
 The two clients. The reference client merges three sorted lists; the browser walks the baseline
 and appends what is left over. Both are proved against the same map-level meaning, and the exact
 condition under which they produce the same list is `ClientsAgree`.
 */
module DeltaClients {
  import opened Wrappers
  import opened Keyed
  import opened Snapshots
  import opened DeltaSpec

  // ---- the player merge ----

  /** The merge has consumed the first `i` baseline players and the first `j` delta players. */
  ghost predicate PlayersMerged(b: seq<PlayerSnap>, d: seq<PlayerSnap>, i: nat, j: nat, out: seq<PlayerSnap>)
    requires i <= |b| && j <= |d|
  {
    && (i < |b| && j > 0 ==> d[j - 1].id < b[i].id)
    && (j < |d| && i > 0 ==> b[i - 1].id < d[j].id)
    && Ascending(out) && ById(out) == Patched(ById(b[..i]), ById(d[..j]))
  }

  function With<V>(m: map<nat, V>, id: nat, v: Option<V>): map<nat, V> {
    if v.Some? then m[id := v.value] else m
  }

  /** A new id on either side, or on both, patches on its own. */
  lemma PatchedStep(b: map<nat, Avatar>, d: map<nat, Avatar>, id: nat, v: Option<Avatar>, w: Option<Avatar>)
    requires id !in b && id !in d && (v.Some? || w.Some?)
    ensures Patched(With(b, id, v), With(d, id, w))
         == Patched(b, d)[id := if w.Some? then Patch(v, w.value) else v.value.(changed := NO_FIELDS)]
  {
    hide Patch;
    var l := Patched(With(b, id, v), With(d, id, w));
    var r := Patched(b, d)[id := if w.Some? then Patch(v, w.value) else v.value.(changed := NO_FIELDS)];
    assert l.Keys == r.Keys;
    assert forall k :: k in l ==> l[k] == r[k];
  }

  lemma PatchedBelow(b: map<nat, Avatar>, d: map<nat, Avatar>, id: nat)
    requires forall k :: k in b || k in d ==> k < id
    ensures forall k :: k in Patched(b, d) ==> k < id
  {
  }

  lemma PlayersStep(b: seq<PlayerSnap>, d: seq<PlayerSnap>, i: nat, j: nat, i': nat, j': nat,
                    out: seq<PlayerSnap>, e: PlayerSnap)
    requires Ascending(b) && Ascending(d) && i <= |b| && j <= |d| && PlayersMerged(b, d, i, j, out)
    requires (i', j') == (i + 1, j) || (i', j') == (i, j + 1) || (i', j') == (i + 1, j + 1)
    requires i' <= |b| && j' <= |d|
    requires i' > i && j' == j ==> (j < |d| ==> b[i].id < d[j].id) && e == Entity(b[i].id, b[i].v.(changed := NO_FIELDS))
    requires i' == i && j' > j ==> (i < |b| ==> d[j].id < b[i].id) && e == Entity(d[j].id, Patch(None, d[j].v))
    requires i' > i && j' > j ==> b[i].id == d[j].id && e == Entity(d[j].id, Patch(Some(b[i].v), d[j].v))
    ensures PlayersMerged(b, d, i', j', out + [e])
  {
    hide ById, Patched, Patch;
    if i' > i {
      PrefixStep(b, i);
    }
    if j' > j {
      PrefixStep(d, j);
    }
    forall id | id in ById(b[..i]) || id in ById(d[..j])
      ensures id < e.id
    {
      ByIdKeys(b[..i], id);
      ByIdKeys(d[..j], id);
    }
    PatchedStep(ById(b[..i]), ById(d[..j]), e.id, if i' > i then Some(b[i].v) else None, if j' > j then Some(d[j].v) else None);
    PatchedBelow(ById(b[..i]), ById(d[..j]), e.id);
    ByIdAppend(out, e);
    AscendingAppend(out, e);
  }

  /** The sorted merge of the players, as both clients write it. */
  method MergePlayers(b: seq<PlayerSnap>, d: seq<PlayerSnap>) returns (out: seq<PlayerSnap>)
    requires Ascending(b) && Ascending(d)
    ensures out == Ascend(Patched(ById(b), ById(d)))
  {
    hide ById, Patched, Patch;
    out := [];
    var i, j := 0, 0;
    assert PlayersMerged(b, d, 0, 0, out) by {
      NothingMerged(b, d);
    }
    while i < |b| || j < |d|
      invariant 0 <= i <= |b| && 0 <= j <= |d| && PlayersMerged(b, d, i, j, out)
      decreases |b| - i + |d| - j
    {
      if j >= |d| || (i < |b| && b[i].id < d[j].id) {
        // Only the baseline has this id next: its value stands.
        var e := Entity(b[i].id, b[i].v.(changed := NO_FIELDS));
        PlayersStep(b, d, i, j, i + 1, j, out, e);
        out, i := out + [e], i + 1;
      } else if i >= |b| || d[j].id < b[i].id {
        // Only the delta has it: all of it is news.
        var e := Entity(d[j].id, Patch(None, d[j].v));
        PlayersStep(b, d, i, j, i, j + 1, out, e);
        out, j := out + [e], j + 1;
      } else {
        var e := Entity(d[j].id, Patch(Some(b[i].v), d[j].v));
        PlayersStep(b, d, i, j, i + 1, j + 1, out, e);
        out, i, j := out + [e], i + 1, j + 1;
      }
    }
    assert b[..i] == b && d[..j] == d;
    IsAscend(out, Patched(ById(b), ById(d)));
  }

  lemma NothingMerged(b: seq<PlayerSnap>, d: seq<PlayerSnap>)
    ensures PlayersMerged(b, d, 0, 0, [])
  {
  }

  // ---- the projectile merges ----

  /** The three-way merge has consumed `bi` baseline and `pi` carried projectiles. */
  ghost predicate ProjectilesMerged(b: seq<ProjSnap>, gone: set<nat>, d: seq<ProjSnap>, bi: nat, pi: nat, out: seq<ProjSnap>)
    requires bi <= |b| && pi <= |d|
  {
    && Ascending(out) && ById(out) == Moved(ById(b[..bi]), gone, ById(d[..pi]))
    && (bi < |b| ==> forall id :: id in ById(out) ==> id < b[bi].id)
    && (pi < |d| ==> forall id :: id in ById(out) ==> id < d[pi].id)
  }

  lemma MovedStep(b: map<nat, Point>, gone: set<nat>, d: map<nat, Point>, id: nat, v: Option<Point>, w: Option<Point>)
    requires id !in d && (v.Some? ==> id !in b)
    ensures Moved(With(b, id, v), gone, With(d, id, w))
         == (if w.Some? then Moved(b, gone, d)[id := w.value]
             else if v.Some? && id !in gone then Moved(b, gone, d)[id := v.value]
             else Moved(b, gone, d))
  {
    var l := Moved(With(b, id, v), gone, With(d, id, w));
    var r := if w.Some? then Moved(b, gone, d)[id := w.value]
             else if v.Some? && id !in gone then Moved(b, gone, d)[id := v.value]
             else Moved(b, gone, d);
    assert l.Keys == r.Keys;
    assert forall k :: k in l ==> l[k] == r[k];
  }

  /** A carried projectile below the next baseline id is no survivor: it is emitted before that id is looked at. */
  lemma EmitCarried(b: seq<ProjSnap>, gone: set<nat>, d: seq<ProjSnap>, bi: nat, pi: nat, out: seq<ProjSnap>)
    requires Ascending(b) && Ascending(d) && bi <= |b| && pi < |d|
    requires ProjectilesMerged(b, gone, d, bi, pi, out)
    requires bi < |b| ==> d[pi].id < b[bi].id
    ensures ProjectilesMerged(b, gone, d, bi, pi + 1, out + [d[pi]])
  {
    hide ById, Moved;
    PrefixStep(d, pi);
    MovedStep(ById(b[..bi]), gone, ById(d[..pi]), d[pi].id, None, Some(d[pi].v));
    ByIdAppend(out, d[pi]);
    AscendingAppend(out, d[pi]);
  }

  lemma SkipSpent(b: seq<ProjSnap>, gone: set<nat>, d: seq<ProjSnap>, bi: nat, pi: nat, out: seq<ProjSnap>)
    requires Ascending(b) && Ascending(d) && bi < |b| && pi <= |d|
    requires ProjectilesMerged(b, gone, d, bi, pi, out)
    requires b[bi].id in gone && (pi > 0 ==> d[pi - 1].id < b[bi].id)
    ensures ProjectilesMerged(b, gone, d, bi + 1, pi, out)
  {
    hide ById, Moved;
    PrefixStep(b, bi);
    ByIdKeys(d[..pi], b[bi].id);
    MovedStep(ById(b[..bi]), gone, ById(d[..pi]), b[bi].id, Some(b[bi].v), None);
  }

  lemma KeepOrMove(b: seq<ProjSnap>, gone: set<nat>, d: seq<ProjSnap>, bi: nat, pi: nat, out: seq<ProjSnap>,
                   pi': nat, e: ProjSnap)
    requires Ascending(b) && Ascending(d) && bi < |b| && pi <= |d|
    requires ProjectilesMerged(b, gone, d, bi, pi, out)
    requires b[bi].id !in gone && (pi > 0 ==> d[pi - 1].id < b[bi].id) && (pi < |d| ==> b[bi].id <= d[pi].id)
    requires pi' == if pi < |d| && d[pi].id == b[bi].id then pi + 1 else pi
    requires e == if pi < |d| && d[pi].id == b[bi].id then d[pi] else b[bi]
    ensures ProjectilesMerged(b, gone, d, bi + 1, pi', out + [e])
  {
    hide ById, Moved;
    PrefixStep(b, bi);
    if pi' > pi {
      PrefixStep(d, pi);
    }
    ByIdKeys(d[..pi], b[bi].id);
    MovedStep(ById(b[..bi]), gone, ById(d[..pi]), b[bi].id, Some(b[bi].v), if pi' > pi then Some(d[pi].v) else None);
    ByIdAppend(out, e);
    AscendingAppend(out, e);
  }

  lemma ProjectilesStart(b: seq<ProjSnap>, gone: set<nat>, d: seq<ProjSnap>)
    ensures ProjectilesMerged(b, gone, d, 0, 0, [])
  {
    assert Moved(map[], gone, map[]) == map[];
  }

  /** The reference client's merge of the baseline, the spent ids and the carried projectiles. */
  method MergeProjectiles(b: seq<ProjSnap>, removed: seq<nat>, d: seq<ProjSnap>) returns (out: seq<ProjSnap>)
    requires Ascending(b) && AscendingIds(removed) && Ascending(d)
    ensures out == Ascend(Moved(ById(b), Ids(removed), ById(d)))
  {
    hide ById, Moved, ProjectilesMerged;
    out := [];
    ghost var gone := Ids(removed);
    var bi, pi, ri := 0, 0, 0;
    ProjectilesStart(b, gone, d);
    while bi < |b|
      invariant 0 <= bi <= |b| && 0 <= pi <= |d| && 0 <= ri <= |removed|
      invariant ProjectilesMerged(b, gone, d, bi, pi, out)
      invariant pi > 0 && bi < |b| ==> d[pi - 1].id < b[bi].id
      invariant ri > 0 && bi < |b| ==> removed[ri - 1] < b[bi].id
    {
      var p := b[bi];
      while pi < |d| && d[pi].id < p.id
        invariant 0 <= pi <= |d| && ProjectilesMerged(b, gone, d, bi, pi, out)
        invariant pi > 0 ==> d[pi - 1].id < p.id
      {
        EmitCarried(b, gone, d, bi, pi, out);
        out, pi := out + [d[pi]], pi + 1;
      }
      while ri < |removed| && removed[ri] < p.id
        invariant 0 <= ri <= |removed| && (ri > 0 ==> removed[ri - 1] < p.id)
      {
        ri := ri + 1;
      }
      if ri < |removed| && removed[ri] == p.id {
        SkipSpent(b, gone, d, bi, pi, out);
        ri, bi := ri + 1, bi + 1;
        continue;
      }
      assert p.id !in gone;
      if pi < |d| && d[pi].id == p.id {
        KeepOrMove(b, gone, d, bi, pi, out, pi + 1, d[pi]);
        out, pi := out + [d[pi]], pi + 1;
      } else {
        KeepOrMove(b, gone, d, bi, pi, out, pi, p);
        out := out + [p];
      }
      bi := bi + 1;
    }
    while pi < |d|
      invariant 0 <= pi <= |d| && ProjectilesMerged(b, gone, d, bi, pi, out)
    {
      EmitCarried(b, gone, d, bi, pi, out);
      out, pi := out + [d[pi]], pi + 1;
    }
    assert b[..bi] == b && d[..pi] == d;
    MergedIsAscend(b, gone, d, out);
  }

  lemma MergedIsAscend(b: seq<ProjSnap>, gone: set<nat>, d: seq<ProjSnap>, out: seq<ProjSnap>)
    requires b[..|b|] == b && d[..|d|] == d && ProjectilesMerged(b, gone, d, |b|, |d|, out)
    ensures out == Ascend(Moved(ById(b), gone, ById(d)))
  {
    IsAscend(out, Moved(ById(b), gone, ById(d)));
  }

  /** The reference client. None leaves the client as it was. */
  method ApplyDelta(base: Option<Snapshot>, d: Snapshot) returns (r: Option<Snapshot>)
    ensures r == Applied(base, d)
  {
    hide ById, Patched, Moved, Ascend;
    var ok := CheckWellOrdered(d);
    if !ok {
      return None;
    }
    if d.baselineTick == 0 {
      return Some(d.(players := Cleared(d.players), removed := []));
    }
    if base.None? || base.value.tick != d.baselineTick {
      return None;
    }
    ok := CheckWellOrdered(base.value);
    if !ok {
      return None;
    }
    var players := MergePlayers(base.value.players, d.players);
    var projectiles := MergeProjectiles(base.value.projectiles, d.removed, d.projectiles);
    r := Some(Snapshot(d.tick, d.roomId, d.ended, d.winner, 0, players, projectiles, [], d.events));
  }

  // ---- the browser ----

  /** The baseline with the spent projectiles dropped and the carried ones moved, in baseline order. */
  ghost function Survivors(b: seq<ProjSnap>, gone: set<nat>, d: map<nat, Point>): seq<ProjSnap> {
    if b == [] then []
    else
      var last := b[|b| - 1];
      Survivors(b[..|b| - 1], gone, d) +
      if last.id in gone then [] else [Entity(last.id, if last.id in d then d[last.id] else last.v)]
  }

  /** The carried projectiles that move no survivor, in the order they came. */
  ghost function Newcomers(d: seq<ProjSnap>, b: set<nat>, gone: set<nat>): seq<ProjSnap> {
    if d == [] then []
    else
      var last := d[|d| - 1];
      Newcomers(d[..|d| - 1], b, gone) + if last.id in b - gone then [] else [last]
  }

  /** What the browser's projectile list is: survivors first, newcomers after. */
  ghost function BrowserProjectiles(b: seq<ProjSnap>, removed: seq<nat>, d: seq<ProjSnap>): seq<ProjSnap> {
    Survivors(b, Ids(removed), ById(d)) + Newcomers(d, ById(b).Keys, Ids(removed))
  }

  lemma SurvivorsStep(b: seq<ProjSnap>, i: nat, gone: set<nat>, d: map<nat, Point>)
    requires i < |b|
    ensures Survivors(b[..i + 1], gone, d) == Survivors(b[..i], gone, d) +
      if b[i].id in gone then [] else [Entity(b[i].id, if b[i].id in d then d[b[i].id] else b[i].v)]
  {
    assert b[..i + 1][..i] == b[..i];
  }

  lemma NewcomersStep(d: seq<ProjSnap>, k: nat, b: set<nat>, gone: set<nat>)
    requires k < |d|
    ensures Newcomers(d[..k + 1], b, gone) == Newcomers(d[..k], b, gone) + if d[k].id in b - gone then [] else [d[k]]
  {
    assert d[..k + 1][..k] == d[..k];
  }

  /** What the survivors and the newcomers are, as maps. */
  ghost function Kept(b: map<nat, Point>, gone: set<nat>, d: map<nat, Point>): map<nat, Point> {
    map id | id in b && id !in gone :: if id in d then d[id] else b[id]
  }

  ghost function Left(d: map<nat, Point>, b: set<nat>, gone: set<nat>): map<nat, Point> {
    map id | id in d && id !in b - gone :: d[id]
  }

  lemma KeptStep(b: map<nat, Point>, gone: set<nat>, d: map<nat, Point>, id: nat, v: Point)
    requires id !in b
    ensures Kept(b[id := v], gone, d)
         == if id in gone then Kept(b, gone, d) else Kept(b, gone, d)[id := if id in d then d[id] else v]
  {
    assert id in gone ==> Kept(b[id := v], gone, d) == Kept(b, gone, d);
    assert id !in gone ==> Kept(b[id := v], gone, d) == Kept(b, gone, d)[id := if id in d then d[id] else v];
  }

  lemma LeftStep(d: map<nat, Point>, b: set<nat>, gone: set<nat>, id: nat, v: Point)
    requires id !in d
    ensures Left(d[id := v], b, gone) == if id in b - gone then Left(d, b, gone) else Left(d, b, gone)[id := v]
  {
    assert id in b - gone ==> Left(d[id := v], b, gone) == Left(d, b, gone);
    assert id !in b - gone ==> Left(d[id := v], b, gone) == Left(d, b, gone)[id := v];
  }

  /** Walking past a baseline projectile uses up the carried one that moves it. */
  lemma LeftConsume(d: map<nat, Point>, b: map<nat, Point>, gone: set<nat>, id: nat, v: Point)
    ensures Left(d, b[id := v].Keys, gone) == if id in gone then Left(d, b.Keys, gone) else Left(d, b.Keys, gone) - {id}
    ensures id !in b ==> (id in Left(d, b.Keys, gone) <==> id in d)
    ensures id in Left(d, b.Keys, gone) ==> Left(d, b.Keys, gone)[id] == d[id]
  {
    assert id in gone ==> Left(d, b[id := v].Keys, gone) == Left(d, b.Keys, gone);
    assert id !in gone ==> Left(d, b[id := v].Keys, gone) == Left(d, b.Keys, gone) - {id};
  }

  lemma AsMap(d: seq<ProjSnap>, m: map<nat, Point>)
    requires Ascending(d)
    requires m.Keys == set i | 0 <= i < |d| :: d[i].id
    requires forall i :: 0 <= i < |d| ==> m[d[i].id] == d[i].v
    ensures m == ById(d)
  {
    hide ById;
    forall id
      ensures id in m <==> id in ById(d)
    {
      ByIdKeys(d, id);
    }
    forall id | id in m
      ensures m[id] == ById(d)[id]
    {
      var i :| 0 <= i < |d| && d[i].id == id;
      ByIdAt(d, i);
    }
  }

  lemma NothingWalked(d: map<nat, Point>, gone: set<nat>)
    ensures Left(d, ById<Point>([]).Keys, gone) == d
    ensures Survivors([], gone, d) == [] && forall b :: Newcomers([], b, gone) == []
  {
    assert Left(d, {}, gone) == d;
  }

  lemma LeftKeys(d: map<nat, Point>, b: set<nat>, gone: set<nat>, id: nat)
    ensures id in Left(d, b, gone) <==> id in d && id !in b - gone
  {
  }

  method BrowserMergeProjectiles(b: seq<ProjSnap>, removed: seq<nat>, d: seq<ProjSnap>) returns (out: seq<ProjSnap>)
    requires Ascending(b) && Ascending(d)
    ensures out == BrowserProjectiles(b, removed, d)
  {
    hide ById, Left, Survivors, Newcomers;
    var gone := set id | id in removed;
    var carried := map i | 0 <= i < |d| :: d[i].id := d[i].v;
    AsMap(d, carried);
    var left := carried;
    out := [];
    var i := 0;
    NothingWalked(carried, gone);
    assert b[..0] == [] && d[..0] == [];
    while i < |b|
      invariant 0 <= i <= |b|
      invariant out == Survivors(b[..i], gone, carried)
      invariant left == Left(carried, ById(b[..i]).Keys, gone)
    {
      var p := b[i];
      PrefixStep(b, i);
      SurvivorsStep(b, i, gone, carried);
      assert p.id !in ById(b[..i]);
      LeftConsume(carried, ById(b[..i]), gone, p.id, p.v);
      i := i + 1;
      if p.id in gone {
        continue;
      }
      if p.id in left {
        out := out + [Entity(p.id, left[p.id])];
        left := left - {p.id};
      } else {
        assert left - {p.id} == left;
        out := out + [p];
      }
    }
    assert b[..i] == b;
    ghost var kept := out;
    var k := 0;
    while k < |d|
      invariant 0 <= k <= |d|
      invariant out == kept + Newcomers(d[..k], ById(b).Keys, gone)
    {
      NewcomersStep(d, k, ById(b).Keys, gone);
      ByIdAt(d, k);
      LeftKeys(carried, ById(b).Keys, gone, d[k].id);
      if d[k].id in left {
        out := out + [d[k]];
      }
      k := k + 1;
    }
    assert d[..k] == d;
  }

  /** What the browser makes of a message: the reference result, but for the order its projectiles come out in. */
  ghost function BrowserApplied(base: Option<Snapshot>, d: Snapshot): Option<Snapshot> {
    match Applied(base, d)
    case None => None
    case Some(s) =>
      if d.baselineTick == 0 then Some(s)
      else Some(s.(projectiles := BrowserProjectiles(base.value.projectiles, d.removed, d.projectiles)))
  }

  /** The browser's client, which differs from the reference one in its projectile list only. */
  method BrowserApplyDelta(base: Option<Snapshot>, d: Snapshot) returns (r: Option<Snapshot>)
    ensures r == BrowserApplied(base, d)
  {
    hide ById, Patched, Moved, Ascend, BrowserProjectiles;
    var ok := CheckWellOrdered(d);
    if !ok {
      return None;
    }
    if d.baselineTick == 0 {
      // Every bit set on the way in, every field copied: the same list with the masks cleared.
      return Some(d.(players := Cleared(d.players), removed := []));
    }
    if base.None? || base.value.tick != d.baselineTick {
      return None;
    }
    ok := CheckWellOrdered(base.value);
    if !ok {
      return None;
    }
    var players := MergePlayers(base.value.players, d.players);
    var projectiles := BrowserMergeProjectiles(base.value.projectiles, d.removed, d.projectiles);
    r := Some(Snapshot(d.tick, d.roomId, d.ended, d.winner, 0, players, projectiles, [], d.events));
  }

  lemma {:induction false} SurvivorsDenote(b: seq<ProjSnap>, gone: set<nat>, d: map<nat, Point>)
    requires Ascending(b)
    ensures Ascending(Survivors(b, gone, d)) && ById(Survivors(b, gone, d)) == Kept(ById(b), gone, d)
  {
    hide ById, Kept;
    if b == [] {
      NothingKept(gone, d);
    } else {
      var n := |b| - 1;
      SurvivorsDenote(b[..n], gone, d);
      PrefixStep(b, n);
      assert b[..n + 1] == b;
      KeptStep(ById(b[..n]), gone, d, b[n].id, b[n].v);
      KeptBelow(ById(b[..n]), gone, d, b[n].id);
      var s, e := Survivors(b[..n], gone, d), Entity(b[n].id, if b[n].id in d then d[b[n].id] else b[n].v);
      ByIdAppend(s, e);
      AscendingAppend(s, e);
      assert s + [] == s;
    }
  }

  lemma NothingKept(gone: set<nat>, d: map<nat, Point>)
    ensures ById<Point>([]) == Kept(ById<Point>([]), gone, d)
  {
  }

  lemma KeptBelow(b: map<nat, Point>, gone: set<nat>, d: map<nat, Point>, id: nat)
    requires forall k :: k in b ==> k < id
    ensures forall k :: k in Kept(b, gone, d) ==> k < id
  {
  }

  lemma {:induction false} NewcomersDenote(d: seq<ProjSnap>, b: set<nat>, gone: set<nat>)
    requires Ascending(d)
    ensures Ascending(Newcomers(d, b, gone)) && ById(Newcomers(d, b, gone)) == Left(ById(d), b, gone)
  {
    hide ById, Left;
    if d == [] {
      NothingLeft(b, gone);
    } else {
      var n := |d| - 1;
      NewcomersDenote(d[..n], b, gone);
      PrefixStep(d, n);
      assert d[..n + 1] == d;
      LeftStep(ById(d[..n]), b, gone, d[n].id, d[n].v);
      LeftBelow(ById(d[..n]), b, gone, d[n].id);
      var s := Newcomers(d[..n], b, gone);
      ByIdAppend(s, d[n]);
      AscendingAppend(s, d[n]);
      assert s + [] == s;
    }
  }

  lemma NothingLeft(b: set<nat>, gone: set<nat>)
    ensures ById<Point>([]) == Left(ById<Point>([]), b, gone)
  {
  }

  lemma LeftBelow(d: map<nat, Point>, b: set<nat>, gone: set<nat>, id: nat)
    requires forall k :: k in d ==> k < id
    ensures forall k :: k in Left(d, b, gone) ==> k < id
  {
  }

  lemma {:induction false} ByIdConcat(s: seq<ProjSnap>, t: seq<ProjSnap>)
    ensures ById(s + t) == ById(s) + ById(t)
  {
    if t == [] {
      assert s + t == s;
    } else {
      var n := |t| - 1;
      ByIdConcat(s, t[..n]);
      assert s + t == (s + t[..n]) + [t[n]] && t == t[..n] + [t[n]];
      ByIdAppend(s + t[..n], t[n]);
      ByIdAppend(t[..n], t[n]);
    }
  }

  ghost predicate AllBelow(s: seq<ProjSnap>, t: seq<ProjSnap>) {
    forall x, n :: x in ById(s) && n in ById(t) ==> x < n
  }

  lemma AscendingSplits(s: seq<ProjSnap>, t: seq<ProjSnap>)
    requires Ascending(s + t)
    ensures AllBelow(s, t)
  {
    hide ById;
    forall x, n | x in ById(s) && n in ById(t)
      ensures x < n
    {
      ByIdKeys(s, x);
      ByIdKeys(t, n);
      var i :| 0 <= i < |s| && s[i].id == x;
      var j :| 0 <= j < |t| && t[j].id == n;
      assert (s + t)[i].id < (s + t)[|s| + j].id;
    }
  }

  lemma AscendingJoins(s: seq<ProjSnap>, t: seq<ProjSnap>)
    requires Ascending(s) && Ascending(t) && AllBelow(s, t)
    ensures Ascending(s + t)
  {
    hide ById;
    forall i, j | 0 <= i < j < |s + t|
      ensures (s + t)[i].id < (s + t)[j].id
    {
      if i < |s| <= j {
        ByIdAt(s, i);
        ByIdAt(t, j - |s|);
      }
    }
  }

  lemma KeptAndLeft(b: map<nat, Point>, gone: set<nat>, d: map<nat, Point>)
    ensures Kept(b, gone, d) + Left(d, b.Keys, gone) == Moved(b, gone, d)
    ensures Kept(b, gone, d).Keys == b.Keys - gone && Left(d, b.Keys, gone).Keys == d.Keys - (b.Keys - gone)
  {
  }

  /**
   The browser and the reference client build the same projectile list exactly when every carried
   projectile that moves no survivor has an id above every survivor's. Otherwise they hold the same
   projectiles in a different order, and the browser refuses its own state as the next baseline.
   */
  lemma ClientsAgree(b: seq<ProjSnap>, removed: seq<nat>, d: seq<ProjSnap>)
    requires Ascending(b) && Ascending(d)
    ensures ById(BrowserProjectiles(b, removed, d)) == Moved(ById(b), Ids(removed), ById(d))
    ensures BrowserProjectiles(b, removed, d) == Ascend(Moved(ById(b), Ids(removed), ById(d)))
       <==> Ascending(BrowserProjectiles(b, removed, d))
    ensures Ascending(BrowserProjectiles(b, removed, d))
       <==> forall s, n :: s in ById(b).Keys - Ids(removed) && n in ById(d).Keys - (ById(b).Keys - Ids(removed)) ==> s < n
  {
    hide ById, Survivors, Newcomers, Kept, Left, Moved, Ascending, Ascend;
    var gone := Ids(removed);
    var s, t := Survivors(b, gone, ById(d)), Newcomers(d, ById(b).Keys, gone);
    SurvivorsDenote(b, gone, ById(d));
    NewcomersDenote(d, ById(b).Keys, gone);
    ByIdConcat(s, t);
    KeptAndLeft(ById(b), gone, ById(d));
    AscendDenotes(Moved(ById(b), gone, ById(d)));
    if Ascending(s + t) {
      IsAscend(s + t, Moved(ById(b), gone, ById(d)));
      AscendingSplits(s, t);
    }
    if AllBelow(s, t) {
      AscendingJoins(s, t);
    }
  }

  /** The simulation hands out ids in increasing order, and on its deltas the two clients are one. */
  lemma ClientsAgreeOnServerDeltas(base: Snapshot, cur: Snapshot, events: seq<GameEvent>)
    requires IsState(base) && IsState(cur)
    requires forall s, n :: s in ById(base.projectiles) && n in ById(cur.projectiles).Keys - ById(base.projectiles).Keys ==> s < n
    ensures var d := DeltaOf(base, cur, events);
      && Ascend(Moved(ById(base.projectiles), Ids(d.removed), ById(d.projectiles))) == cur.projectiles
      && BrowserProjectiles(base.projectiles, d.removed, d.projectiles) == cur.projectiles
  {
    var b, c := ById(base.projectiles), ById(cur.projectiles);
    var d := DeltaOf(base, cur, events);
    ServerProjectiles(base, cur, events);
    ProjectilesRoundTrip(b, c);
    IsAscend(cur.projectiles, c);
    ClientsAgree(base.projectiles, d.removed, d.projectiles);
    var gone := Ids(d.removed);
    forall s, n | s in b.Keys - gone && n in ById(d.projectiles).Keys - (b.Keys - gone)
      ensures s < n
    {
      assert n in c.Keys - b.Keys;
    }
  }

  lemma ServerProjectiles(base: Snapshot, cur: Snapshot, events: seq<GameEvent>)
    ensures var b, c := ById(base.projectiles), ById(cur.projectiles);
      var d := DeltaOf(base, cur, events);
      && Ascending(d.projectiles) && ById(d.projectiles) == ProjectilesOwed(b, c) && Ids(d.removed) == b.Keys - c.Keys
  {
    var b, c := ById(base.projectiles), ById(cur.projectiles);
    AscendDenotes(ProjectilesOwed(b, c));
    SortedIdsDenotes(b.Keys - c.Keys);
  }
}
