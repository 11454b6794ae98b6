/**
 The two queues and the pass that drains them. Both classes carry the same contracts, over the list of
 waiting players each stands for.
 */
module Queues {
  import opened Wrappers
  import opened Matchmaking
  import opened SortedSet
  import Lex

  function Stamp(p: QueuePlayer, now: int): QueuePlayer {
    if p.queuedAt == 0 then p.(queuedAt := now) else p
  }

  /** Whoever comes with no time of their own came now, and stands behind everybody who came before. */
  lemma NewcomersStandLast(list: seq<QueuePlayer>, p: QueuePlayer, now: int)
    requires p.queuedAt == 0 && forall q :: q in list ==> q.queuedAt < now
    ensures Inserted(list, Stamp(p, now)) == list + [p.(queuedAt := now)]
  {
    LastInserted(list, Stamp(p, now));
  }

  lemma {:induction false} LastInserted(list: seq<QueuePlayer>, p: QueuePlayer)
    requires forall q :: q in list ==> q.queuedAt < p.queuedAt
    ensures Inserted(list, p) == list + [p]
  {
    if list != [] {
      assert list == [list[0]] + list[1..];
      LastInserted(list[1..], p);
    }
  }

  ghost predicate InQueue(list: seq<QueuePlayer>, connId: string) {
    exists i :: 0 <= i < |list| && list[i].connId == connId
  }

  /** The queue of one process: an ordered list, and the set of ids that spares a duplicate check the walk. */
  class MemoryQueue {
    var list: seq<QueuePlayer>
    var queued: set<string>

    ghost predicate Valid()
      reads this
    {
      InLine(list) && Distinct(list) && forall id :: id in queued <==> InQueue(list, id)
    }

    constructor ()
      ensures Valid() && list == []
    {
      list, queued := [], {};
    }

    /** Binary search for the first player not ahead of `p`. */
    method Place(p: QueuePlayer) returns (i: nat)
      requires InLine(list)
      ensures i <= |list| && (forall k :: 0 <= k < i ==> Ahead(list[k], p)) && (i < |list| ==> !Ahead(list[i], p))
    {
      i := 0;
      var j := |list|;
      while i < j
        invariant 0 <= i <= j <= |list|
        invariant forall k :: 0 <= k < i ==> Ahead(list[k], p)
        invariant j < |list| ==> !Ahead(list[j], p)
      {
        var h := (i + j) / 2;
        if Ahead(list[h], p) {
          forall k | 0 <= k < h
            ensures Ahead(list[k], p)
          {
            AheadTransitive(list[k], list[h], p);
          }
          i := h + 1;
        } else {
          j := h;
        }
      }
    }

    method Enqueue(p0: QueuePlayer, now: int)
      requires Valid()
      modifies this
      ensures Valid()
      ensures list == if InQueue(old(list), p0.connId) then old(list) else Inserted(old(list), Stamp(p0, now))
    {
      var p := Stamp(p0, now);
      if p.connId in queued {
        return;
      }
      queued := queued + {p.connId};
      var i := Place(p);
      InsertedAt(list, p, i);
      ghost var was := list;
      NamesAreQueued(was);
      InsertedInLine(was, p);
      list := list[..i] + [p] + list[i..];
      JoinIsDistinct(was, i, p);
    }

    method Remove(connId: string)
      requires Valid()
      modifies this
      ensures Valid() && list == Without(old(list), {connId})
    {
      if connId !in queued {
        WithoutNobody(list, {connId});
        return;
      }
      Drop({connId});
    }

    /** Compacts the list in place, keeping the set in step. */
    method Drop(gone: set<string>)
      requires Valid()
      modifies this
      ensures Valid() && list == Without(old(list), gone)
    {
      var dst: seq<QueuePlayer> := [];
      var i := 0;
      while i < |list|
        invariant 0 <= i <= |list| && list == old(list)
        invariant dst == Without(list[..i], gone)
        invariant queued == old(queued) - (set k | 0 <= k < i && list[k].connId in gone :: list[k].connId)
      {
        assert list[..i + 1][..i] == list[..i];
        if list[i].connId in gone {
          queued := queued - {list[i].connId};
        } else {
          dst := dst + [list[i]];
        }
        i := i + 1;
      }
      assert list[..i] == list;
      WithoutHolds(list, gone);
      ghost var was := list;
      list := dst;
      assert forall id :: id in queued <==> InQueue(was, id) && id !in gone;
      DroppedNames(was, gone);
    }

    /** Groups the longest waiting player with company from the front of the line, or forms nothing. */
    method TryForm(rules: Rules, now: int) returns (m: Option<Match>)
      requires Valid()
      modifies this
      ensures Valid()
      ensures var f := Formed(old(list), Sane(rules), now);
        && list == Left(old(list), f)
        && m == if f.Some? then Some(MatchOf(f.value, Sane(rules))) else None
    {
      hide InLine, Distinct, Without, InQueue;
      var r := Sane(rules);
      if |list| == 0 {
        return None;
      }
      var anchor := list[0];
      var wait := now - anchor.queuedAt;
      var window := WindowAt(r, wait);
      var picked := [anchor];
      var rest := list[1..];
      var depth := r.roomSize * SCAN_DEPTH - 1;
      if |rest| > depth {
        rest := rest[..depth];
      }
      assert rest == Scanned(list, r);
      var i := 0;
      while i < |rest| && |picked| != r.roomSize
        invariant 0 <= i <= |rest|
        invariant Picks(picked, rest[i..], anchor, window, r.roomSize) == Picks([anchor], rest, anchor, window, r.roomSize)
      {
        assert rest[i..][1..] == rest[i + 1..];
        if window > 0 && Gap(rest[i].skill, anchor.skill) > window {
          i := i + 1;
          continue;
        }
        picked := picked + [rest[i]];
        i := i + 1;
      }
      if !(|picked| >= r.roomSize) && !(r.timeout > 0 && wait >= r.timeout && |picked| >= r.minPlayers) {
        return None;
      }
      Drop(set p | p in picked :: p.connId);
      m := Some(MatchOf(picked, r));
    }
  }

  lemma JoinIsDistinct(list: seq<QueuePlayer>, i: nat, p: QueuePlayer)
    requires Distinct(list) && i <= |list| && p.connId !in Names(list)
    ensures Distinct(list[..i] + [p] + list[i..])
    ensures forall id :: InQueue(list[..i] + [p] + list[i..], id) <==> id == p.connId || InQueue(list, id)
  {
    var s := list[..i] + [p] + list[i..];
    forall k | 0 <= k < |list|
      ensures list[k].connId != p.connId
    {
      assert list[k] in list;
    }
    forall id
      ensures InQueue(s, id) <==> id == p.connId || InQueue(list, id)
    {
      if InQueue(list, id) {
        var k :| 0 <= k < |list| && list[k].connId == id;
        assert s[if k < i then k else k + 1].connId == id;
      }
      if id == p.connId {
        assert s[i].connId == id;
      }
      if InQueue(s, id) && id != p.connId {
        var k :| 0 <= k < |s| && s[k].connId == id;
        assert list[if k < i then k else k - 1].connId == id;
      }
    }
  }

  lemma DroppedNames(list: seq<QueuePlayer>, gone: set<string>)
    ensures forall id :: InQueue(Without(list, gone), id) <==> InQueue(list, id) && id !in gone
  {
    WithoutHolds(list, gone);
    var w := Without(list, gone);
    forall id
      ensures InQueue(w, id) <==> InQueue(list, id) && id !in gone
    {
      if InQueue(w, id) {
        var k :| 0 <= k < |w| && w[k].connId == id;
        assert w[k] in w;
        var j :| 0 <= j < |list| && list[j] == w[k];
      }
      if InQueue(list, id) && id !in gone {
        var j :| 0 <= j < |list| && list[j].connId == id;
        assert list[j] in w;
        var k :| 0 <= k < |w| && w[k] == list[j];
      }
    }
  }

  lemma PrefixQueue(list: seq<QueuePlayer>, n: nat, id: string)
    requires n <= |list|
    ensures InQueue(list[..n], id) ==> InQueue(list, id)
  {
    if InQueue(list[..n], id) {
      var k :| 0 <= k < n && list[..n][k].connId == id;
      assert list[k].connId == id;
    }
  }

  lemma NamesAreQueued(list: seq<QueuePlayer>)
    ensures forall id :: id in Names(list) <==> InQueue(list, id)
  {
    forall id
      ensures id in Names(list) <==> InQueue(list, id)
    {
      if id in Names(list) {
        var q :| q in list && q.connId == id;
        var k :| 0 <= k < |list| && list[k] == q;
      }
      if InQueue(list, id) {
        var k :| 0 <= k < |list| && list[k].connId == id;
        assert list[k] in list;
      }
    }
  }

  lemma LastIsQueued(list: seq<QueuePlayer>)
    requires list != []
    ensures InQueue(list, list[|list| - 1].connId)
  {
  }

  lemma {:induction false} WithoutNobody(list: seq<QueuePlayer>, gone: set<string>)
    requires forall id :: id in gone ==> !InQueue(list, id)
    ensures Without(list, gone) == list
  {
    if list != [] {
      hide InQueue, Without;
      var n := |list| - 1;
      forall id | id in gone
        ensures !InQueue(list[..n], id)
      {
        PrefixQueue(list, n, id);
      }
      WithoutNobody(list[..n], gone);
      LastIsQueued(list);
      WithoutLast(list, gone);
      assert list == list[..n] + [list[n]];
    } else {
      NobodyToDrop(gone);
    }
  }

  lemma NobodyToDrop(gone: set<string>)
    ensures Without([], gone) == []
  {
  }

  lemma WithoutLast(list: seq<QueuePlayer>, gone: set<string>)
    requires list != []
    ensures var n := |list| - 1;
      Without(list, gone) == Without(list[..n], gone) + if list[n].connId in gone then [] else [list[n]]
  {
  }

  /** The queue of the fleet: queue times, players and ratings under one set of ids, each script one step. */
  class RedisQueue {
    var z: map<string, int>
    var h: map<string, QueuePlayer>
    var s: map<string, int>

    ghost predicate Valid()
      reads this
    {
      && z.Keys == h.Keys == s.Keys
      && forall id :: id in h ==> h[id].connId == id && z[id] == h[id].queuedAt && s[id] == h[id].skill
    }

    /** The players in the order of the sorted set. */
    ghost function Line(): seq<QueuePlayer>
      requires Valid()
      reads this
    {
      RangeIsRange(z);
      PlayersOf(Range(z), h)
    }

    constructor ()
      ensures Valid() && Line() == []
    {
      z, h, s := map[], map[], map[];
    }

    method Enqueue(p0: QueuePlayer, now: int)
      requires Valid()
      modifies this
      ensures Valid()
      ensures Line() == if InQueue(old(Line()), p0.connId) then old(Line()) else Inserted(old(Line()), Stamp(p0, now))
    {
      hide InLine, Distinct, IsRange, InQueue, Range, PlayersOf, Inserted;
      var p := Stamp(p0, now);
      NamesAreKeys(z, h, p.connId);
      if p.connId in h {
        return;
      }
      ghost var z0, h0 := z, h;
      h := h[p.connId := p];
      z := z[p.connId := p.queuedAt];
      s := s[p.connId := p.skill];
      LineJoins(z0, h0, p);
    }

    method Remove(connId: string)
      requires Valid()
      modifies this
      ensures Valid() && Line() == Without(old(Line()), {connId})
    {
      Take({connId});
    }

    method Take(gone: set<string>)
      requires Valid()
      modifies this
      ensures Valid() && Line() == Without(old(Line()), gone)
    {
      LineHolds(z, h);
      ghost var was := Line();
      z, h, s := z - gone, h - gone, s - gone;
      LineHolds(z, h);
      WithoutHolds(was, gone);
      SameLine(Line(), Without(was, gone));
    }

    /** One atomic script: what it answers and what it leaves are the specification's. */
    method TryForm(rules: Rules, now: int) returns (m: Option<Match>)
      requires Valid()
      modifies this
      ensures Valid()
      ensures var f := Formed(old(Line()), Sane(rules), now);
        && Line() == Left(old(Line()), f)
        && m == if f.Some? then Some(MatchOf(f.value, Sane(rules))) else None
    {
      hide Formed, IsRange, Without, PlayersOf, MatchOf;
      var r := Sane(rules);
      var chosen := Choose(r, now);
      if chosen.None? {
        return None;
      }
      var players := PlayersOf(chosen.value, h);
      PlayersNames(chosen.value, h);
      Take(set id | id in chosen.value);
      // The reply is sorted by queue time, stably; the script's order already is.
      m := Some(MatchOf(players, r));
    }

    method Choose(r: Rules, now: int) returns (chosen: Option<seq<string>>)
      requires Valid() && r == Sane(r)
      ensures chosen.Some? ==> forall id :: id in chosen.value ==> id in h
      ensures Formed(Line(), r, now) == if chosen.Some? then Some(PlayersOf(chosen.value, h)) else None
    {
      hide InLine, Distinct, IsRange, Range, Without, Picks, Formed;
      ghost var line := Line();
      LineHolds(z, h);
      var ids := FirstMembers(r.roomSize * SCAN_DEPTH);
      if |ids| == 0 {
        EmptyLine(z, h, r, now);
        return None;
      }
      FrontOfLine(z, h, ids, r);
      hide PlayersOf, WindowAt, Scanned;
      var anchor := ids[0];
      var anchorWait := now - z[anchor];
      var window := WindowFor(r, anchorWait);
      var picked := Company(ids, window, r.roomSize);
      PlayersCount(picked, h);
      assert h[anchor] == line[0] && anchorWait == now - line[0].queuedAt;
      assert PlayersOf(ids[1..], h) == Scanned(line, r);
      Decision(line, r, now, anchorWait, window, PlayersOf(picked, h));
      var full := |picked| >= r.roomSize;
      var timedOut := r.timeout > 0 && anchorWait >= r.timeout && |picked| >= r.minPlayers;
      if !(full || timedOut) {
        return None;
      }
      chosen := Some(picked);
    }

    /** The anchor and whoever fits its window, front of the line first, until the room is full. */
    method Company(ids: seq<string>, window: int, room: int) returns (picked: seq<string>)
      requires Valid() && ids != [] && room >= 1 && forall id :: id in ids ==> id in h
      ensures forall id :: id in picked ==> id in h
      ensures PlayersOf(picked, h) == Picks([h[ids[0]]], PlayersOf(ids[1..], h), h[ids[0]], window, room)
    {
      var anchor := ids[0];
      var anchorSkill := 0;
      if window > 0 {
        anchorSkill := s[anchor];
      }
      picked := [anchor];
      ghost var rest := PlayersOf(ids[1..], h);
      var i := 1;
      assert PlayersOf(picked, h) == [h[anchor]] && rest[0..] == rest;
      while i < |ids|
        invariant 1 <= i <= |ids| && |picked| <= room
        invariant forall id :: id in picked ==> id in h
        invariant Picks(PlayersOf(picked, h), rest[i - 1..], h[anchor], window, room)
               == Picks([h[anchor]], rest, h[anchor], window, room)
      {
        if |picked| >= room {
          break;
        }
        var id := ids[i];
        assert id in ids;
        assert rest[i - 1..][0] == h[id] && rest[i - 1..][1..] == rest[i..];
        assert PlayersOf(picked + [id], h) == PlayersOf(picked, h) + [h[id]];
        if window <= 0 {
          picked := picked + [id];
        } else {
          var gap := s[id] - anchorSkill;
          if gap < 0 {
            gap := -gap;
          }
          if gap <= window {
            picked := picked + [id];
          }
        }
        i := i + 1;
      }
    }

    /** The front of the sorted set. */
    method FirstMembers(count: int) returns (ids: seq<string>)
      requires Valid() && count >= 1
      ensures ids == if |Range(z)| > count then Range(z)[..count] else Range(z)
    {
      ids := [];
      var left := z;
      while left != map[] && |ids| < count
        invariant |ids| <= count && ids + Range(left) == Range(z)
        decreases |left|
      {
        ghost var k0 := First(left);
        var rest := left;
        var k :| k in rest && forall j :: j in rest && j != k ==> Before(rest, k, j);
        OnlyFirst(left, k, k0);
        Smaller(left, k);
        assert Range(left) == [k] + Range(left - {k});
        ids := ids + [k];
        left := left - {k};
      }
    }
  }

  /** The script works the window out for itself, from the wait of the anchor it found. */
  method WindowFor(r: Rules, anchorWait: int) returns (window: int)
    ensures window == WindowAt(r, anchorWait)
  {
    window := 0;
    if r.skillWindow > 0 {
      window := r.skillWindow;
      if r.widen > 0 && anchorWait > 0 {
        window := window + anchorWait * r.widen / 1000;
      }
      if r.maxWindow > 0 && window > r.maxWindow {
        window := r.maxWindow;
      }
    }
  }

  lemma PlayersCount(ids: seq<string>, h: map<string, QueuePlayer>)
    requires forall id :: id in ids ==> id in h
    ensures |PlayersOf(ids, h)| == |ids|
  {
  }

  lemma EmptyLine(z: map<string, int>, h: map<string, QueuePlayer>, r: Rules, now: int)
    requires IsRange(z, Range(z)) && z.Keys == h.Keys && Range(z) == []
    requires r == Sane(r)
    ensures Formed(PlayersOf(Range(z), h), r, now) == None
  {
  }

  lemma Decision(line: seq<QueuePlayer>, r: Rules, now: int, wait: int, window: int, picked: seq<QueuePlayer>)
    requires line != [] && r == Sane(r) && wait == now - line[0].queuedAt && window == WindowAt(r, wait)
    requires picked == Picks([line[0]], Scanned(line, r), line[0], window, r.roomSize)
    ensures
      Formed(line, r, now) == if |picked| >= r.roomSize || (r.timeout > 0 && wait >= r.timeout && |picked| >= r.minPlayers)
                              then Some(picked) else None
  {
  }

  /** What the script reads off the front of the sorted set is the anchor and the scanned part of the line. */
  lemma FrontOfLine(z: map<string, int>, h: map<string, QueuePlayer>, ids: seq<string>, r: Rules)
    requires z.Keys == h.Keys && IsRange(z, Range(z)) && r.roomSize >= 1 && ids != []
    requires var count := r.roomSize * SCAN_DEPTH; ids == if |Range(z)| > count then Range(z)[..count] else Range(z)
    ensures forall id :: id in ids ==> id in h
    ensures var line := PlayersOf(Range(z), h);
      line != [] && line[0] == h[ids[0]] && PlayersOf(ids[1..], h) == Scanned(line, r)
  {
    var line := PlayersOf(Range(z), h);
    forall id | id in ids
      ensures id in h
    {
      var i :| 0 <= i < |ids| && ids[i] == id;
      assert Range(z)[i] in Range(z);
    }
    assert |Scanned(line, r)| == |ids| - 1;
  }

  /** A join puts the player where the list would have put it. */
  lemma LineJoins(z: map<string, int>, h: map<string, QueuePlayer>, p: QueuePlayer)
    requires z.Keys == h.Keys && p.connId !in h
    requires forall id :: id in h ==> h[id].connId == id && z[id] == h[id].queuedAt
    ensures var z', h' := z[p.connId := p.queuedAt], h[p.connId := p];
      && IsRange(z, Range(z)) && IsRange(z', Range(z'))
      && PlayersOf(Range(z'), h') == Inserted(PlayersOf(Range(z), h), p)
  {
    var z', h' := z[p.connId := p.queuedAt], h[p.connId := p];
    LineHolds(z, h);
    LineHolds(z', h');
    NamesAreKeys(z, h, p.connId);
    var line := PlayersOf(Range(z), h);
    InsertedInLine(line, p);
    InsertedHolds(line, p);
    hide InLine, Distinct, IsRange, Range;
    SameLine(PlayersOf(Range(z'), h'), Inserted(line, p));
  }

  lemma OnlyFirst(at: map<string, int>, a: string, b: string)
    requires a in at && b in at
    requires forall j :: j in at && j != a ==> Before(at, a, j)
    requires forall j :: j in at && j != b ==> Before(at, b, j)
    ensures a == b
  {
    if a != b {
      BeforeTransitive(at, a, b, a);
      Lex.Irreflexive(a);
    }
  }

  function PlayersOf(ids: seq<string>, h: map<string, QueuePlayer>): (r: seq<QueuePlayer>)
    requires forall id :: id in ids ==> id in h
    ensures |r| == |ids| && forall i :: 0 <= i < |ids| ==> r[i] == h[ids[i]]
  {
    seq(|ids|, i requires 0 <= i < |ids| && (forall id :: id in ids ==> id in h) => h[ids[i]])
  }

  lemma PlayersNames(ids: seq<string>, h: map<string, QueuePlayer>)
    requires (forall id :: id in ids ==> id in h) && forall id :: id in h ==> h[id].connId == id
    ensures (set p | p in PlayersOf(ids, h) :: p.connId) == set id | id in ids
  {
    var ps := PlayersOf(ids, h);
    forall id | id in ids
      ensures id in set p | p in ps :: p.connId
    {
      var i :| 0 <= i < |ids| && ids[i] == id;
      assert ps[i] in ps;
    }
  }

  /** The sorted set's order is the queue's order, and it lists every player once. */
  lemma LineHolds(z: map<string, int>, h: map<string, QueuePlayer>)
    requires z.Keys == h.Keys && forall id :: id in h ==> h[id].connId == id && z[id] == h[id].queuedAt
    ensures IsRange(z, Range(z))
    ensures var line := PlayersOf(Range(z), h);
      InLine(line) && Distinct(line) && (forall p: QueuePlayer :: p in line <==> p.connId in h && h[p.connId] == p)
  {
    RangeIsRange(z);
    var ids := Range(z);
    var line := PlayersOf(ids, h);
    forall i | 0 <= i < |ids|
      ensures ids[i] in h && line[i].connId == ids[i]
    {
      assert ids[i] in ids;
    }
    forall i, j | 0 <= i < j < |ids|
      ensures Ahead(line[i], line[j]) && line[i].connId != line[j].connId
    {
      assert Before(z, ids[i], ids[j]);
      if ids[i] == ids[j] {
        Lex.Irreflexive(ids[i]);
      }
    }
    forall p: QueuePlayer | p.connId in h && h[p.connId] == p
      ensures p in line
    {
      var i :| 0 <= i < |ids| && ids[i] == p.connId;
      assert line[i] == p;
    }
  }

  lemma NamesAreKeys(z: map<string, int>, h: map<string, QueuePlayer>, id: string)
    requires z.Keys == h.Keys && forall i :: i in h ==> h[i].connId == i && z[i] == h[i].queuedAt
    ensures IsRange(z, Range(z))
    ensures InQueue(PlayersOf(Range(z), h), id) <==> id in h
    ensures id in Names(PlayersOf(Range(z), h)) <==> id in h
  {
    LineHolds(z, h);
    var line := PlayersOf(Range(z), h);
    if id in h {
      assert h[id] in line;
      var i :| 0 <= i < |line| && line[i] == h[id];
    }
    if InQueue(line, id) {
      var i :| 0 <= i < |line| && line[i].connId == id;
      assert line[i] in line;
    }
  }

  // ---- the pass ----

  const MAX_FORMS := 32

  /**
   One turn of the matchmaker. `accepts(i)` says whether the fleet took the pass's `i`th match and
   `clock(i)` when it was formed; a refused match goes back where it came from and ends the pass.
   */
  method MatchPass(q: MemoryQueue, rules: Rules, accepts: nat -> bool, clock: nat -> int) returns (started: seq<Match>)
    requires q.Valid() && forall p :: p in q.list ==> p.queuedAt != 0
    modifies q
    ensures q.Valid() && Accounted(old(q.list), q.list, started)
    ensures forall i :: 0 <= i < |started| ==> |started[i].players| + started[i].bots == Sane(rules).roomSize
  {
    hide InLine, Distinct, Formed, Without, MatchOf, Names, Requeued, Accounted;
    started := [];
    var i := 0;
    NobodyStarted(q.list);
    while i < MAX_FORMS
      invariant 0 <= i <= MAX_FORMS && q.Valid()
      invariant forall p :: p in q.list ==> p.queuedAt != 0
      invariant Accounted(old(q.list), q.list, started)
      invariant forall k :: 0 <= k < |started| ==> |started[k].players| + started[k].bots == Sane(rules).roomSize
    {
      ghost var was := q.list;
      var m := q.TryForm(rules, clock(i));
      if m.None? {
        return;
      }
      FormedByPass(was, Sane(rules), clock(i), q.list, m.value);
      if !accepts(i) {
        Requeue(q, m.value.players, clock(i));
        return;
      }
      MatchStarted(old(q.list), was, q.list, started, m.value);
      started := started + [m.value];
      i := i + 1;
    }
  }

  lemma FormedByPass(was: seq<QueuePlayer>, r: Rules, now: int, left: seq<QueuePlayer>, m: Match)
    requires InLine(was) && Distinct(was) && r == Sane(r) && Formed(was, r, now).Some?
    requires left == Left(was, Formed(was, r, now)) && m == MatchOf(Formed(was, r, now).value, r)
    ensures m.players == Formed(was, r, now).value && Distinct(m.players) && |m.players| + m.bots == r.roomSize
    ensures (forall q :: q in was <==> q in m.players || q in left) && forall q :: !(q in m.players && q in left)
    ensures Names(left) !! Names(m.players)
    ensures Requeued(left, m.players) == was
  {
    MatchIsFair(was, r, now);
    FormConserves(was, r, now);
    DistinctPart(was, m.players);
    RequeueRestores(was, r, now);
  }

  /** Everyone who was queued is queued still or in exactly one started match. */
  ghost predicate Accounted(before: seq<QueuePlayer>, now: seq<QueuePlayer>, started: seq<Match>) {
    && (forall p :: p in before <==> p in now || exists i :: 0 <= i < |started| && p in started[i].players)
    && (forall i, p :: 0 <= i < |started| && p in started[i].players ==> p !in now)
    && (forall i, j, p :: 0 <= i < j < |started| && p in started[i].players ==> p !in started[j].players)
  }

  lemma NobodyStarted(list: seq<QueuePlayer>)
    ensures Accounted(list, list, [])
  {
  }

  lemma MatchStarted(before: seq<QueuePlayer>, was: seq<QueuePlayer>, now: seq<QueuePlayer>, started: seq<Match>, m: Match)
    requires Accounted(before, was, started)
    requires (forall q :: q in was <==> q in m.players || q in now) && forall q :: !(q in m.players && q in now)
    ensures Accounted(before, now, started + [m])
  {
    var more := started + [m];
    forall p | p in before
      ensures p in now || exists i :: 0 <= i < |more| && p in more[i].players
    {
      if p in was {
        if p !in now {
          assert p in more[|started|].players;
        }
      } else {
        var i :| 0 <= i < |started| && p in started[i].players;
        assert p in more[i].players;
      }
    }
    forall p, i | 0 <= i < |more| && p in more[i].players
      ensures p in before && p !in now
    {
      if i < |started| {
        assert p in started[i].players;
      }
    }
    forall i, j, p | 0 <= i < j < |more| && p in more[i].players
      ensures p !in more[j].players
    {
      assert p in started[i].players;
    }
  }

  /** The way back into the line for a match that was not placed. */
  method Requeue(q: MemoryQueue, players: seq<QueuePlayer>, now: int)
    requires q.Valid() && Names(q.list) !! Names(players) && Distinct(players)
    requires forall p :: p in players ==> p.queuedAt != 0
    modifies q
    ensures q.Valid() && q.list == Requeued(old(q.list), players)
  {
    var i := 0;
    NamesAreQueued(q.list);
    NamesAreQueued(players);
    assert players[0..] == players;
    while i < |players|
      invariant 0 <= i <= |players| && q.Valid()
      invariant Requeued(q.list, players[i..]) == Requeued(old(q.list), players)
      invariant forall k :: i <= k < |players| ==> !InQueue(q.list, players[k].connId)
    {
      ghost var was := q.list;
      assert players[i..][0] == players[i] && players[i..][1..] == players[i + 1..];
      q.Enqueue(players[i], now);
      InsertedHolds(was, players[i]);
      NamesAreQueued(was);
      NamesAreQueued(q.list);
      i := i + 1;
    }
  }

  /** The same pass over the fleet's queue, with the same promise. */
  method FleetMatchPass(q: RedisQueue, rules: Rules, accepts: nat -> bool, clock: nat -> int) returns (started: seq<Match>)
    requires q.Valid() && forall p :: p in q.Line() ==> p.queuedAt != 0
    modifies q
    ensures q.Valid() && Accounted(old(q.Line()), q.Line(), started)
    ensures forall i :: 0 <= i < |started| ==> |started[i].players| + started[i].bots == Sane(rules).roomSize
  {
    hide InLine, Distinct, Formed, Without, MatchOf, Names, Requeued, Accounted, PlayersOf, IsRange;
    started := [];
    var i := 0;
    NobodyStarted(q.Line());
    while i < MAX_FORMS
      invariant 0 <= i <= MAX_FORMS && q.Valid()
      invariant forall p :: p in q.Line() ==> p.queuedAt != 0
      invariant Accounted(old(q.Line()), q.Line(), started)
      invariant forall k :: 0 <= k < |started| ==> |started[k].players| + started[k].bots == Sane(rules).roomSize
    {
      ghost var was := q.Line();
      LineHolds(q.z, q.h);
      var m := q.TryForm(rules, clock(i));
      if m.None? {
        return;
      }
      FormedByPass(was, Sane(rules), clock(i), q.Line(), m.value);
      if !accepts(i) {
        FleetRequeue(q, m.value.players, clock(i));
        return;
      }
      MatchStarted(old(q.Line()), was, q.Line(), started, m.value);
      started := started + [m.value];
      i := i + 1;
    }
  }

  method FleetRequeue(q: RedisQueue, players: seq<QueuePlayer>, now: int)
    requires q.Valid() && Names(q.Line()) !! Names(players) && Distinct(players)
    requires forall p :: p in players ==> p.queuedAt != 0
    modifies q
    ensures q.Valid() && q.Line() == Requeued(old(q.Line()), players)
  {
    hide PlayersOf, IsRange;
    var i := 0;
    NamesAreQueued(q.Line());
    NamesAreQueued(players);
    assert players[0..] == players;
    while i < |players|
      invariant 0 <= i <= |players| && q.Valid()
      invariant Requeued(q.Line(), players[i..]) == Requeued(old(q.Line()), players)
      invariant forall k :: i <= k < |players| ==> !InQueue(q.Line(), players[k].connId)
    {
      ghost var was := q.Line();
      assert players[i..][0] == players[i] && players[i..][1..] == players[i + 1..];
      q.Enqueue(players[i], now);
      InsertedHolds(was, players[i]);
      NamesAreQueued(was);
      NamesAreQueued(q.Line());
      i := i + 1;
    }
  }
}
