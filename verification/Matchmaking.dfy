/**
 The match queue. What a match is, and what forming one leaves behind, is stated once on the list of
 waiting players; the in-memory queue and the Redis script are each proved to do exactly that, so on the
 same queue, rules and clock they pick the same players and leave the same queue.
 */
module Matchmaking {
  import opened Wrappers
  import Lex

  datatype QueuePlayer = QueuePlayer(connId: string, skill: int, queuedAt: int)

  /** Times are in whole milliseconds. */
  datatype Rules = Rules(roomSize: int, minPlayers: int, timeout: int, skillWindow: int, widen: int, maxWindow: int)

  datatype Match = Match(players: seq<QueuePlayer>, bots: nat)

  const SCAN_DEPTH := 8

  // ---- the order ----

  /** Longest wait first, ties by connection id. */
  predicate Ahead(a: QueuePlayer, b: QueuePlayer) {
    a.queuedAt < b.queuedAt || (a.queuedAt == b.queuedAt && Lex.Less(a.connId, b.connId))
  }

  lemma AheadTransitive(a: QueuePlayer, b: QueuePlayer, c: QueuePlayer)
    requires Ahead(a, b) && Ahead(b, c)
    ensures Ahead(a, c)
  {
    if a.queuedAt == b.queuedAt == c.queuedAt {
      Lex.Transitive(a.connId, b.connId, c.connId);
    }
  }

  lemma AheadAsymmetric(a: QueuePlayer, b: QueuePlayer)
    requires Ahead(a, b)
    ensures !Ahead(b, a)
  {
    if Ahead(b, a) {
      AheadTransitive(a, b, a);
      Lex.Irreflexive(a.connId);
    }
  }

  lemma AheadTotal(a: QueuePlayer, b: QueuePlayer)
    requires a.connId != b.connId
    ensures Ahead(a, b) || Ahead(b, a)
  {
    Lex.Total(a.connId, b.connId);
  }

  ghost predicate InLine(list: seq<QueuePlayer>) {
    forall i, j :: 0 <= i < j < |list| ==> Ahead(list[i], list[j])
  }

  ghost predicate Distinct(list: seq<QueuePlayer>) {
    forall i, j :: 0 <= i < j < |list| ==> list[i].connId != list[j].connId
  }

  ghost function Names(list: seq<QueuePlayer>): set<string> {
    set p | p in list :: p.connId
  }

  /** A queue in line is determined by who is in it. */
  lemma {:induction false} SameLine(a: seq<QueuePlayer>, b: seq<QueuePlayer>)
    requires InLine(a) && InLine(b) && forall p :: p in a <==> p in b
    ensures a == b
    decreases |a|
  {
    SomebodyOrEmpty(a);
    SomebodyOrEmpty(b);
    if a != [] && b != [] {
      if a[0] != b[0] {
        assert b[0] in a && a[0] in b;
        var i :| 0 <= i < |a| && a[i] == b[0];
        var j :| 0 <= j < |b| && b[j] == a[0];
        AheadAsymmetric(a[0], b[0]);
        assert false;
      }
      forall p
        ensures p in a[1..] <==> p in b[1..]
      {
        InTail(a, p);
        InTail(b, p);
      }
      SameLine(a[1..], b[1..]);
      assert a == [a[0]] + a[1..] && b == [b[0]] + b[1..];
    }
  }

  lemma SomebodyOrEmpty(a: seq<QueuePlayer>)
    ensures a == [] || exists p :: p in a
  {
    if a != [] {
      assert a[0] in a;
    }
  }

  lemma InTail(a: seq<QueuePlayer>, p: QueuePlayer)
    requires InLine(a) && a != []
    ensures p in a[1..] <==> p in a && p != a[0]
  {
    if p in a && p != a[0] {
      var i :| 0 <= i < |a| && a[i] == p;
      assert a[1..][i - 1] == p;
    }
    if p in a[1..] {
      var i :| 0 <= i < |a[1..]| && a[1..][i] == p;
      assert a[i + 1] == p && Ahead(a[0], p);
      if p == a[0] {
        AheadAsymmetric(p, p);
      }
    }
  }

  // ---- joining ----

  function Inserted(list: seq<QueuePlayer>, p: QueuePlayer): seq<QueuePlayer> {
    if list == [] || !Ahead(list[0], p) then [p] + list else [list[0]] + Inserted(list[1..], p)
  }

  lemma {:induction false} InsertedHolds(list: seq<QueuePlayer>, p: QueuePlayer)
    ensures forall q :: q in Inserted(list, p) <==> q == p || q in list
    ensures multiset(Inserted(list, p)) == multiset(list) + multiset{p}
  {
    if list != [] && Ahead(list[0], p) {
      InsertedHolds(list[1..], p);
      assert list == [list[0]] + list[1..];
    }
  }

  lemma {:induction false} InsertedInLine(list: seq<QueuePlayer>, p: QueuePlayer)
    requires InLine(list) && p.connId !in Names(list)
    ensures InLine(Inserted(list, p))
  {
    if list == [] {
    } else if Ahead(list[0], p) {
      assert Names(list[1..]) <= Names(list);
      InsertedInLine(list[1..], p);
      InsertedHolds(list[1..], p);
      var r := Inserted(list[1..], p);
      forall j | 0 <= j < |r|
        ensures Ahead(list[0], r[j])
      {
        assert r[j] in r;
      }
    } else {
      assert list[0] in list;
      AheadTotal(p, list[0]);
      forall j | 0 <= j < |list|
        ensures Ahead(p, list[j])
      {
        if j > 0 {
          AheadTransitive(p, list[0], list[j]);
        }
      }
    }
  }

  lemma InsertedAt(list: seq<QueuePlayer>, p: QueuePlayer, i: nat)
    requires i <= |list| && (forall j :: 0 <= j < i ==> Ahead(list[j], p)) && (i < |list| ==> !Ahead(list[i], p))
    ensures Inserted(list, p) == list[..i] + [p] + list[i..]
    decreases i
  {
    if i > 0 {
      InsertedAt(list[1..], p, i - 1);
      assert list[..i] == [list[0]] + list[1..][..i - 1];
    }
  }

  // ---- forming ----

  function Sane(r: Rules): Rules {
    var room := if r.roomSize <= 0 then 1 else r.roomSize;
    var least := if r.minPlayers <= 0 then 1 else r.minPlayers;
    r.(roomSize := room, minPlayers := if least > room then room else least)
  }

  /** The rating spread allowed after a wait; zero is no limit. */
  function WindowAt(r: Rules, wait: int): int {
    if r.skillWindow <= 0 then 0
    else
      var w := r.skillWindow + if r.widen > 0 && wait > 0 then wait * r.widen / 1000 else 0;
      if r.maxWindow > 0 && w > r.maxWindow then r.maxWindow else w
  }

  function Gap(a: int, b: int): nat {
    if a < b then b - a else a - b
  }

  predicate Fits(p: QueuePlayer, anchor: QueuePlayer, window: int) {
    window <= 0 || Gap(p.skill, anchor.skill) <= window
  }

  /** The company found so far, extended from the front of the line until the room is full. */
  function Picks(picked: seq<QueuePlayer>, rest: seq<QueuePlayer>, anchor: QueuePlayer, window: int, room: int): seq<QueuePlayer>
    decreases |rest|
  {
    if rest == [] || |picked| == room then picked
    else Picks(if Fits(rest[0], anchor, window) then picked + [rest[0]] else picked, rest[1..], anchor, window, room)
  }

  function Scanned(list: seq<QueuePlayer>, r: Rules): (s: seq<QueuePlayer>)
    requires list != [] && r.roomSize >= 1
    ensures s <= list[1..]
  {
    var depth := r.roomSize * SCAN_DEPTH - 1;
    if |list| - 1 > depth then list[1..depth + 1] else list[1..]
  }

  /** Who the next match is, if it can be formed now. `r` is sane. */
  function Formed(list: seq<QueuePlayer>, r: Rules, now: int): Option<seq<QueuePlayer>>
    requires r.roomSize >= 1
  {
    if list == [] then None
    else
      var wait := now - list[0].queuedAt;
      var picked := Picks([list[0]], Scanned(list, r), list[0], WindowAt(r, wait), r.roomSize);
      if |picked| >= r.roomSize || (r.timeout > 0 && wait >= r.timeout && |picked| >= r.minPlayers) then Some(picked)
      else None
  }

  function MatchOf(picked: seq<QueuePlayer>, r: Rules): Match {
    Match(picked, if |picked| < r.roomSize then r.roomSize - |picked| else 0)
  }

  function Without(list: seq<QueuePlayer>, gone: set<string>): seq<QueuePlayer> {
    if list == [] then []
    else Without(list[..|list| - 1], gone) + if list[|list| - 1].connId in gone then [] else [list[|list| - 1]]
  }

  function Left(list: seq<QueuePlayer>, f: Option<seq<QueuePlayer>>): seq<QueuePlayer> {
    match f
    case None => list
    case Some(picked) => Without(list, set p | p in picked :: p.connId)
  }

  lemma {:induction false} WithoutHolds(list: seq<QueuePlayer>, gone: set<string>)
    ensures forall q :: q in Without(list, gone) <==> q in list && q.connId !in gone
    ensures InLine(list) ==> InLine(Without(list, gone))
    ensures Distinct(list) ==> Distinct(Without(list, gone))
  {
    hide Ahead;
    if list != [] {
      var n := |list| - 1;
      WithoutHolds(list[..n], gone);
      assert list == list[..n] + [list[n]];
      var w := Without(list[..n], gone);
      forall i | 0 <= i < |w|
        ensures InLine(list) ==> Ahead(w[i], list[n])
        ensures Distinct(list) ==> w[i].connId != list[n].connId
      {
        assert w[i] in w;
        var j :| 0 <= j < n && list[j] == w[i];
      }
    }
  }

  // ---- the window, and when a match is formed ----

  /**
   A gap in rating is near enough after a wait: inside the window to begin with, or inside what a thousandth of the
   wait times the rate has added to it, and never beyond the ceiling. No window is no limit.
   */
  predicate NearEnough(r: Rules, wait: int, gap: nat) {
    || r.skillWindow <= 0
    || (&& (gap <= r.skillWindow || (r.widen > 0 && wait > 0 && 1000 * (gap - r.skillWindow) <= wait * r.widen))
        && (r.maxWindow <= 0 || gap <= r.maxWindow))
  }

  lemma FitsExactly(r: Rules, wait: int, p: QueuePlayer, anchor: QueuePlayer)
    ensures Fits(p, anchor, WindowAt(r, wait)) <==> NearEnough(r, wait, Gap(p.skill, anchor.skill))
  {
    if r.widen > 0 && wait > 0 {
      assert wait * r.widen >= 0;
      WholeThousands(wait * r.widen, Gap(p.skill, anchor.skill) - r.skillWindow);
    }
  }

  lemma WholeThousands(total: int, g: int)
    requires total >= 0
    ensures g <= total / 1000 <==> 1000 * g <= total
  {
  }

  /** Whoever is near enough stays near enough, however much longer the wait. */
  lemma WaitingOnlyHelps(r: Rules, wait: int, longer: int, gap: nat)
    requires wait <= longer && NearEnough(r, wait, gap)
    ensures NearEnough(r, longer, gap)
  {
    if r.widen > 0 && wait > 0 {
      assert longer * r.widen == wait * r.widen + (longer - wait) * r.widen;
      assert (longer - wait) * r.widen >= 0;
    }
  }

  /** With a window that widens and no ceiling everybody is near enough in the end. */
  lemma EverybodyFitsInTime(r: Rules, gap: nat)
    requires r.widen > 0 && r.maxWindow <= 0
    ensures NearEnough(r, 1000 * gap + 1, gap)
  {
    TimesAtLeastOne(1000 * gap + 1, r.widen);
  }

  lemma TimesAtLeastOne(a: nat, k: int)
    requires k >= 1
    ensures a * k >= a
  {
    assert a * k == a + a * (k - 1);
  }

  /** How many of these are near enough to the anchor. */
  function Company(rest: seq<QueuePlayer>, anchor: QueuePlayer, r: Rules, wait: int): (n: nat)
    ensures n <= |rest|
  {
    if rest == [] then 0
    else Company(rest[1..], anchor, r, wait) + if NearEnough(r, wait, Gap(rest[0].skill, anchor.skill)) then 1 else 0
  }

  lemma {:induction false} PicksCount(picked: seq<QueuePlayer>, rest: seq<QueuePlayer>, anchor: QueuePlayer, r: Rules, wait: int)
    requires |picked| <= r.roomSize
    ensures var n := |picked| + Company(rest, anchor, r, wait);
      |Picks(picked, rest, anchor, WindowAt(r, wait), r.roomSize)| == if n < r.roomSize then n else r.roomSize
    decreases |rest|
  {
    hide WindowAt, Fits, NearEnough;
    if rest != [] && |picked| < r.roomSize {
      FitsExactly(r, wait, rest[0], anchor);
      PicksCount(if Fits(rest[0], anchor, WindowAt(r, wait)) then picked + [rest[0]] else picked, rest[1..], anchor, r, wait);
    }
  }

  /**
   When a match is formed: exactly when the eight rooms' worth of players at the front of the line hold enough
   company for the longest waiting one, or enough for the smallest match and the wait is over.
   */
  lemma FormedExactly(list: seq<QueuePlayer>, r: Rules, now: int)
    requires r == Sane(r)
    ensures Formed(list, r, now).Some? <==>
      && list != []
      && var wait, front := now - list[0].queuedAt, list[..if |list| <= 8 * r.roomSize then |list| else 8 * r.roomSize];
         var n := 1 + Company(front[1..], list[0], r, wait);
         n >= r.roomSize || (r.timeout > 0 && wait >= r.timeout && n >= r.minPlayers)
  {
    if list != [] {
      var front := list[..if |list| <= 8 * r.roomSize then |list| else 8 * r.roomSize];
      assert front[1..] == Scanned(list, r);
      PicksCount([list[0]], Scanned(list, r), list[0], r, now - list[0].queuedAt);
    }
  }

  /** Two players alone in line, for a room of two: before the timeout they are matched exactly when they are near enough. */
  lemma PairIsMatchedExactly(a: QueuePlayer, b: QueuePlayer, r: Rules, now: int)
    requires r == Sane(r) && r.roomSize == 2 && (r.timeout <= 0 || now - a.queuedAt < r.timeout)
    ensures Formed([a, b], r, now).Some? <==> NearEnough(r, now - a.queuedAt, Gap(b.skill, a.skill))
  {
    hide NearEnough, Formed;
    FormedExactly([a, b], r, now);
    assert [a, b][..2][1..] == [b] && [b][1..] == [];
    assert Company([b][1..], a, r, now - a.queuedAt) == 0;
  }

  /** Rules are made sane by the least change: a room holds somebody, and a match needs somebody and no more than a room. */
  lemma SaneIsSane(r: Rules)
    ensures var s := Sane(r);
      && 1 <= s.minPlayers <= s.roomSize && s == r.(roomSize := s.roomSize, minPlayers := s.minPlayers)
      && (r.roomSize >= 1 ==> s.roomSize == r.roomSize) && (r.roomSize < 1 ==> s.roomSize == 1)
      && (1 <= r.minPlayers <= s.roomSize ==> s.minPlayers == r.minPlayers)
      && (r.minPlayers < 1 ==> s.minPlayers == 1) && (r.minPlayers > s.roomSize ==> s.minPlayers == s.roomSize)
  {
  }

  // ---- what a match is ----

  lemma {:induction false} PicksShape(picked: seq<QueuePlayer>, rest: seq<QueuePlayer>, anchor: QueuePlayer, window: int, room: int)
    requires 1 <= |picked| <= room
    ensures var out := Picks(picked, rest, anchor, window, room);
      && picked <= out && |out| <= room
      && (forall i :: |picked| <= i < |out| ==> out[i] in rest && Fits(out[i], anchor, window))
      && (|out| < room ==> forall q :: q in rest && Fits(q, anchor, window) ==> q in out)
      && (InLine(picked + rest) ==> InLine(out))
      && (InLine(picked + rest) ==> forall q, p :: q in rest && Fits(q, anchor, window) && q !in out && p in out ==> Ahead(p, q))
    decreases |rest|
  {
    hide InLine, Fits;
    if rest != [] && |picked| < room {
      var next := if Fits(rest[0], anchor, window) then picked + [rest[0]] else picked;
      PicksShape(next, rest[1..], anchor, window, room);
      assert rest == [rest[0]] + rest[1..];
      if InLine(picked + rest) {
        assert picked + rest == picked + [rest[0]] + rest[1..];
        SkippingKeepsLine(picked, rest[0], rest[1..]);
      }
      var out := Picks(picked, rest, anchor, window, room);
      if next != picked {
        assert out[|picked|] == rest[0];
      }
    } else if InLine(picked + rest) {
      FrontKeepsLine(picked, rest);
      FrontIsAhead(picked, rest);
    }
  }

  /** Everybody picked so far is ahead of everybody not looked at yet. */
  lemma FrontIsAhead(a: seq<QueuePlayer>, b: seq<QueuePlayer>)
    requires InLine(a + b)
    ensures forall p, q :: p in a && q in b ==> Ahead(p, q)
  {
    forall p, q | p in a && q in b
      ensures Ahead(p, q)
    {
      var i :| 0 <= i < |a| && a[i] == p;
      var j :| 0 <= j < |b| && b[j] == q;
      assert (a + b)[i] == p && (a + b)[|a| + j] == q;
    }
  }

  lemma FrontKeepsLine(a: seq<QueuePlayer>, b: seq<QueuePlayer>)
    requires InLine(a + b)
    ensures InLine(a)
  {
    assert forall i :: 0 <= i < |a| ==> (a + b)[i] == a[i];
  }

  lemma SkippingKeepsLine(a: seq<QueuePlayer>, p: QueuePlayer, b: seq<QueuePlayer>)
    requires InLine(a + [p] + b)
    ensures InLine(a + b)
  {
    var s, t := a + [p] + b, a + b;
    forall i, j | 0 <= i < j < |t|
      ensures Ahead(t[i], t[j])
    {
      var i', j' := if i < |a| then i else i + 1, if j < |a| then j else j + 1;
      assert s[i'] == t[i] && s[j'] == t[j];
    }
  }

  /**
   What every formed match is: the longest waiting player first; company from the scanned part of the line, all
   near enough to the anchor; players and bots filling the room exactly. Whoever in that part would have fitted
   and was left out waits behind everybody picked, and there is nobody like that when the room is short.
   */
  lemma MatchIsFair(list: seq<QueuePlayer>, r: Rules, now: int)
    requires InLine(list) && r == Sane(r) && Formed(list, r, now).Some?
    ensures var picked := Formed(list, r, now).value;
      var wait, anchor := now - list[0].queuedAt, list[0];
      && 1 <= |picked| && picked[0] == anchor && InLine(picked)
      && (forall p :: p in picked ==> p in list && (p == anchor || NearEnough(r, wait, Gap(p.skill, anchor.skill))))
      && |picked| + MatchOf(picked, r).bots == r.roomSize
      && r.minPlayers <= |picked| <= r.roomSize
      && (forall p :: p in picked ==> p == anchor || p in Scanned(list, r))
      && (|picked| < r.roomSize ==> forall q :: q in Scanned(list, r) && NearEnough(r, wait, Gap(q.skill, anchor.skill)) ==> q in picked)
      && (forall q, p :: q in Scanned(list, r) && NearEnough(r, wait, Gap(q.skill, anchor.skill)) && q !in picked && p in picked ==> Ahead(p, q))
  {
    var wait, anchor, rest := now - list[0].queuedAt, list[0], Scanned(list, r);
    PicksShape([anchor], rest, anchor, WindowAt(r, wait), r.roomSize);
    hide WindowAt, Fits, NearEnough;
    forall p
      ensures Fits(p, anchor, WindowAt(r, wait)) <==> NearEnough(r, wait, Gap(p.skill, anchor.skill))
    {
      FitsExactly(r, wait, p, anchor);
    }
    assert [anchor] + rest == list[..|rest| + 1];
    var picked := Formed(list, r, now).value;
    forall p | p in picked
      ensures p in list && (p == anchor || (p in rest && Fits(p, anchor, WindowAt(r, wait))))
    {
      var i :| 0 <= i < |picked| && picked[i] == p;
      if i > 0 {
        var k :| 0 <= k < |rest| && rest[k] == p;
        assert list[k + 1] == p;
      }
    }
  }

  /** Nobody is lost and nobody is duplicated: the queue before is the queue after and the match. */
  lemma FormConserves(list: seq<QueuePlayer>, r: Rules, now: int)
    requires InLine(list) && Distinct(list) && r == Sane(r) && Formed(list, r, now).Some?
    ensures var picked := Formed(list, r, now).value;
      var left := Left(list, Some(picked));
      && InLine(left) && Distinct(left)
      && (forall q :: q in list <==> q in picked || q in left)
      && (forall q :: !(q in picked && q in left))
      && Names(picked) !! Names(left)
  {
    MatchIsFair(list, r, now);
    var picked := Formed(list, r, now).value;
    var gone := set p | p in picked :: p.connId;
    WithoutHolds(list, gone);
    forall q | q in list && q.connId in gone
      ensures q in picked
    {
      var p :| p in picked && p.connId == q.connId;
      var i :| 0 <= i < |list| && list[i] == p;
      var j :| 0 <= j < |list| && list[j] == q;
      assert i == j;
    }
  }

  // ---- putting a refused match back ----

  function Requeued(list: seq<QueuePlayer>, players: seq<QueuePlayer>): seq<QueuePlayer>
    decreases |players|
  {
    if players == [] then list else Requeued(Inserted(list, players[0]), players[1..])
  }

  lemma {:induction false} RequeuedHolds(list: seq<QueuePlayer>, players: seq<QueuePlayer>)
    requires InLine(list) && Distinct(players) && Names(list) !! Names(players)
    ensures InLine(Requeued(list, players))
    ensures forall q :: q in Requeued(list, players) <==> q in list || q in players
    decreases |players|
  {
    if players != [] {
      var p, rest := players[0], players[1..];
      assert players == [p] + rest && p in players;
      assert p.connId in Names(players);
      InsertedInLine(list, p);
      InsertedHolds(list, p);
      forall n | n in Names(rest)
        ensures n !in Names(Inserted(list, p))
      {
        var q :| q in rest && q.connId == n;
        assert q in players && q.connId in Names(players);
        var i :| 0 <= i < |rest| && rest[i] == q;
        assert players[i + 1] == q;
      }
      RequeuedHolds(Inserted(list, p), rest);
    }
  }

  /** Forming a match and putting it back restores the line exactly. */
  lemma RequeueRestores(list: seq<QueuePlayer>, r: Rules, now: int)
    requires InLine(list) && Distinct(list) && r == Sane(r) && Formed(list, r, now).Some?
    ensures var picked := Formed(list, r, now).value;
      Requeued(Left(list, Some(picked)), picked) == list
  {
    FormConserves(list, r, now);
    MatchIsFair(list, r, now);
    var picked := Formed(list, r, now).value;
    var left := Left(list, Some(picked));
    DistinctPart(list, picked);
    RequeuedHolds(left, picked);
    SameLine(Requeued(left, picked), list);
  }

  /** Who joins between the forming and the putting back makes no difference: the line is as if no match had formed. */
  lemma RequeueAmongJoiners(list: seq<QueuePlayer>, joiners: seq<QueuePlayer>, r: Rules, now: int)
    requires InLine(list) && Distinct(list) && r == Sane(r) && Formed(list, r, now).Some?
    requires Distinct(joiners) && Names(list) !! Names(joiners)
    ensures var picked := Formed(list, r, now).value;
      Requeued(Requeued(Left(list, Some(picked)), joiners), picked) == Requeued(list, joiners)
  {
    hide Formed, Left, Requeued;
    FormConserves(list, r, now);
    MatchIsFair(list, r, now);
    var picked := Formed(list, r, now).value;
    var left := Left(list, Some(picked));
    DistinctPart(list, picked);
    NamesOfPart(list, left);
    NamesOfPart(list, picked);
    RequeuedHolds(left, joiners);
    RequeuedHolds(list, joiners);
    var longer := Requeued(left, joiners);
    forall p, q | p in longer && q in picked
      ensures p.connId != q.connId
    {
      assert q.connId in Names(picked);
      if p in joiners {
        assert p.connId in Names(joiners);
      } else {
        assert p.connId in Names(left);
      }
    }
    RequeuedHolds(longer, picked);
    SameLine(Requeued(longer, picked), Requeued(list, joiners));
  }

  lemma NamesOfPart(list: seq<QueuePlayer>, part: seq<QueuePlayer>)
    requires forall p :: p in part ==> p in list
    ensures Names(part) <= Names(list)
  {
  }

  lemma DistinctPart(list: seq<QueuePlayer>, part: seq<QueuePlayer>)
    requires Distinct(list) && InLine(part) && forall p :: p in part ==> p in list
    ensures Distinct(part)
  {
    forall i, j | 0 <= i < j < |part|
      ensures part[i].connId != part[j].connId
    {
      assert part[i] in part && part[j] in part && Ahead(part[i], part[j]);
      var a :| 0 <= a < |list| && list[a] == part[i];
      var b :| 0 <= b < |list| && list[b] == part[j];
      if a == b {
        AheadAsymmetric(part[i], part[j]);
      }
    }
  }
}
