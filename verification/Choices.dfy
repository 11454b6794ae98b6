/** What the simulation's choices mean: whom a shot hits, where a player returns, who won. */
module Choices {
  import opened Wrappers
  import opened FixedPoint
  import opened Geometry
  import opened SimTypes
  import opened Arena
  import opened Laws

  // ---- hits ----

  /** The shot stops at whom it reaches first: nobody in reach comes sooner. It stops at nobody only if nobody is in reach. */
  lemma {:induction false} StruckIsFirst(players: seq<Player>, n: nat, shot: Projectile, fx: int, fy: int)
    requires n <= |players| && forall i, j :: 0 <= i < j < |players| ==> players[i].id < players[j].id
    ensures match FirstStruck(players, n, shot, fx, fy)
      case None => forall k :: 0 <= k < n ==> !InReach(players[k], shot, fx, fy)
      case Some(j) =>
        && InReach(players[j], shot, fx, fy)
        && forall k :: 0 <= k < n && k != j && InReach(players[k], shot, fx, fy) ==> Sooner(players[j], players[k], shot, fx, fy)
  {
    hide InReach, AlongPath;
    if n > 0 {
      StruckIsFirst(players, n - 1, shot, fx, fy);
      var before := FirstStruck(players, n - 1, shot, fx, fy);
      if before.Some? && InReach(players[n - 1], shot, fx, fy) {
        assert players[before.value].id < players[n - 1].id;
      }
    }
  }

  /** A living rival the path comes close to is hit by someone's being hit: the shot finds a target. */
  lemma NearbyRivalIsStruck(players: seq<Player>, k: nat, shot: Projectile, fx: int, fy: int)
    requires k < |players| && players[k].alive && players[k].id != shot.owner
    requires forall i, j :: 0 <= i < j < |players| ==> players[i].id < players[j].id
    requires PassesWithin(players[k].x, players[k].y, fx, fy, shot.x, shot.y, (REACH - 2) as real)
    ensures FirstStruck(players, |players|, shot, fx, fy).Some?
  {
    NearIsFound(players[k].x, players[k].y, fx, fy, shot.x, shot.y);
    StruckIsFirst(players, |players|, shot, fx, fy);
  }

  /** And nobody is struck whom the path does not come close to. */
  lemma StruckIsNear(players: seq<Player>, shot: Projectile, fx: int, fy: int)
    requires FirstStruck(players, |players|, shot, fx, fy).Some?
    ensures var p := players[FirstStruck(players, |players|, shot, fx, fy).value];
      p.alive && p.id != shot.owner && PassesWithin(p.x, p.y, fx, fy, shot.x, shot.y, (REACH + 2) as real)
  {
    StruckIsAlive(players, |players|, shot, fx, fy);
    var p := players[FirstStruck(players, |players|, shot, fx, fy).value];
    FoundIsNear(p.x, p.y, fx, fy, shot.x, shot.y);
  }

  /** A shot stops exactly when whom it reaches first is not protected; the next in line is never tried. */
  lemma StopsUnlessProtected(w: State, shot: Projectile, fx: int, fy: int)
    ensures var struck := FirstStruck(w.players, |w.players|, shot, fx, fy);
      && (Sweep(w, shot, fx, fy).1 <==> struck.Some? && w.players[struck.value].protect == 0)
      && (!Sweep(w, shot, fx, fy).1 ==> Sweep(w, shot, fx, fy).0 == w)
  {
  }

  /**
   So protection shields whoever stands behind: the shot passes a protected player and then an unprotected one
   on a single stride, and hits neither.
   */
  lemma ProtectedPlayerShields()
    ensures var first := Player(2, 110_000, 100_000, 0, 100, 0, 0, 0, true, false, 0, 5, false, 0);
      var behind := Player(3, 130_000, 100_000, 0, 100, 0, 0, 0, true, false, 0, 0, false, 0);
      var shot := Projectile(1, 1, 136_000, 100_000, 36_000, 0, 20);
      var w := State(1, [first, behind], [], 2, 0, false, 0, [], []);
      && InReach(behind, shot, 100_000, 100_000) && behind.protect == 0
      && Sweep(w, shot, 100_000, 100_000) == (w, false)
  {
    var first := Player(2, 110_000, 100_000, 0, 100, 0, 0, 0, true, false, 0, 5, false, 0);
    var behind := Player(3, 130_000, 100_000, 0, 100, 0, 0, 0, true, false, 0, 0, false, 0);
    var shot := Projectile(1, 1, 136_000, 100_000, 36_000, 0, 20);
    var players := [first, behind];
    assert SegDist2(110_000, 100_000, 100_000, 100_000, 136_000, 100_000) == 0;
    assert SegDist2(130_000, 100_000, 100_000, 100_000, 136_000, 100_000) == 0;
    assert InReach(first, shot, 100_000, 100_000) && InReach(behind, shot, 100_000, 100_000);
    assert AlongPath(first, shot, 100_000, 100_000) == 360_000_000 && AlongPath(behind, shot, 100_000, 100_000) == 1_080_000_000;
    hide SegDist2, InReach, AlongPath;
    assert FirstStruck(players, 1, shot, 100_000, 100_000) == Some(0);
    assert FirstStruck(players, 2, shot, 100_000, 100_000) == Some(0);
  }

  /** A hit that lands costs a quarter of a full life; the feed's hit event tells the health left, and a kill follows exactly when none is. */
  lemma HitIsToldAsItIs(w: State, j: nat, owner: nat)
    requires j < |w.players| && w.players[j].protect == 0
    ensures var b, p := Damage(w, j, owner).0, w.players[j];
      && b.players[j].hp == (if p.hp > DAMAGE then p.hp - DAMAGE else 0)
      && (b.players[j].alive <==> p.alive && p.hp > DAMAGE)
      && w.events < b.events
      && b.events[|w.events|] == Event(w.tick, EventHit, owner, p.id, b.players[j].hp)
      && (b.players[j].hp == 0 <==> b.events[|b.events| - 1] == Event(w.tick, EventKill, owner, p.id, 0))
    ensures forall k :: 0 <= k < |w.players| && k != j ==> Damage(w, j, owner).0.players[k].hp == w.players[k].hp
  {
    hide IndexOf;
  }

  // ---- respawning ----

  function Taken(claimed: seq<bool>): nat {
    if claimed == [] then 0 else Taken(claimed[..|claimed| - 1]) + if claimed[|claimed| - 1] then 1 else 0
  }

  lemma {:induction false} TakenAfter(claimed: seq<bool>, k: nat)
    requires k < |claimed|
    ensures Taken(claimed[k := true]) <= Taken(claimed) + 1
  {
    var n := |claimed| - 1;
    if k < n {
      TakenAfter(claimed[..n], k);
      assert claimed[k := true][..n] == claimed[..n][k := true];
    } else {
      assert claimed[k := true][..n] == claimed[..n];
    }
  }

  lemma {:induction false} SomeSlotIsFree(claimed: seq<bool>)
    requires Taken(claimed) < |claimed|
    ensures exists k :: 0 <= k < |claimed| && !claimed[k]
  {
    var n := |claimed| - 1;
    if claimed[n] {
      SomeSlotIsFree(claimed[..n]);
      var k :| 0 <= k < n && !claimed[..n][k];
      assert !claimed[k];
    }
  }

  lemma {:induction false} NoneTaken(n: nat)
    ensures Taken(Unclaimed(n)) == 0
  {
    if n > 0 {
      NoneTaken(n - 1);
      assert Unclaimed(n)[..n - 1] == Unclaimed(n - 1);
    }
  }

  /** The threat to a ring point is the distance to the nearest living rival, or -1 when there is none. */
  lemma {:induction false} ThreatIsNearest(w: State, self: nat, slot: nat, k: nat)
    requires k <= |w.players|
    ensures var t, n := Threat(w, self, slot, k), |w.players|;
      && t >= -1
      && (forall j :: 0 <= j < k && w.players[j].alive && w.players[j].id != self ==>
           0 <= t <= Dist2(SpawnX(slot, n), SpawnY(slot, n), w.players[j].x, w.players[j].y))
      && (t >= 0 ==> exists j :: 0 <= j < k && w.players[j].alive && w.players[j].id != self
                      && t == Dist2(SpawnX(slot, n), SpawnY(slot, n), w.players[j].x, w.players[j].y))
  {
    hide SpawnX, SpawnY, Dist2;
    if k > 0 {
      ThreatIsNearest(w, self, slot, k - 1);
    }
  }

  /** The safest point is free, and no free point is further from its nearest rival; of equals it is the lowest. */
  lemma {:induction false} SafestIsSafest(w: State, self: nat, k: nat)
    requires k <= |w.players| == |w.claimed|
    ensures var n := |w.players|;
      match Safest(w, self, k)
      case None => forall j :: 0 <= j < k ==> w.claimed[j]
      case Some(s) =>
        && !w.claimed[s]
        && forall j :: 0 <= j < k && !w.claimed[j] ==>
          Threat(w, self, j, n) <= Threat(w, self, s, n) && (j < s ==> Threat(w, self, j, n) < Threat(w, self, s, n))
  {
    hide Threat;
    if k > 0 {
      SafestIsSafest(w, self, k - 1);
    }
  }

  /** Whether the visit brings its player back. */
  predicate Returns(p: Player) {
    !p.alive && !p.left && p.respawn == 0
  }

  /** The world as the respawn pass reaches a seat. */
  function Reached(r: Rules, w: State, i: nat): (s: State)
    requires i < |w.players|
    ensures |s.players| == |w.players| == |s.claimed|
  {
    Walk(r, w.(claimed := Unclaimed(|w.players|)), Returning, i)
  }

  lemma {:induction false} ClaimsGrow(r: Rules, w: State, i: nat)
    requires i < |w.players|
    ensures Taken(Reached(r, w, i).claimed) <= i
    ensures forall k :: i <= k < |w.players| ==> Reached(r, w, i).players[k] == w.players[k]
  {
    if i == 0 {
      NoneTaken(|w.players|);
    } else {
      ClaimsGrow(r, w, i - 1);
      OneReturn(Reached(r, w, i - 1), i - 1);
    }
  }

  lemma OneReturn(w: State, i: nat)
    requires i < |w.players| == |w.claimed|
    ensures var b := ReturnAt(w, i);
      && (Returns(w.players[i]) ==> b.claimed == w.claimed[SafestSlot(w, w.players[i].id) := true])
      && (!Returns(w.players[i]) ==> b.claimed == w.claimed)
      && Taken(b.claimed) <= Taken(w.claimed) + 1
      && forall k :: 0 <= k < |w.players| && k != i ==> b.players[k] == w.players[k]
  {
    hide SafestSlot, SpawnX, SpawnY, Taken;
    TakenAfter(w.claimed, SafestSlot(w, w.players[i].id));
  }

  /** There is always a free point: the fallback to point 0 is never what places anybody. */
  lemma FallbackIsUnreachable(r: Rules, w: State, i: nat)
    requires i < |w.players|
    ensures Safest(Reached(r, w, i), w.players[i].id, |w.players|).Some?
    ensures !Reached(r, w, i).claimed[SafestSlot(Reached(r, w, i), w.players[i].id)]
  {
    var a := Reached(r, w, i);
    ClaimsGrow(r, w, i);
    SomeSlotIsFree(a.claimed);
    SafestIsSafest(a, w.players[i].id, |w.players|);
  }

  function SlotOf(r: Rules, w: State, i: nat): (slot: nat)
    requires i < |w.players|
    ensures slot < |w.players|
  {
    SafestSlot(Reached(r, w, i), w.players[i].id)
  }

  lemma {:induction false} ClaimsStay(r: Rules, w: State, i: nat, j: nat)
    requires i < j < |w.players| && Returns(w.players[i])
    ensures Reached(r, w, j).claimed[SlotOf(r, w, i)]
  {
    hide SafestSlot;
    ClaimsGrow(r, w, j - 1);
    OneReturn(Reached(r, w, j - 1), j - 1);
    if i < j - 1 {
      ClaimsStay(r, w, i, j - 1);
    }
  }

  /** Two players who come back on the same step stand on different points of the ring. */
  lemma ReturnsTakeDistinctSlots(r: Rules, w: State, i: nat, j: nat)
    requires i < j < |w.players| && Returns(w.players[i]) && Returns(w.players[j])
    ensures SlotOf(r, w, i) != SlotOf(r, w, j)
  {
    ClaimsStay(r, w, i, j);
    FallbackIsUnreachable(r, w, j);
  }

  // ---- the result ----

  lemma {:induction false} LeadIsBest(players: seq<Player>, n: nat)
    requires 0 < n <= |players|
    ensures var (best, tied) := Lead(players, n);
      && (forall k :: 0 <= k < n ==> players[k].score <= players[best].score)
      && (tied <==> exists k :: 0 <= k < n && k != best && players[k].score == players[best].score)
  {
    if n > 1 {
      LeadIsBest(players, n - 1);
      var (before, tiedBefore) := Lead(players, n - 1);
      if players[n - 1].score == players[before].score {
        assert n - 1 != before && players[n - 1].score == players[before].score;
      }
    }
  }

  /** A seat wins exactly when it alone has the best score; a shared best score is a draw. */
  lemma WinnerStandsAlone(players: seq<Player>, i: nat)
    requires i < |players| && forall j, k :: 0 <= j < k < |players| ==> 0 < players[j].id < players[k].id
    requires players[i].id > 0
    ensures Leader(players) == players[i].id <==> forall k :: 0 <= k < |players| && k != i ==> players[k].score < players[i].score
  {
    LeadIsBest(players, |players|);
    var (best, tied) := Lead(players, |players|);
    if best < i {
      assert players[best].id < players[i].id;
    } else if i < best {
      assert players[i].id < players[best].id;
    }
  }
}
