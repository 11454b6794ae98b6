/**
 The replicated world as it travels: one message type serves as a full snapshot, as a delta and
 as a ring entry, exactly as on the wire.
 */
module Snapshots {
  import opened Wrappers
  import opened Keyed

  /** Which of a player's fields a message is authoritative for: the `changed` mask, one flag a bit. */
  datatype Fields = Fields(x: bool, y: bool, aim: bool, hp: bool, score: bool, bot: bool, inputSeq: bool)

  const NO_FIELDS: Fields := Fields(false, false, false, false, false, false, false)
  const ALL_FIELDS: Fields := Fields(true, true, true, true, true, true, true)

  /** Everything a player message carries besides its id. */
  datatype Avatar = Avatar(x: int, y: int, aim: int, hp: int, score: nat, bot: bool, inputSeq: nat, changed: Fields)

  const BLANK: Avatar := Avatar(0, 0, 0, 0, 0, false, 0, NO_FIELDS)

  datatype Point = Point(x: int, y: int)

  type PlayerSnap = Entity<Avatar>
  type ProjSnap = Entity<Point>

  datatype EventKind = Hit | Kill | Departed

  datatype GameEvent = GameEvent(tick: nat, kind: EventKind, actor: nat, target: nat, hp: int)

  datatype Snapshot = Snapshot(
    tick: nat, roomId: string, ended: bool, winner: nat, baselineTick: nat,
    players: seq<PlayerSnap>, projectiles: seq<ProjSnap>, removed: seq<nat>, events: seq<GameEvent>)

  /** Several events may share a tick; a feed may never go backwards. */
  ghost predicate EventsOrdered(evs: seq<GameEvent>) {
    forall i, j :: 0 <= i < j < |evs| ==> evs[i].tick <= evs[j].tick
  }

  ghost predicate WellOrdered(s: Snapshot) {
    Ascending(s.players) && Ascending(s.projectiles) && AscendingIds(s.removed) && EventsOrdered(s.events)
  }

  /** A message that describes a whole world: what the ring holds and what a client keeps. */
  ghost predicate IsState(s: Snapshot) {
    && s.baselineTick == 0 && s.removed == []
    && Ascending(s.players) && Ascending(s.projectiles)
    && forall i :: 0 <= i < |s.players| ==> s.players[i].v.changed == NO_FIELDS
  }

  /** Two messages describe the same world; the events they carry do not count. */
  predicate SameWorld(s: Snapshot, t: Snapshot) {
    s.(events := []) == t.(events := [])
  }

  function Get<V>(m: map<nat, V>, id: nat): Option<V> {
    if id in m then Some(m[id]) else None
  }

  method StrictlyAscends(ids: seq<nat>) returns (ok: bool)
    ensures ok <==> AscendingIds(ids)
  {
    var i := 1;
    while i < |ids|
      invariant 1 <= i
      invariant forall m, n :: 0 <= m < n < i && n < |ids| ==> ids[m] < ids[n]
    {
      if ids[i] <= ids[i - 1] {
        return false;
      }
      i := i + 1;
    }
    ok := true;
  }

  method NeverDescends(ticks: seq<nat>) returns (ok: bool)
    ensures ok <==> forall i, j :: 0 <= i < j < |ticks| ==> ticks[i] <= ticks[j]
  {
    var i := 1;
    while i < |ticks|
      invariant 1 <= i
      invariant forall m, n :: 0 <= m < n < i && n < |ticks| ==> ticks[m] <= ticks[n]
    {
      if ticks[i] < ticks[i - 1] {
        return false;
      }
      i := i + 1;
    }
    ok := true;
  }

  /** The runtime check a client makes on every list before it merges anything. */
  method CheckWellOrdered(s: Snapshot) returns (ok: bool)
    ensures ok <==> WellOrdered(s)
  {
    var players := seq(|s.players|, i requires 0 <= i < |s.players| => s.players[i].id);
    var projectiles := seq(|s.projectiles|, i requires 0 <= i < |s.projectiles| => s.projectiles[i].id);
    var ticks := seq(|s.events|, i requires 0 <= i < |s.events| => s.events[i].tick);
    var a := StrictlyAscends(players);
    var b := StrictlyAscends(projectiles);
    var c := StrictlyAscends(s.removed);
    var d := NeverDescends(ticks);
    assert a <==> Ascending(s.players) by {
      assert forall i :: 0 <= i < |players| ==> players[i] == s.players[i].id;
    }
    assert b <==> Ascending(s.projectiles) by {
      assert forall i :: 0 <= i < |projectiles| ==> projectiles[i] == s.projectiles[i].id;
    }
    assert d <==> EventsOrdered(s.events) by {
      assert forall i :: 0 <= i < |ticks| ==> ticks[i] == s.events[i].tick;
    }
    ok := a && b && c && d;
  }
}
