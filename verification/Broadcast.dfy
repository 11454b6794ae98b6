/**
 The room's fanout: a recycled ring of past states, one encode per distinct acknowledged tick, and a
 full message built only if somebody is owed one. `Room.Broadcast` is proved to send every subscriber
 exactly what `Owed` says, and `Owed` is what a server would send that forgot nothing, kept no
 ring and encoded for each subscriber on its own.
 */
module Broadcast {
  import opened Wrappers
  import opened Keyed
  import opened Snapshots
  import opened DeltaSpec
  import opened DeltaEncoder
  import Sim = SimTypes

  const HISTORY: nat := 64
  const MAX_EVENTS: nat := 8

  // ---- the wire form of a world ----

  function Newest<T>(s: seq<T>): (r: seq<T>)
    ensures |r| <= MAX_EVENTS && |r| <= |s| && r == s[|s| - |r|..]
    ensures |s| <= MAX_EVENTS ==> r == s
  {
    if |s| > MAX_EVENTS then s[|s| - MAX_EVENTS..] else s
  }

  function WireEvent(e: Sim.Event): GameEvent {
    GameEvent(e.tick, match e.kind case EventHit => Hit case EventKill => Kill case EventDepart => Departed,
              e.actor, e.target, e.hp)
  }

  function WirePlayer(p: Sim.Player): PlayerSnap {
    Entity(p.id, Avatar(p.x, p.y, p.aim, if p.alive then p.hp else 0, p.score, p.bot, p.inputSeq, NO_FIELDS))
  }

  function LiveProjectiles(ps: seq<Sim.Projectile>): seq<ProjSnap> {
    if ps == [] then []
    else
      var last := ps[|ps| - 1];
      LiveProjectiles(ps[..|ps| - 1]) + if last.ttl == 0 then [] else [Entity(last.id, Point(last.x, last.y))]
  }

  /** What a ring entry holds for a simulated tick. */
  function Encoded(roomId: string, v: Sim.View): Snapshot {
    var evs := Newest(v.events);
    Snapshot(v.tick, roomId, v.ended, v.winner, 0,
             seq(|v.players|, i requires 0 <= i < |v.players| => WirePlayer(v.players[i])),
             LiveProjectiles(v.projectiles), [],
             seq(|evs|, i requires 0 <= i < |evs| => WireEvent(evs[i])))
  }

  lemma {:induction false} LiveAscending(ps: seq<Sim.Projectile>)
    requires forall i, j :: 0 <= i < j < |ps| ==> ps[i].id < ps[j].id
    ensures Ascending(LiveProjectiles(ps))
    ensures forall e :: e in LiveProjectiles(ps) ==> exists i :: 0 <= i < |ps| && ps[i].id == e.id
  {
    if ps != [] {
      var n := |ps| - 1;
      LiveAscending(ps[..n]);
      forall e | e in LiveProjectiles(ps[..n])
        ensures e.id < ps[n].id && exists i :: 0 <= i < |ps| && ps[i].id == e.id
      {
        var i :| 0 <= i < |ps[..n]| && ps[..n][i].id == e.id;
        assert ps[i].id == e.id;
      }
      var l := LiveProjectiles(ps[..n]);
      assert forall i :: 0 <= i < |l| ==> l[i] in l;
    }
  }

  /** A broadcast state: well formed, with only its own tick's events. */
  ghost predicate Sendable(s: Snapshot) {
    && IsState(s) && s.tick > 0 && |s.events| <= MAX_EVENTS
    && forall i :: 0 <= i < |s.events| ==> s.events[i].tick == s.tick
  }

  lemma EncodedIsSendable(roomId: string, v: Sim.View)
    requires Sim.Sorted(v) && v.tick > 0
    ensures Sendable(Encoded(roomId, v)) && Encoded(roomId, v).tick == v.tick
  {
    LiveAscending(v.projectiles);
  }

  // ---- the simple server ----

  /** Every state broadcast so far, by tick. */
  type History = map<nat, Snapshot>

  ghost predicate IsHistory(h: History) {
    forall t :: t in h ==> h[t].tick == t && Sendable(h[t])
  }

  ghost predicate Usable(h: History, ack: nat, now: nat) {
    ack in h && 0 < ack < now && now - ack < HISTORY
  }

  /** What happened on the broadcast ticks after `from`, up to and including `last`. */
  ghost function Span(h: History, from: nat, last: nat): seq<GameEvent>
    decreases last
  {
    if last <= from then [] else Span(h, from, last - 1) + if last in h then h[last].events else []
  }

  /** What a subscriber whose last acknowledged tick is `ack` is owed at tick `now`. */
  ghost function MessageFor(h: History, ack: nat, now: nat): Snapshot
    requires now in h
  {
    if Usable(h, ack, now) then DeltaOf(h[ack], h[now], Newest(Span(h, ack, now))) else h[now]
  }

  /** An acknowledgement that stops moving costs full snapshots from 64 ticks on, whatever it names. */
  lemma StuckAckMeansFull(h: History, ack: nat, now: nat)
    requires now in h && now >= ack + HISTORY
    ensures MessageFor(h, ack, now) == h[now]
  {
  }

  lemma {:induction false} SpanIsOrdered(h: History, from: nat, last: nat)
    requires IsHistory(h)
    ensures EventsOrdered(Span(h, from, last))
    ensures forall i :: 0 <= i < |Span(h, from, last)| ==> from < Span(h, from, last)[i].tick <= last
    decreases last
  {
    if last > from {
      SpanIsOrdered(h, from, last - 1);
    }
  }

  // ---- the room ----

  /** What the room keeps per seat: the newest tick its client confirmed, and the tick it signed on at. */
  datatype Subscriber = Subscriber(ack: nat, since: nat)

  class Room {
    const id: string
    var ring: array<Option<Snapshot>>
    var subs: map<nat, Subscriber>
    var lastTick: nat
    /** Scratch reused across ticks: the gathered events, and the delta message. */
    var events: seq<GameEvent>
    const delta: DeltaBuf
    /** Everything ever broadcast. The room itself has only the ring. */
    ghost var sent: History

    ghost predicate Valid()
      reads this, ring, delta
    {
      && ring.Length == HISTORY && delta.Valid() && IsHistory(sent)
      && (forall t :: t in sent ==> t <= lastTick)
      && forall slot :: 0 <= slot < HISTORY ==> SlotHolds(ring[slot], slot, sent)
    }

    constructor (id: string)
      ensures Valid() && fresh(ring) && fresh(delta) && fresh(delta.Repr)
      ensures sent == map[] && lastTick == 0 && subs == map[]
    {
      this.id := id;
      ring := new Option<Snapshot>[HISTORY](_ => None);
      subs, lastTick, events, sent := map[], 0, [], map[];
      delta := new DeltaBuf();
    }

    /** A client joins, or rejoins on a new connection: it starts from a full snapshot. */
    method Subscribe(player: nat)
      requires Valid()
      modifies this`subs
      ensures Valid() && subs == old(subs)[player := Subscriber(0, lastTick)]
    {
      subs := subs[player := Subscriber(0, lastTick)];
    }

    method Unsubscribe(player: nat)
      requires Valid()
      modifies this`subs
      ensures Valid() && subs == old(subs) - {player}
    {
      subs := subs - {player};
    }

    /** Moves a baseline forward. The tick is whatever a client claims, and is only ever taken forwards. */
    method RecordAck(player: nat, tick: nat)
      requires Valid()
      modifies this`subs
      ensures Valid()
      ensures subs == AckRecorded(old(subs), lastTick, player, tick)
    {
      if tick == 0 || tick > lastTick {
        return;
      }
      if player !in subs {
        return;
      }
      var s := subs[player];
      if tick < s.since || tick <= s.ack {
        return;
      }
      subs := subs[player := s.(ack := tick)];
    }

    /** The acknowledged state to encode against, if the ring still holds it. */
    method BaselineFor(ack: nat, now: nat) returns (base: Option<Snapshot>)
      requires Valid() && now == lastTick
      ensures base == if Usable(sent, ack, now) then Some(sent[ack]) else None
    {
      if ack == 0 || ack >= now || now - ack >= HISTORY {
        return None;
      }
      var s := ring[ack % HISTORY];
      SlotFound(s, sent, ack, now);
      if s.None? || s.value.tick != ack {
        return None;
      }
      base := s;
    }

    /** Gathers what happened after `base`; a tick the ring does not hold contributes nothing. */
    method EventsSince(base: nat, cur: nat)
      requires Valid() && cur == lastTick && cur < base + HISTORY
      modifies this`events
      ensures Valid() && events == Newest(Span(sent, base, cur))
    {
      events := [];
      if base >= cur {
        return;
      }
      var t := base + 1;
      while t <= cur
        invariant base < t <= cur + 1
        invariant events == Span(sent, base, t - 1)
      {
        var s := ring[t % HISTORY];
        SlotFound(s, sent, t, cur);
        if s.Some? && s.value.tick == t {
          events := events + s.value.events;
        }
        t := t + 1;
      }
      if |events| > MAX_EVENTS {
        events := events[|events| - MAX_EVENTS..];
      }
    }

    /** The entry this tick owns is recycled before any delta is computed. */
    method Remember(cur: Snapshot)
      requires Valid() && Sendable(cur) && cur.tick > lastTick
      modifies this`sent, this`lastTick, ring
      ensures Valid() && lastTick == cur.tick && sent == old(sent)[cur.tick := cur]
    {
      ring[cur.tick % HISTORY] := Some(cur);
      sent := sent[cur.tick := cur];
      lastTick := cur.tick;
      forall slot | 0 <= slot < HISTORY
        ensures SlotHolds(ring[slot], slot, sent)
      {
        assert SlotHolds(old(ring[slot]), slot, old(sent));
      }
    }

    /** One tick's fanout. Which subscriber is served first is up to the map. */
    method Broadcast(snap: Sim.View) returns (out: map<nat, Snapshot>)
      requires Valid() && Sim.Sorted(snap) && snap.tick > lastTick
      modifies this, ring, delta, delta.Repr
      ensures Valid() && ring == old(ring) && fresh(delta.Repr - old(delta.Repr))
      ensures lastTick == snap.tick && subs == old(subs)
      ensures sent == old(sent)[snap.tick := Encoded(id, snap)]
      ensures out == map p | p in subs :: MessageFor(sent, subs[p].ack, snap.tick)
    {
      hide Encoded, MessageFor, Usable, Sim.Sorted, Sendable, IsState, SlotHolds;
      EncodedIsSendable(id, snap);
      var cur := Encoded(id, snap);
      Remember(cur);
      out := Fanout(cur);
    }

    method Fanout(cur: Snapshot) returns (out: map<nat, Snapshot>)
      requires Valid() && cur.tick == lastTick && cur.tick in sent && sent[cur.tick] == cur
      modifies this`events, delta, delta.Repr
      ensures Valid() && fresh(delta.Repr - old(delta.Repr))
      ensures out == map p | p in subs :: MessageFor(sent, subs[p].ack, cur.tick)
    {
      hide Room.Valid, MessageFor, Usable;
      var full := None;
      var memo: map<nat, Snapshot> := map[];
      out := map[];
      var todo := subs.Keys;
      while todo != {}
        invariant Valid() && todo <= subs.Keys && fresh(delta.Repr - old(delta.Repr))
        invariant full.Some? ==> full.value == cur
        invariant IsMemo(sent, cur.tick, memo)
        invariant out.Keys == subs.Keys - todo
        invariant forall p :: p in out ==> out[p] == MessageFor(sent, subs[p].ack, cur.tick)
        decreases todo
      {
        var p :| p in todo;
        var msg;
        msg, memo, full := MessageTo(subs[p].ack, cur, full, memo);
        out := out[p := msg];
        todo := todo - {p};
      }
    }

    /** The message for one acknowledged tick: memoised, encoded now, or the full state. */
    method MessageTo(ack: nat, cur: Snapshot, full0: Option<Snapshot>, memo0: map<nat, Snapshot>)
      returns (msg: Snapshot, memo: map<nat, Snapshot>, full: Option<Snapshot>)
      requires Valid() && cur.tick == lastTick && cur.tick in sent && sent[cur.tick] == cur
      requires full0.Some? ==> full0.value == cur
      requires IsMemo(sent, cur.tick, memo0)
      modifies this`events, delta, delta.Repr
      ensures Valid() && fresh(delta.Repr - old(delta.Repr))
      ensures msg == MessageFor(sent, ack, cur.tick)
      ensures full.Some? ==> full.value == cur
      ensures IsMemo(sent, cur.tick, memo)
    {
      hide DeltaOf, DeltaBuf.Message, Newest, Span;
      memo, full := memo0, full0;
      var base := BaselineFor(ack, cur.tick);
      if base.None? {
        if full.None? {
          full := Some(cur);
        }
        msg := full.value;
      } else if ack in memo {
        msg := memo[ack];
      } else {
        EventsSince(ack, cur.tick);
        delta.Encode(base.value, cur, events);
        // The scratch message is read out at once: what is kept and sent is a copy.
        msg := Marshalled();
        memo := memo[ack := msg];
      }
    }

    method Marshalled() returns (msg: Snapshot)
      requires delta.Valid()
      ensures msg == delta.Message()
    {
      var players := seq(|delta.outPlayers|, i requires 0 <= i < |delta.outPlayers| && delta.Valid() reads delta, delta.Repr
        => delta.players[i].Value());
      msg := Snapshot(delta.tick, delta.roomId, delta.ended, delta.winner, delta.baselineTick,
                      players, delta.outProjectiles, delta.outRemoved, delta.outEvents);
    }
  }

  /** A delta is a function of the baseline and the current state, so one encode serves every subscriber on that tick. */
  ghost predicate IsMemo(sent: History, now: nat, memo: map<nat, Snapshot>)
    requires now in sent
  {
    forall a :: a in memo ==> Usable(sent, a, now) && memo[a] == MessageFor(sent, a, now)
  }

  function AckRecorded(subs: map<nat, Subscriber>, lastTick: nat, player: nat, tick: nat): map<nat, Subscriber> {
    if player in subs && 0 < tick <= lastTick && subs[player].since <= tick && subs[player].ack < tick
    then subs[player := subs[player].(ack := tick)]
    else subs
  }

  /** A slot holds the newest broadcast state that maps to it, or nothing maps to it. */
  ghost predicate SlotHolds(s: Option<Snapshot>, slot: nat, sent: History) {
    match s
    case None => forall t :: t in sent ==> t % HISTORY != slot
    case Some(v) =>
      && v.tick in sent && sent[v.tick] == v && v.tick % HISTORY == slot
      && forall t :: t in sent && t % HISTORY == slot ==> t <= v.tick
  }

  /** Inside the window nothing has been recycled: a slot answers for the tick exactly when it was sent. */
  lemma SlotFound(s: Option<Snapshot>, sent: History, t: nat, now: nat)
    requires SlotHolds(s, t % HISTORY, sent) && IsHistory(sent)
    requires t <= now < t + HISTORY && forall u :: u in sent ==> u <= now
    ensures t in sent <==> s.Some? && s.value.tick == t
    ensures t in sent ==> s == Some(sent[t])
  {
  }
}
