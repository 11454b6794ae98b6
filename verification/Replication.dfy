/**
 The replication protocol end to end: one room, any number of clients, and a network that loses,
 duplicates and reorders everything. A run is any sequence of steps; a step that is not possible
 where it stands does nothing.
 */
module Replication {
  import opened Wrappers
  import opened Keyed
  import opened Snapshots
  import opened DeltaSpec
  import opened Broadcast

  /**
   One client. `held` is its history of rebuilt states, `ackTick` the newest of them. `fed` is every
   event it has shown and `fedTo` the tick it has consumed up to; since `fedFrom` nothing was missed.
   */
  datatype Client = Client(held: map<nat, Snapshot>, ackTick: nat, fed: seq<GameEvent>, fedTo: nat, fedFrom: nat)

  const NEWCOMER: Client := Client(map[], 0, [], 0, 0)

  datatype System = System(
    roster: set<nat>, history: History, now: nat, subs: map<nat, Subscriber>, clients: map<nat, Client>,
    mail: set<(nat, Snapshot)>,   // every message ever sent, still deliverable any number of times
    acks: set<(nat, nat)>)        // every acknowledgement ever sent, likewise

  datatype Step =
    | Tick(world: Snapshot)
    | Join(player: nat)
    | Deliver(to_: nat, message: Snapshot)
    | SendAck(from_: nat)
    | AckArrives(player: nat, tick: nat)
    | ForgedAck(player: nat, tick: nat)

  // ---- the client's rule ----

  ghost function After(evs: seq<GameEvent>, tick: nat): seq<GameEvent> {
    if evs == [] then []
    else After(evs[..|evs| - 1], tick) + if evs[|evs| - 1].tick > tick then [evs[|evs| - 1]] else []
  }

  ghost function Pruned(held: map<nat, Snapshot>, tick: nat): map<nat, Snapshot> {
    map t | t in held && t + HISTORY > tick :: held[t]
  }

  function Max(a: nat, b: nat): nat {
    if a > b then a else b
  }

  /** A delta covering no more events than a message carries leaves out nothing since its baseline. */
  ghost predicate Complete(h: History, m: Snapshot) {
    m.baselineTick != 0 && |Span(h, m.baselineTick, m.tick)| <= MAX_EVENTS
  }

  /**
   What becomes of a client that made `r` of the message: keep the state, forget what is 64 ticks older, acknowledge
   and consume only forwards.
   */
  ghost function Took(h: History, c: Client, m: Snapshot, r: Option<Snapshot>): Client {
    match r
    case None => c
    case Some(s) =>
      var held := Pruned(c.held[s.tick := s], s.tick);
      if s.tick <= c.ackTick || s.tick <= c.fedTo then
        c.(held := held, ackTick := Max(c.ackTick, s.tick))
      else
        c.(held := held, ackTick := s.tick, fed := c.fed + After(s.events, c.fedTo), fedTo := s.tick,
           fedFrom := if Complete(h, m) then c.fedFrom else s.tick)
  }

  ghost function Receive(h: History, c: Client, m: Snapshot): Client {
    Took(h, c, m, Applied(Get(c.held, m.baselineTick), m))
  }

  // ---- the system's steps ----

  ghost predicate Possible(s: System, step: Step) {
    match step
    case Tick(world) => Sendable(world) && world.tick > s.now && ById(world.players).Keys == s.roster
    case Join(p) => true
    case Deliver(p, m) => (p, m) in s.mail && p in s.clients
    case SendAck(p) => p in s.clients
    case AckArrives(p, t) => (p, t) in s.acks
    case ForgedAck(p, t) => true
  }

  ghost function Do(s: System, step: Step): System {
    if !Possible(s, step) then s
    else
      match step
      case Tick(world) =>
        var h := s.history[world.tick := world];
        s.(history := h, now := world.tick,
           mail := s.mail + set p | p in s.subs :: (p, MessageFor(h, s.subs[p].ack, world.tick)))
      case Join(p) =>
        // A new connection: the server starts over from a full snapshot, the client from an empty
        // history. What it has already shown stays shown.
        var c := if p in s.clients then s.clients[p] else NEWCOMER;
        s.(subs := s.subs[p := Subscriber(0, s.now)], clients := s.clients[p := c.(held := map[], ackTick := 0)])
      case Deliver(p, m) => s.(clients := s.clients[p := Receive(s.history, s.clients[p], m)])
      case SendAck(p) => s.(acks := s.acks + {(p, s.clients[p].ackTick)})
      case AckArrives(p, t) => s.(subs := AckRecorded(s.subs, s.now, p, t))
      case ForgedAck(p, t) => s.(subs := AckRecorded(s.subs, s.now, p, t))
  }

  ghost function Start(roster: set<nat>): System {
    System(roster, map[], 0, map[], map[], {}, {})
  }

  ghost function Run(roster: set<nat>, steps: seq<Step>): System {
    if steps == [] then Start(roster) else Do(Run(roster, steps[..|steps| - 1]), steps[|steps| - 1])
  }

  // ---- what every run keeps ----

  ghost predicate ServerOk(s: System) {
    && IsHistory(s.history)
    && (forall t :: t in s.history ==> t <= s.now && ById(s.history[t].players).Keys == s.roster)
  }

  ghost predicate Genuine(h: History, m: Snapshot) {
    exists ack :: m.tick in h && m == MessageFor(h, ack, m.tick)
  }

  /** The client's copy of tick `t` is the server's world at `t`. */
  ghost predicate Exact(h: History, held: map<nat, Snapshot>, t: nat)
    requires t in held
  {
    t in h && SameWorld(held[t], h[t]) && EventsOrdered(held[t].events)
  }

  ghost predicate MailOk(s: System) {
    forall e :: e in s.mail ==> Genuine(s.history, e.1)
  }

  ghost predicate ClientsOk(s: System) {
    forall p :: p in s.clients ==> forall t :: t in s.clients[p].held ==> Exact(s.history, s.clients[p].held, t)
  }

  ghost predicate SafetyInv(s: System) {
    ServerOk(s) && MailOk(s) && ClientsOk(s)
  }

  /** Broadcasting a later tick changes no message already owed for an earlier one. */
  lemma {:induction false} SpanStable(h: History, from: nat, last: nat, tick: nat, world: Snapshot)
    requires last < tick
    ensures Span(h[tick := world], from, last) == Span(h, from, last)
    decreases last
  {
    if last > from {
      SpanStable(h, from, last - 1, tick, world);
    }
  }

  lemma GenuineStable(h: History, m: Snapshot, tick: nat, world: Snapshot)
    requires Genuine(h, m) && forall t :: t in h ==> t < tick
    ensures Genuine(h[tick := world], m)
  {
    hide DeltaOf;
    var ack :| m.tick in h && m == MessageFor(h, ack, m.tick);
    SpanStable(h, ack, m.tick, tick, world);
    var h' := h[tick := world];
    assert Usable(h', ack, m.tick) <==> Usable(h, ack, m.tick);
    assert m == MessageFor(h', ack, m.tick);
  }

  lemma NewestOrdered(evs: seq<GameEvent>)
    requires EventsOrdered(evs)
    ensures EventsOrdered(Newest(evs))
  {
  }

  /**
   The heart of it. Whatever a client still holds, a genuine message either cannot be applied or
   rebuilds the server's world of that tick; and it can be applied exactly when it is full or the
   client still holds the tick it was encoded against.
   */
  lemma ReceiveIsExact(s: System, held: map<nat, Snapshot>, ack: nat, now: nat)
    requires ServerOk(s) && now in s.history
    requires forall t :: t in held ==> Exact(s.history, held, t)
    ensures var m := MessageFor(s.history, ack, now);
      var r := Applied(Get(held, m.baselineTick), m);
      && (r.Some? ==> r.value == s.history[now].(events := m.events))
      && (r.Some? <==> (Usable(s.history, ack, now) ==> ack in held))
      && EventsOrdered(m.events)
  {
    hide ById, Ascending, Ascend, PlayersOwed, ProjectilesOwed, SortedIds, Patched, Moved;
    var h := s.history;
    var m := MessageFor(h, ack, now);
    if Usable(h, ack, now) {
      SpanIsOrdered(h, ack, now);
      NewestOrdered(Span(h, ack, now));
      assert m.baselineTick == ack;
      if ack in held {
        assert Exact(h, held, ack);
        RoundTrip(held[ack], h[ack], h[now], Newest(Span(h, ack, now)));
      }
    } else {
      FullAlwaysApplies(Get(held, m.baselineTick), h[now]);
    }
  }

  /** Everything held after a message was held before it, or is what the message rebuilt. */
  lemma ReceiveHeld(s: System, c: Client, m: Snapshot, t: nat)
    requires t in Receive(s.history, c, m).held
    ensures var r := Applied(Get(c.held, m.baselineTick), m);
      || (t in c.held && Receive(s.history, c, m).held[t] == c.held[t])
      || (r.Some? && t == r.value.tick && Receive(s.history, c, m).held[t] == r.value)
  {
    hide Applied, After;
  }

  lemma ReceiveKeepsExact(s: System, c: Client, m: Snapshot)
    requires ServerOk(s) && Genuine(s.history, m)
    requires forall t :: t in c.held ==> Exact(s.history, c.held, t)
    ensures forall t :: t in Receive(s.history, c, m).held ==> Exact(s.history, Receive(s.history, c, m).held, t)
  {
    var ack :| m.tick in s.history && m == MessageFor(s.history, ack, m.tick);
    hide MessageFor, Applied, Receive, IsState, Genuine, Sendable, ById;
    ReceiveIsExact(s, c.held, ack, m.tick);
    forall t | t in Receive(s.history, c, m).held
      ensures Exact(s.history, Receive(s.history, c, m).held, t)
    {
      ReceiveHeld(s, c, m, t);
      assert t in c.held ==> Exact(s.history, c.held, t);
    }
  }

  lemma SafetyStep(s: System, step: Step)
    requires SafetyInv(s)
    ensures SafetyInv(Do(s, step))
  {
    hide MessageFor, Receive, ById, Exact, Sendable;
    if Possible(s, step) {
      match step
      case Tick(world) =>
        var h := s.history[world.tick := world];
        SendableTick(world);
        forall e | e in Do(s, step).mail
          ensures Genuine(h, e.1)
        {
          if e in s.mail {
            GenuineStable(s.history, e.1, world.tick, world);
          } else {
            MessageTick(h, s.subs[e.0].ack, world.tick);
          }
        }
        forall p, t | p in s.clients && t in s.clients[p].held
          ensures Exact(h, s.clients[p].held, t)
        {
          ExactStable(s.history, s.clients[p].held, t, world.tick, world);
        }
      case Deliver(p, m) =>
        assert (p, m) in s.mail;
        ReceiveKeepsExact(s, s.clients[p], m);
      case Join(_) =>
      case SendAck(_) =>
      case AckArrives(_, _) =>
      case ForgedAck(_, _) =>
    }
  }

  lemma SendableTick(world: Snapshot)
    requires Sendable(world)
    ensures world.tick > 0
  {
  }

  lemma ExactStable(h: History, held: map<nat, Snapshot>, t: nat, tick: nat, world: Snapshot)
    requires t in held && Exact(h, held, t) && forall u :: u in h ==> u < tick
    ensures Exact(h[tick := world], held, t)
  {
  }

  lemma MessageTick(h: History, ack: nat, now: nat)
    requires IsHistory(h) && now in h
    ensures Genuine(h, MessageFor(h, ack, now))
  {
    assert MessageFor(h, ack, now).tick == now;
  }

  lemma {:induction false} SafetyHolds(roster: set<nat>, steps: seq<Step>)
    ensures SafetyInv(Run(roster, steps))
  {
    if steps != [] {
      SafetyHolds(roster, steps[..|steps| - 1]);
      SafetyStep(Run(roster, steps[..|steps| - 1]), steps[|steps| - 1]);
    }
  }

  /**
   Agreement under any loss, duplication, reordering and any acknowledgements, honest or not: whatever
   state a client holds for a tick is the world the server broadcast for that tick.
   */
  lemma Agreement(roster: set<nat>, steps: seq<Step>, player: nat, tick: nat)
    requires var s := Run(roster, steps); player in s.clients && tick in s.clients[player].held
    ensures var s := Run(roster, steps);
      tick in s.history && SameWorld(s.clients[player].held[tick], s.history[tick])
  {
    SafetyHolds(roster, steps);
    var s := Run(roster, steps);
    assert Exact(s.history, s.clients[player].held, tick);
  }

  // ---- a client that only acknowledges what it applied is never stuck ----

  ghost predicate Honest(player: nat, steps: seq<Step>) {
    forall i, t :: 0 <= i < |steps| ==> steps[i] != ForgedAck(player, t)
  }

  /** An acknowledgement names nothing, a held state, one aged out of the window, or one from before this connection. */
  ghost predicate AckAccounted(s: System, p: nat, t: nat)
    requires p in s.clients && p in s.subs
  {
    t == 0 || t in s.clients[p].held || t + HISTORY <= s.now || t <= s.subs[p].since
  }

  ghost predicate HonestInv(s: System, p: nat) {
    && (p in s.clients <==> p in s.subs)
    && ((forall t :: (p, t) in s.acks ==> p in s.clients))
    && (p in s.clients ==>
         && s.subs[p].since <= s.now
         && (s.clients[p].ackTick == 0 || s.clients[p].ackTick in s.clients[p].held || s.clients[p].ackTick + HISTORY <= s.now)
         && (forall t :: (p, t) in s.acks ==> AckAccounted(s, p, t))
         && (s.subs[p].ack == 0 || (s.subs[p].since <= s.subs[p].ack && AckAccounted(s, p, s.subs[p].ack))))
  }

  /** All a message makes a client let go of is 64 ticks older than itself. */
  lemma ReceiveLetsGo(h: History, c: Client, m: Snapshot)
    ensures var r, c' := Applied(Get(c.held, m.baselineTick), m), Receive(h, c, m);
      && (r.None? ==> c' == c)
      && (r.Some? ==>
           && (forall t :: t in c.held && t + HISTORY > r.value.tick ==> t in c'.held)
           && (c'.ackTick == c.ackTick || c'.ackTick == r.value.tick) && r.value.tick in c'.held)
  {
    hide Applied, After, Complete;
  }

  lemma ReceiveIsOfThePast(s: System, c: Client, m: Snapshot)
    requires ServerOk(s) && Genuine(s.history, m)
    requires forall u :: u in c.held ==> Exact(s.history, c.held, u)
    ensures var r := Applied(Get(c.held, m.baselineTick), m); r.Some? ==> r.value.tick <= s.now
  {
    var ack :| m.tick in s.history && m == MessageFor(s.history, ack, m.tick);
    hide MessageFor, Applied;
    ReceiveIsExact(s, c.held, ack, m.tick);
  }

  lemma ReceiveKeepsRecent(s: System, c: Client, m: Snapshot, t: nat)
    requires ServerOk(s) && Genuine(s.history, m)
    requires forall u :: u in c.held ==> Exact(s.history, c.held, u)
    requires t in c.held
    ensures t in Receive(s.history, c, m).held || t + HISTORY <= s.now
  {
    hide ServerOk, Genuine, Exact, Receive, Applied;
    ReceiveIsOfThePast(s, c, m);
    ReceiveLetsGo(s.history, c, m);
  }

  lemma ReceiveKeepsAck(s: System, c: Client, m: Snapshot)
    requires ServerOk(s) && Genuine(s.history, m)
    requires forall u :: u in c.held ==> Exact(s.history, c.held, u)
    requires c.ackTick == 0 || c.ackTick in c.held || c.ackTick + HISTORY <= s.now
    ensures var r := Receive(s.history, c, m); r.ackTick == 0 || r.ackTick in r.held || r.ackTick + HISTORY <= s.now
  {
    hide ServerOk, Genuine, Exact, Receive, Applied;
    ReceiveIsOfThePast(s, c, m);
    ReceiveLetsGo(s.history, c, m);
  }

  lemma HeldIsPast(s: System, p: nat, t: nat)
    requires SafetyInv(s) && p in s.clients && t in s.clients[p].held
    ensures t <= s.now
  {
    assert Exact(s.history, s.clients[p].held, t);
  }

  lemma HonestStep(s: System, step: Step, p: nat)
    requires SafetyInv(s) && HonestInv(s, p) && !(step.ForgedAck? && step.player == p)
    ensures HonestInv(Do(s, step), p)
  {
    hide MessageFor, Receive, ById, Exact, Sendable, Genuine;
    if Possible(s, step) {
      match step
      case Tick(world) =>
      case Join(q) =>
        if q == p && p in s.clients {
          forall t | t in s.clients[p].held
            ensures t <= s.now
          {
            HeldIsPast(s, p, t);
          }
        }
      case SendAck(q) =>
      case Deliver(q, m) =>
        assert (q, m) in s.mail;
        if q == p {
          ReceiveKeepsAck(s, s.clients[p], m);
          forall t | t in s.clients[p].held
            ensures t in Receive(s.history, s.clients[p], m).held || t + HISTORY <= s.now
          {
            ReceiveKeepsRecent(s, s.clients[p], m, t);
          }
        }
      case AckArrives(q, t) =>
      case ForgedAck(q, t) =>
    }
  }

  lemma {:induction false} HonestHolds(roster: set<nat>, steps: seq<Step>, p: nat)
    requires Honest(p, steps)
    ensures HonestInv(Run(roster, steps), p)
  {
    if steps != [] {
      var before := steps[..|steps| - 1];
      assert Honest(p, before) by {
        assert forall i :: 0 <= i < |before| ==> before[i] == steps[i];
      }
      HonestHolds(roster, before, p);
      SafetyHolds(roster, before);
      HonestStep(Run(roster, before), steps[|steps| - 1], p);
    }
  }

  /** The server would still encode against a tick that the client has let go of. */
  ghost predicate LeftOver(s: System, p: nat, tick: nat)
    requires p in s.subs && p in s.clients
  {
    var ack := s.subs[p].ack;
    0 < ack && ack in s.history && ack !in s.clients[p].held && tick < ack + HISTORY
  }

  /**
   No wedge: the message an honest client is sent on a tick applies at once, unless it is encoded against a tick
   left over from the client's previous connection. Such a leftover can only name the signon tick itself, so it
   is gone 64 ticks after signing on.
   */
  lemma FreshMessageApplies(roster: set<nat>, steps: seq<Step>, p: nat, world: Snapshot)
    requires Honest(p, steps)
    requires var s := Run(roster, steps); Possible(s, Tick(world)) && p in s.clients
    ensures var s := Run(roster, steps);
      var s' := Do(s, Tick(world));
      && p in s.subs && p in s'.clients && world.tick in s'.history
      && var m := MessageFor(s'.history, s.subs[p].ack, world.tick);
      && (p, m) in s'.mail
      && Applied(Get(s'.clients[p].held, m.baselineTick), m)
         == (if LeftOver(s, p, world.tick) then None else Some(world.(events := m.events)))
      && (LeftOver(s, p, world.tick) ==> s.subs[p].ack == s.subs[p].since)
  {
    hide MessageFor, Applied, ById, Sendable;
    SafetyHolds(roster, steps);
    HonestHolds(roster, steps, p);
    var s := Run(roster, steps);
    SafetyStep(s, Tick(world));
    var s' := Do(s, Tick(world));
    ReceiveIsExact(s', s'.clients[p].held, s.subs[p].ack, world.tick);
    var a := s.subs[p].ack;
    assert a == 0 || AckAccounted(s, p, a);
  }

  /**
   The exception happens. A client applies a state and acknowledges it, reconnects before the next broadcast,
   and only then does the acknowledgement arrive: the delta it is sent next is against a state it let go of.
   */
  lemma LeftoverAckIsHonoured(player: nat, first: Snapshot, second: Snapshot)
    requires Sendable(first) && Sendable(second) && first.tick < second.tick < first.tick + HISTORY
    requires ById(first.players).Keys == ById(second.players).Keys
    ensures var steps := [Join(player), Tick(first), Deliver(player, first), SendAck(player), Join(player), AckArrives(player, first.tick)];
      var s := Run(ById(first.players).Keys, steps);
      var s' := Do(s, Tick(second));
      && Honest(player, steps) && player in s.subs && player in s'.clients && second.tick in s'.history
      && var m := MessageFor(s'.history, s.subs[player].ack, second.tick);
         (player, m) in s'.mail && Applied(Get(s'.clients[player].held, m.baselineTick), m).None?
  {
    var roster := ById(first.players).Keys;
    var steps := [Join(player), Tick(first), Deliver(player, first), SendAck(player), Join(player), AckArrives(player, first.tick)];
    hide ById, Sendable;
    var s2 := FirstBroadcast(player, first);
    RunInSteps(roster, steps);
    FirstReceived(s2.history, s2.clients[player], first);
    hide MessageFor, Receive, DeltaOf;
    var s4 := Do(Do(s2, steps[2]), steps[3]);
    assert (player, first.tick) in s4.acks && s4.history == s2.history && s4.now == s2.now && s4.roster == s2.roster;
    var s5 := Do(s4, steps[4]);
    assert s5.subs[player] == Subscriber(0, first.tick);
    var s6 := Do(s5, steps[5]);
    assert s6.subs[player] == Subscriber(first.tick, first.tick) && s6.clients[player].held == map[];
    DeltaNeedsItsBaseline(s6.history[second.tick := second], first.tick, second.tick);
  }

  /**
   What an acknowledgement is for. Once one arrives that is neither older than what has been recorded, nor than the signon,
   nor of the future, the next message within 64 ticks is encoded against that very tick; any other acknowledgement
   leaves what is owed as it was.
   */
  lemma AcknowledgedTickIsTheBaseline(s: System, p: nat, t: nat, forged: bool, world: Snapshot)
    requires ServerOk(s) && p in s.subs && Possible(s, Tick(world)) && (forged || (p, t) in s.acks)
    ensures var ack := if forged then ForgedAck(p, t) else AckArrives(p, t);
      var a, b := Do(Do(s, ack), Tick(world)), Do(s, Tick(world));
      && (t in s.history && s.subs[p].since <= t && s.subs[p].ack <= t && world.tick < t + HISTORY ==>
           exists m :: (p, m) in a.mail && m.tick == world.tick && m.baselineTick == t)
      && (t == 0 || t > s.now || t < s.subs[p].since || t <= s.subs[p].ack ==> a == b)
  {
    hide DeltaOf, Sendable, ById;
    var ack := if forged then ForgedAck(p, t) else AckArrives(p, t);
    var s' := Do(s, ack);
    var a := Do(s', Tick(world));
    if t in s.history && s.subs[p].since <= t && s.subs[p].ack <= t && world.tick < t + HISTORY {
      KeysArePositive(s, t);
      assert s'.subs[p].ack == t;
      var m := MessageFor(a.history, t, world.tick);
      assert (p, m) in a.mail;
      DeltaNeedsItsBaseline(a.history, t, world.tick);
      DeltaIsOfItsTick(a.history, t, world.tick);
    }
  }

  lemma KeysArePositive(s: System, t: nat)
    requires ServerOk(s) && t in s.history
    ensures 0 < t <= s.now
  {
  }

  lemma DeltaIsOfItsTick(h: History, ack: nat, now: nat)
    requires IsHistory(h) && now in h
    ensures MessageFor(h, ack, now).tick == now
  {
  }

  lemma FirstBroadcast(player: nat, first: Snapshot) returns (s: System)
    requires Sendable(first)
    ensures s == Do(Do(Start(ById(first.players).Keys), Join(player)), Tick(first))
    ensures (player, first) in s.mail && s.history == map[first.tick := first] && s.now == first.tick
    ensures s.roster == ById(first.players).Keys && s.clients == map[player := NEWCOMER] && player in s.subs
  {
    hide ById, DeltaOf;
    var a := Do(Start(ById(first.players).Keys), Join(player));
    s := Do(a, Tick(first));
    assert MessageFor(s.history, 0, first.tick) == first;
    assert s.history == map[first.tick := first];
  }

  lemma FirstReceived(h: History, c: Client, first: Snapshot)
    requires c == NEWCOMER && Sendable(first)
    ensures Receive(h, c, first).ackTick == first.tick
  {
    hide After;
    FullAlwaysApplies(Get(c.held, first.baselineTick), first);
  }

  lemma DeltaNeedsItsBaseline(h: History, ack: nat, now: nat)
    requires now in h && Usable(h, ack, now) && IsHistory(h)
    ensures MessageFor(h, ack, now).baselineTick == ack && Applied(None, MessageFor(h, ack, now)).None?
  {
  }

  lemma RunInSteps(roster: set<nat>, steps: seq<Step>)
    requires |steps| == 6
    ensures Run(roster, steps)
         == Do(Do(Do(Do(Do(Do(Start(roster), steps[0]), steps[1]), steps[2]), steps[3]), steps[4]), steps[5])
  {
    hide Do;
    assert steps[..5][..4] == steps[..4] && steps[..4][..3] == steps[..3] && steps[..3][..2] == steps[..2];
    assert steps[..2][..1] == steps[..1] && steps[..1][..0] == [];
    assert Run(roster, steps[..1]) == Do(Start(roster), steps[0]);
    assert Run(roster, steps[..2]) == Do(Run(roster, steps[..1]), steps[1]);
    assert Run(roster, steps[..3]) == Do(Run(roster, steps[..2]), steps[2]);
    assert Run(roster, steps[..4]) == Do(Run(roster, steps[..3]), steps[3]);
    assert Run(roster, steps[..5]) == Do(Run(roster, steps[..4]), steps[4]);
  }
}
