/**
 The gameplay events that ride on the deltas. A client consumes whole ticks, newest first seen first
 kept; over every run it shows each event at most once, in order, and misses nothing along a chain of
 deltas that were not cut to the event cap.
 */
module EventFeed {
  import opened Wrappers
  import opened Snapshots
  import opened DeltaSpec
  import opened Broadcast
  import opened Replication

  ghost function OfTick(evs: seq<GameEvent>, t: nat): seq<GameEvent> {
    if evs == [] then []
    else OfTick(evs[..|evs| - 1], t) + if evs[|evs| - 1].tick == t then [evs[|evs| - 1]] else []
  }

  ghost function TickEvents(h: History, t: nat): seq<GameEvent> {
    if t in h then h[t].events else []
  }

  ghost predicate IsSuffix<T>(s: seq<T>, t: seq<T>) {
    |s| <= |t| && s == t[|t| - |s|..]
  }

  // ---- filtering ----

  lemma {:induction false} OfTickConcat(a: seq<GameEvent>, b: seq<GameEvent>, t: nat)
    ensures OfTick(a + b, t) == OfTick(a, t) + OfTick(b, t)
  {
    if b == [] {
      assert a + b == a;
    } else {
      var n := |b| - 1;
      assert (a + b)[..|a + b| - 1] == a + b[..n] && (a + b)[|a + b| - 1] == b[n];
      OfTickConcat(a, b[..n], t);
    }
  }

  lemma {:induction false} AfterConcat(a: seq<GameEvent>, b: seq<GameEvent>, t: nat)
    ensures After(a + b, t) == After(a, t) + After(b, t)
  {
    if b == [] {
      assert a + b == a;
    } else {
      var n := |b| - 1;
      assert (a + b)[..|a + b| - 1] == a + b[..n] && (a + b)[|a + b| - 1] == b[n];
      AfterConcat(a, b[..n], t);
    }
  }

  lemma {:induction false} AllOfOneTick(evs: seq<GameEvent>, tick: nat, t: nat)
    requires forall i :: 0 <= i < |evs| ==> evs[i].tick == tick
    ensures OfTick(evs, t) == if t == tick then evs else []
    ensures After(evs, t) == if tick > t then evs else []
  {
    if evs != [] {
      AllOfOneTick(evs[..|evs| - 1], tick, t);
    }
  }

  lemma {:induction false} OfTickAfter(evs: seq<GameEvent>, from: nat, t: nat)
    ensures OfTick(After(evs, from), t) == if t > from then OfTick(evs, t) else []
  {
    if evs != [] {
      var n := |evs| - 1;
      OfTickAfter(evs[..n], from, t);
      var last := if evs[n].tick > from then [evs[n]] else [];
      OfTickConcat(After(evs[..n], from), last, t);
      assert last != [] ==> last[..|last| - 1] == [];
    }
  }

  lemma {:induction false} OfTickNone(evs: seq<GameEvent>, t: nat)
    requires forall i :: 0 <= i < |evs| ==> evs[i].tick != t
    ensures OfTick(evs, t) == []
  {
    if evs != [] {
      OfTickNone(evs[..|evs| - 1], t);
    }
  }

  lemma {:induction false} AfterBounds(evs: seq<GameEvent>, from: nat, last: nat)
    requires EventsOrdered(evs) && forall i :: 0 <= i < |evs| ==> evs[i].tick <= last
    ensures EventsOrdered(After(evs, from))
    ensures forall i :: 0 <= i < |After(evs, from)| ==> from < After(evs, from)[i].tick <= last
    ensures forall e :: e in After(evs, from) ==> e in evs
  {
    if evs != [] {
      var n := |evs| - 1;
      AfterBounds(evs[..n], from, last);
      var a := After(evs[..n], from);
      forall i | 0 <= i < |a|
        ensures a[i].tick <= evs[n].tick
      {
        assert a[i] in evs[..n];
      }
    }
  }

  // ---- spans ----

  lemma {:induction false} SpanSplit(h: History, a: nat, f: nat, last: nat)
    requires a <= f <= last
    ensures Span(h, a, last) == Span(h, a, f) + Span(h, f, last)
    decreases last
  {
    if f < last {
      SpanSplit(h, a, f, last - 1);
    }
  }

  lemma {:induction false} SpanOfTick(h: History, a: nat, last: nat, t: nat)
    requires IsHistory(h)
    ensures OfTick(Span(h, a, last), t) == if a < t <= last then TickEvents(h, t) else []
    decreases last
  {
    if a < last {
      SpanOfTick(h, a, last - 1, t);
      OfTickConcat(Span(h, a, last - 1), TickEvents(h, last), t);
      AllOfOneTick(TickEvents(h, last), last, t);
    }
  }

  lemma {:induction false} AfterNone(evs: seq<GameEvent>, f: nat)
    requires forall i :: 0 <= i < |evs| ==> evs[i].tick <= f
    ensures After(evs, f) == []
  {
    if evs != [] {
      AfterNone(evs[..|evs| - 1], f);
    }
  }

  lemma {:induction false} AfterAll(evs: seq<GameEvent>, f: nat)
    requires forall i :: 0 <= i < |evs| ==> evs[i].tick > f
    ensures After(evs, f) == evs
  {
    if evs != [] {
      AfterAll(evs[..|evs| - 1], f);
    }
  }

  /** Skipping what was consumed leaves exactly what was not. */
  lemma AfterSpan(h: History, a: nat, f: nat, last: nat)
    requires IsHistory(h) && a <= f <= last
    ensures After(Span(h, a, last), f) == Span(h, f, last)
  {
    SpanSplit(h, a, f, last);
    SpanIsOrdered(h, a, f);
    SpanIsOrdered(h, f, last);
    AfterConcat(Span(h, a, f), Span(h, f, last), f);
    AfterNone(Span(h, a, f), f);
    AfterAll(Span(h, f, last), f);
  }

  lemma SuffixOfTick(s: seq<GameEvent>, t: nat)
    ensures IsSuffix(OfTick(Newest(s), t), OfTick(s, t))
  {
    var n := Newest(s);
    var rest := s[..|s| - |n|];
    assert s == rest + n;
    OfTickConcat(rest, n, t);
    var o := OfTick(n, t);
    assert (OfTick(rest, t) + o)[|OfTick(rest, t)|..] == o;
  }

  // ---- the feed's invariant ----

  ghost predicate ShownOnce(h: History, fed: seq<GameEvent>, t: nat) {
    IsSuffix(OfTick(fed, t), TickEvents(h, t))
  }

  ghost predicate FeedOk(h: History, now: nat, c: Client) {
    && EventsWithin(c.fed, c.fedTo)
    && (forall t :: t in c.held ==> t <= c.fedTo)
    && c.ackTick <= c.fedTo && c.fedFrom <= c.fedTo <= now
    && (forall t: nat :: ShownOnce(h, c.fed, t))
    && IsSuffix(Span(h, c.fedFrom, c.fedTo), c.fed)
  }

  lemma ShownStable(h: History, fed: seq<GameEvent>, now: nat, tick: nat, world: Snapshot, t: nat)
    requires ShownOnce(h, fed, t) && now < tick
    requires forall i :: 0 <= i < |fed| ==> fed[i].tick <= now
    ensures ShownOnce(h[tick := world], fed, t)
  {
    if t == tick {
      OfTickNone(fed, t);
      hide OfTick;
    } else {
      hide OfTick;
      assert TickEvents(h[tick := world], t) == TickEvents(h, t);
      hide TickEvents;
    }
  }

  lemma FeedStable(h: History, now: nat, c: Client, tick: nat, world: Snapshot)
    requires FeedOk(h, now, c) && tick > now
    ensures FeedOk(h[tick := world], tick, c)
  {
    hide ShownOnce, Span, EventsOrdered;
    SpanStable(h, c.fedFrom, c.fedTo, tick, world);
    var h' := h[tick := world];
    forall t: nat
      ensures ShownOnce(h', c.fed, t)
    {
      ShownStable(h, c.fed, c.fedTo, tick, world, t);
    }
  }

  /** Tick `t`'s share of a message: a newest part of what the tick broadcast, and nothing for later ticks. */
  ghost predicate Shares(h: History, evs: seq<GameEvent>, now: nat, t: nat) {
    IsSuffix(OfTick(evs, t), if t <= now then TickEvents(h, t) else [])
  }

  ghost predicate EventsWithin(evs: seq<GameEvent>, now: nat) {
    EventsOrdered(evs) && forall i :: 0 <= i < |evs| ==> evs[i].tick <= now
  }

  lemma SpanShares(h: History, ack: nat, now: nat, t: nat)
    requires IsHistory(h) && t > 0
    ensures Shares(h, Newest(Span(h, ack, now)), now, t)
  {
    SuffixOfTick(Span(h, ack, now), t);
    SpanOfTick(h, ack, now, t);
  }

  lemma TickShares(h: History, now: nat, t: nat)
    requires IsHistory(h) && now in h
    ensures Shares(h, h[now].events, now, t)
  {
    AllOfOneTick(h[now].events, now, t);
  }

  lemma NewestWithin(evs: seq<GameEvent>, now: nat)
    requires EventsWithin(evs, now)
    ensures EventsWithin(Newest(evs), now)
  {
  }

  /**
   What a genuine message's events are: whole ticks of the span it covers, cut to the newest eight; all of it exactly
   when the message is a delta and the span has no more than eight.
   */
  lemma MessageEvents(h: History, ack: nat, now: nat)
    requires IsHistory(h) && now in h
    ensures var m := MessageFor(h, ack, now);
      && EventsWithin(m.events, now)
      && (forall t: nat :: t > 0 ==> Shares(h, m.events, now, t))
      && (Complete(h, m) <==> Usable(h, ack, now) && |Span(h, ack, now)| <= MAX_EVENTS)
      && (Complete(h, m) ==> m.baselineTick == ack && m.events == Span(h, ack, now))
  {
    hide DeltaOf, Sendable, Shares, Span, MessageFor, Usable;
    MessageShape(h, ack, now);
    forall t: nat | t > 0
      ensures Shares(h, MessageFor(h, ack, now).events, now, t)
    {
      SpanShares(h, ack, now, t);
      TickShares(h, now, t);
    }
    SpanIsOrdered(h, ack, now);
    NewestWithin(Span(h, ack, now), now);
  }

  lemma MessageShape(h: History, ack: nat, now: nat)
    requires IsHistory(h) && now in h
    ensures var m := MessageFor(h, ack, now);
      && m.tick == now
      && (Usable(h, ack, now) ==> m.baselineTick == ack != 0 && m.events == Newest(Span(h, ack, now)))
      && (!Usable(h, ack, now) ==> m.baselineTick == 0 && m.events == h[now].events)
    ensures forall i :: 0 <= i < |h[now].events| ==> h[now].events[i].tick == now
  {
  }

  lemma ConsumeTick(h: History, fed: seq<GameEvent>, fedTo: nat, evs: seq<GameEvent>, now: nat, t: nat)
    requires forall i :: 0 <= i < |fed| ==> fed[i].tick <= fedTo
    requires ShownOnce(h, fed, t) && (t > 0 ==> Shares(h, evs, now, t))
    ensures ShownOnce(h, fed + After(evs, fedTo), t)
  {
    OfTickConcat(fed, After(evs, fedTo), t);
    OfTickAfter(evs, fedTo, t);
    if t > fedTo {
      OfTickNone(fed, t);
      assert [] + OfTick(evs, t) == OfTick(evs, t);
    } else {
      assert OfTick(fed, t) + [] == OfTick(fed, t);
    }
  }

  /** The new part of the feed is later than everything shown, and each tick's share is shown once. */
  lemma ConsumeOnce(h: History, fed: seq<GameEvent>, fedTo: nat, evs: seq<GameEvent>, now: nat)
    requires EventsWithin(fed, fedTo) && EventsWithin(evs, now) && fedTo < now
    requires forall t: nat :: ShownOnce(h, fed, t)
    requires forall t: nat :: t > 0 ==> Shares(h, evs, now, t)
    ensures EventsWithin(fed + After(evs, fedTo), now)
    ensures forall t: nat :: ShownOnce(h, fed + After(evs, fedTo), t)
  {
    hide ShownOnce, Shares;
    AfterBounds(evs, fedTo, now);
    forall t: nat
      ensures ShownOnce(h, fed + After(evs, fedTo), t)
    {
      ConsumeTick(h, fed, fedTo, evs, now, t);
    }
  }

  lemma ConsumeAll(h: History, fed: seq<GameEvent>, from: nat, a: nat, fedTo: nat, now: nat)
    requires IsHistory(h) && a <= fedTo < now && from <= fedTo && IsSuffix(Span(h, from, fedTo), fed)
    ensures IsSuffix(Span(h, from, now), fed + After(Span(h, a, now), fedTo))
  {
    AfterSpan(h, a, fedTo, now);
    SpanSplit(h, from, fedTo, now);
    var old_, new_ := Span(h, from, fedTo), Span(h, fedTo, now);
    var more := fed + new_;
    assert more[|more| - |old_ + new_|..] == old_ + new_;
  }

  lemma ReceiveShape(h: History, c: Client, m: Snapshot)
    ensures var r, c' := Applied(Get(c.held, m.baselineTick), m), Receive(h, c, m);
      && (r.None? ==> c' == c)
      && (r.Some? ==> forall t :: t in c'.held ==> t in c.held || t == r.value.tick)
      && (r.Some? && (r.value.tick <= c.ackTick || r.value.tick <= c.fedTo) ==>
           c'.fed == c.fed && c'.fedTo == c.fedTo && c'.fedFrom == c.fedFrom && c'.ackTick == Max(c.ackTick, r.value.tick))
      && (r.Some? && r.value.tick > c.ackTick && r.value.tick > c.fedTo ==>
           && c'.fed == c.fed + After(r.value.events, c.fedTo) && c'.fedTo == r.value.tick == c'.ackTick
           && c'.fedFrom == if Complete(h, m) then c.fedFrom else r.value.tick)
  {
    hide Applied, After, Complete;
  }

  lemma ReceiveFeeds(s: System, c: Client, m: Snapshot)
    requires ServerOk(s) && Genuine(s.history, m) && FeedOk(s.history, s.now, c)
    requires forall t :: t in c.held ==> Exact(s.history, c.held, t)
    ensures FeedOk(s.history, s.now, Receive(s.history, c, m))
  {
    var h := s.history;
    var ack :| m.tick in h && m == MessageFor(h, ack, m.tick);
    hide MessageFor, Applied, After, ShownOnce, Shares, Exact, Sendable, Usable, Span, EventsWithin, IsSuffix, Receive;
    ReceiveIsExact(s, c.held, ack, m.tick);
    MessageEvents(h, ack, m.tick);
    ReceiveShape(h, c, m);
    var r := Applied(Get(c.held, m.baselineTick), m);
    if r.Some? {
      TickOfEntry(h, m.tick);
      if m.tick > c.fedTo {
        ConsumeOnce(h, c.fed, c.fedTo, m.events, m.tick);
        if Complete(h, m) {
          ConsumeAll(h, c.fed, c.fedFrom, ack, c.fedTo, m.tick);
        } else {
          NoSpan(h, m.tick, c.fed + After(m.events, c.fedTo));
        }
      }
    }
  }

  lemma TickOfEntry(h: History, t: nat)
    requires IsHistory(h) && t in h
    ensures h[t].tick == t
  {
  }

  lemma NoSpan(h: History, t: nat, fed: seq<GameEvent>)
    ensures IsSuffix(Span(h, t, t), fed)
  {
  }

  ghost predicate FeedsOk(s: System) {
    forall p :: p in s.clients ==> FeedOk(s.history, s.now, s.clients[p])
  }

  lemma NewcomerFeed(h: History, now: nat)
    ensures FeedOk(h, now, NEWCOMER)
  {
    forall t: nat
      ensures ShownOnce(h, [], t)
    {
    }
  }

  lemma FeedStep(s: System, step: Step)
    requires SafetyInv(s) && FeedsOk(s)
    ensures FeedsOk(Do(s, step))
  {
    hide MessageFor, Receive, FeedOk, Exact, Sendable, Genuine;
    if Possible(s, step) {
      match step
      case Tick(world) =>
        forall p | p in s.clients
          ensures FeedOk(s.history[world.tick := world], world.tick, s.clients[p])
        {
          FeedStable(s.history, s.now, s.clients[p], world.tick, world);
        }
      case Deliver(p, m) =>
        assert (p, m) in s.mail;
        ReceiveFeeds(s, s.clients[p], m);
      case Join(p) =>
        NewcomerFeed(s.history, s.now);
        JoinFeed(s.history, s.now, if p in s.clients then s.clients[p] else NEWCOMER);
      case SendAck(_) =>
      case AckArrives(_, _) =>
      case ForgedAck(_, _) =>
    }
  }

  lemma JoinFeed(h: History, now: nat, c: Client)
    requires FeedOk(h, now, c)
    ensures FeedOk(h, now, c.(held := map[], ackTick := 0))
  {
  }

  lemma {:induction false} FeedHolds(roster: set<nat>, steps: seq<Step>)
    ensures FeedsOk(Run(roster, steps))
  {
    if steps != [] {
      FeedHolds(roster, steps[..|steps| - 1]);
      SafetyHolds(roster, steps[..|steps| - 1]);
      FeedStep(Run(roster, steps[..|steps| - 1]), steps[|steps| - 1]);
    }
  }

  /**
   Over every run: the feed never goes backwards; of each tick it shows a newest part of what that tick
   broadcast, each event once; and from the last full or capped message on it is complete.
   */
  lemma FeedIsFaithful(roster: set<nat>, steps: seq<Step>, player: nat, t: nat)
    requires player in Run(roster, steps).clients
    ensures var s := Run(roster, steps);
      var c := s.clients[player];
      && EventsOrdered(c.fed)
      && IsSuffix(OfTick(c.fed, t), TickEvents(s.history, t))
      && IsSuffix(Span(s.history, c.fedFrom, c.fedTo), c.fed)
  {
    FeedHolds(roster, steps);
    var s := Run(roster, steps);
    assert FeedOk(s.history, s.now, s.clients[player]);
    assert ShownOnce(s.history, s.clients[player].fed, t);
  }

  // ---- and it moves ----

  lemma {:induction false} SpanEndsInItsTick(h: History, from: nat, last: nat)
    requires from < last && last in h
    ensures Span(h, from, last) == Span(h, from, last - 1) + h[last].events
  {
  }

  /** The newest eight keep whatever part at the end is no longer than eight. */
  lemma NewestKeepsTheEnd(before: seq<GameEvent>, own: seq<GameEvent>, now: nat)
    requires |own| <= 8 && (forall i :: 0 <= i < |own| ==> own[i].tick == now) && forall i :: 0 <= i < |before| ==> before[i].tick < now
    ensures OfTick(Newest(before + own), now) == own
  {
    var n := Newest(before + own);
    var kept := n[..|n| - |own|];
    assert n == kept + own;
    forall i | 0 <= i < |kept|
      ensures kept[i].tick != now
    {
      assert kept[i] in before;
    }
    OfTickConcat(kept, own, now);
    OfTickNone(kept, now);
    AllOfOneTick(own, now, now);
  }

  /** A message carries all the events of its own tick, last. */
  lemma OwnTickIsCarried(h: History, ack: nat, now: nat)
    requires IsHistory(h) && now in h
    ensures OfTick(MessageFor(h, ack, now).events, now) == h[now].events
  {
    hide DeltaOf, Span, MessageFor, OfTick, Usable;
    MessageShape(h, ack, now);
    AllOfOneTick(h[now].events, now, now);
    if Usable(h, ack, now) {
      UsableIsEarlier(h, ack, now);
      SpanEndsInItsTick(h, ack, now);
      SpanIsOrdered(h, ack, now - 1);
      NewestKeepsTheEnd(Span(h, ack, now - 1), h[now].events, now);
    }
  }

  lemma UsableIsEarlier(h: History, ack: nat, now: nat)
    requires Usable(h, ack, now)
    ensures ack < now
  {
  }

  /** Handling a later message a client can apply shows all of that message's own tick, keeps the state and acknowledges it. */
  lemma LaterMessageIsShown(s: System, c: Client, ack: nat, now: nat)
    requires ServerOk(s) && now in s.history && FeedOk(s.history, s.now, c) && c.fedTo < now
    requires forall t :: t in c.held ==> Exact(s.history, c.held, t)
    requires Usable(s.history, ack, now) ==> ack in c.held
    ensures var c' := Receive(s.history, c, MessageFor(s.history, ack, now));
      && now in c'.held && c'.ackTick == c'.fedTo == now && c.fed <= c'.fed && OfTick(c'.fed, now) == s.history[now].events
  {
    var h, m := s.history, MessageFor(s.history, ack, now);
    hide ServerOk, MessageFor, Applied, Exact, ShownOnce, Span, IsSuffix, Receive, Usable, OfTick, After, EventsOrdered;
    HistoryHolds(s, now);
    ReceiveIsExact(s, c.held, ack, now);
    ReceiveShape(h, c, m);
    ReceiveLetsGo(h, c, m);
    OwnTickIsCarried(h, ack, now);
    ShownAfter(c.fed, c.fedTo, m.events, now);
  }

  lemma HistoryHolds(s: System, now: nat)
    requires ServerOk(s) && now in s.history
    ensures IsHistory(s.history) && s.history[now].tick == now
  {
  }

  lemma ShownAfter(fed: seq<GameEvent>, fedTo: nat, evs: seq<GameEvent>, now: nat)
    requires EventsWithin(fed, fedTo) && fedTo < now
    ensures OfTick(fed + After(evs, fedTo), now) == OfTick(evs, now)
  {
    hide EventsOrdered;
    OfTickConcat(fed, After(evs, fedTo), now);
    OfTickAfter(evs, fedTo, now);
    OfTickNone(fed, now);
    assert [] + OfTick(evs, now) == OfTick(evs, now);
  }

  /**
   The feed moves. An honest client that is handed the message of the newest tick, and is not owed it against a state it let
   go of, then holds that tick, acknowledges it and has shown every event of it.
   */
  lemma FreshMessageIsShown(roster: set<nat>, steps: seq<Step>, p: nat, world: Snapshot)
    requires Honest(p, steps)
    requires var s := Run(roster, steps); Possible(s, Tick(world)) && p in s.clients
    ensures var s := Run(roster, steps);
      var a := Do(s, Tick(world));
      && p in s.subs && p in a.clients && world.tick in a.history
      && var m := MessageFor(a.history, s.subs[p].ack, world.tick);
         var c := Do(a, Deliver(p, m)).clients[p];
         && (p, m) in a.mail
         && (!LeftOver(s, p, world.tick) ==>
              && world.tick in c.held && c.ackTick == c.fedTo == world.tick && OfTick(c.fed, world.tick) == world.events)
  {
    FreshMessageApplies(roster, steps, p, world);
    SafetyHolds(roster, steps);
    FeedHolds(roster, steps);
    var s := Run(roster, steps);
    SafetyStep(s, Tick(world));
    FeedStep(s, Tick(world));
    hide Run, MessageFor, Applied, Receive, Sendable, Exact, ShownOnce, Honest;
    var a := Do(s, Tick(world));
    assert FeedOk(s.history, s.now, s.clients[p]) && FeedOk(a.history, a.now, a.clients[p]);
    if !LeftOver(s, p, world.tick) {
      LaterMessageIsShown(a, a.clients[p], s.subs[p].ack, world.tick);
    }
  }
}
