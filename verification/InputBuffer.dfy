/**
 The jitter buffer: what arrives for a player waits in its inbox, and each tick takes one. A backlog beyond the
 buffer is dropped from the front, so that a client ahead of the room stays in the present.
 */
module InputBuffer {
  import opened Wrappers
  import opened SimTypes

  const DEFAULT_BUFFER: nat := 2
  const QUEUE_CAP: nat := 8
  const IDLE_TICKS: nat := 60
  const MAX_LAG: nat := 10

  /** An arrival with what its lag will be worked out from: the acknowledged tick and the declared render delay. */
  datatype Queued = Queued(inp: Input, ackTick: nat, interpMs: nat)

  datatype Inbox = Inbox(q: seq<Queued>, lastRecv: nat)

  function Capacity(asked: int): (n: nat)
    ensures 1 <= n <= QUEUE_CAP && (1 <= asked <= QUEUE_CAP ==> n == asked)
  {
    if asked <= 0 then DEFAULT_BUFFER else if asked > QUEUE_CAP then QUEUE_CAP else asked
  }

  // ---- lag ----

  function LagFor(ackTick: nat, applyTick: nat, interp: nat): nat {
    if ackTick == 0 || ackTick >= applyTick then 0
    else
      var d := applyTick - ackTick + interp;
      if d > MAX_LAG then MAX_LAG else d
  }

  /** A render delay in ticks of the room's rate, rounded to the nearest. Durations are in nanoseconds. */
  function InterpTicks(ms: nat, tickDur: nat): nat {
    if ms == 0 || tickDur == 0 then 0
    else
      var t := (ms * 1_000_000 + tickDur / 2) / tickDur;
      if t > MAX_LAG then MAX_LAG else t
  }

  /** Round trip and interpolation together never buy more than ten ticks, and nothing without an honest acknowledgement. */
  lemma LagIsCapped(ackTick: nat, applyTick: nat, ms: nat, tickDur: nat)
    ensures var interp, lag := InterpTicks(ms, tickDur), LagFor(ackTick, applyTick, InterpTicks(ms, tickDur));
      && lag <= MAX_LAG
      && (lag == 0 <==> ackTick == 0 || ackTick >= applyTick)
      && (0 < lag < MAX_LAG ==> lag == applyTick - ackTick + interp)
  {
  }

  /** Rounding is to the nearest tick: at most half a tick is given or taken. */
  lemma InterpIsNearest(ms: nat, tickDur: nat)
    requires ms > 0 && tickDur > 0 && InterpTicks(ms, tickDur) < MAX_LAG
    ensures var t := InterpTicks(ms, tickDur);
      2 * ms * 1_000_000 - tickDur < 2 * (tickDur * t) + 1 && 2 * (tickDur * t) <= 2 * ms * 1_000_000 + tickDur
  {
    var a := ms * 1_000_000 + tickDur / 2;
    assert a == tickDur * (a / tickDur) + a % tickDur;
  }

  // ---- one inbox ----

  function Filed(box: Option<Inbox>, x: Queued, now: nat): Inbox {
    var q := if box.Some? then box.value.q else [];
    Inbox((if |q| >= QUEUE_CAP then q[1..] else q) + [x], now)
  }

  /** How many a tick drops before it takes one. */
  function Excess(box: Inbox, buffer: nat): nat {
    if |box.q| > buffer then |box.q| - buffer else 0
  }

  function Lifted(box: Inbox, buffer: nat, now: nat, tickDur: nat): Input
    requires box.q != [] && buffer > 0
  {
    var x := box.q[Excess(box, buffer)];
    x.inp.(lagTicks := LagFor(x.ackTick, now + 1, InterpTicks(x.interpMs, tickDur)))
  }

  predicate Idle(box: Inbox, now: nat) {
    box.q == [] && now > box.lastRecv + IDLE_TICKS
  }

  function Drained(box: Inbox, buffer: nat): Inbox
    requires buffer > 0
  {
    if box.q == [] then box else box.(q := box.q[Excess(box, buffer) + 1..])
  }

  lemma NothingToDrain(box: Inbox, buffer: nat)
    requires buffer > 0 && box.q == []
    ensures Drained(box, buffer) == box
  {
  }

  // ---- the room's inboxes ----

  ghost function Rest(boxes: map<nat, Inbox>, buffer: nat, now: nat): map<nat, Inbox>
    requires buffer > 0
  {
    map id | id in boxes && !Idle(boxes[id], now) :: Drained(boxes[id], buffer)
  }

  ghost function Pending(boxes: map<nat, Inbox>, buffer: nat, now: nat, tickDur: nat): map<nat, Input>
    requires buffer > 0
  {
    map id | id in boxes && boxes[id].q != [] :: Lifted(boxes[id], buffer, now, tickDur)
  }

  class Inboxes {
    const buffer: nat
    const tickDur: nat
    var boxes: map<nat, Inbox>
    var lastWorld: nat

    constructor (asked: int, duration: nat)
      ensures buffer == Capacity(asked) && tickDur == duration && boxes == map[] && lastWorld == 0
    {
      buffer, tickDur, boxes, lastWorld := Capacity(asked), duration, map[], 0;
    }

    method Enqueue(id: nat, x: Queued)
      modifies `boxes
      ensures boxes == old(boxes)[id := Filed(if id in old(boxes) then Some(old(boxes)[id]) else None, x, lastWorld)]
    {
      if id !in boxes {
        boxes := boxes[id := Inbox([], lastWorld)];
      }
      var e := boxes[id].(lastRecv := lastWorld);
      if |e.q| >= QUEUE_CAP {
        e := e.(q := e.q[1..]);
      }
      e := e.(q := e.q + [x]);
      boxes := boxes[id := e];
    }

    /** Trims a backlog to the buffer, then takes the first of what is left. */
    method TakeNext(box: Inbox) returns (next: Queued, rest: Inbox)
      requires buffer > 0 && box.q != []
      ensures next == box.q[Excess(box, buffer)] && rest == Drained(box, buffer)
    {
      rest := box;
      if |rest.q| > buffer {
        rest := rest.(q := rest.q[|rest.q| - buffer..]);
      }
      next := rest.q[0];
      rest := rest.(q := rest.q[1..]);
      assert rest.q == box.q[Excess(box, buffer) + 1..];
    }

    /** Every inbox gives at most one input, and the order in which the map is walked does not show. */
    method FillPending() returns (pending: map<nat, Input>)
      requires buffer > 0
      modifies `boxes
      ensures pending == Pending(old(boxes), buffer, lastWorld, tickDur)
      ensures boxes == Rest(old(boxes), buffer, lastWorld)
    {
      hide LagFor, InterpTicks, Drained;
      pending := map[];
      var todo := boxes.Keys;
      while todo != {}
        invariant todo <= old(boxes).Keys
        invariant forall id :: id in boxes <==> id in old(boxes) && (id in todo || !Idle(old(boxes)[id], lastWorld))
        invariant forall id :: id in boxes ==> boxes[id] == if id in todo then old(boxes)[id] else Drained(old(boxes)[id], buffer)
        invariant forall id :: id in pending <==> id in old(boxes) && id !in todo && old(boxes)[id].q != []
        invariant forall id :: id in pending ==> pending[id] == Lifted(old(boxes)[id], buffer, lastWorld, tickDur)
        decreases |todo|
      {
        var id :| id in todo;
        todo := todo - {id};
        var e := boxes[id];
        if |e.q| == 0 {
          NothingToDrain(e, buffer);
          if lastWorld - e.lastRecv > IDLE_TICKS {
            boxes := boxes - {id};
          }
          continue;
        }
        var next: Queued;
        next, e := TakeNext(e);
        boxes := boxes[id := e];
        pending := pending[id := next.inp.(lagTicks := LagFor(next.ackTick, lastWorld + 1, InterpTicks(next.interpMs, tickDur)))];
      }
    }
  }

  // ---- one player over a whole run ----

  /** What the simulation was handed: which arrival it was, the tick it went to, and the input itself. */
  datatype Use = Use(arrival: nat, tick: nat, inp: Input)

  /** `since[k]` is the room's tick when arrival `k` came in; `gone` is how many have left the queue. */
  datatype Line = Line(box: Option<Inbox>, now: nat, arrived: seq<Queued>, since: seq<nat>, gone: nat, used: seq<Use>, dropped: nat)

  const EMPTY: Line := Line(None, 0, [], [], 0, [], 0)

  datatype Step = Arrive(x: Queued) | Tick

  function Queue(l: Line): seq<Queued> {
    if l.box.Some? then l.box.value.q else []
  }

  function Next(l: Line, step: Step, buffer: nat, tickDur: nat): Line
    requires buffer > 0
  {
    match step
    case Arrive(x) =>
      var lost := if |Queue(l)| >= QUEUE_CAP then 1 else 0;
      l.(box := Some(Filed(l.box, x, l.now)), arrived := l.arrived + [x], since := l.since + [l.now],
         gone := l.gone + lost, dropped := l.dropped + lost)
    case Tick =>
      match l.box
      case None => l.(now := l.now + 1)
      case Some(box) =>
        if Idle(box, l.now) then l.(box := None, now := l.now + 1)
        else if box.q == [] then l.(now := l.now + 1)
        else
          var skipped := Excess(box, buffer);
          l.(box := Some(Drained(box, buffer)), now := l.now + 1, gone := l.gone + skipped + 1, dropped := l.dropped + skipped,
             used := l.used + [Use(l.gone + skipped, l.now + 1, Lifted(box, buffer, l.now, tickDur))])
  }

  function Run(steps: seq<Step>, buffer: nat, tickDur: nat): Line
    requires buffer > 0
  {
    if steps == [] then EMPTY else Next(Run(steps[..|steps| - 1], buffer, tickDur), steps[|steps| - 1], buffer, tickDur)
  }

  /** The room's pass over every inbox does to this one what a tick of its own line does. */
  lemma TickIsOneInbox(boxes: map<nat, Inbox>, id: nat, l: Line, buffer: nat, tickDur: nat)
    requires buffer > 0 && l.box == if id in boxes then Some(boxes[id]) else None
    ensures var t := Next(l, Tick, buffer, tickDur);
      && t.box == (if id in Rest(boxes, buffer, l.now) then Some(Rest(boxes, buffer, l.now)[id]) else None)
      && (id in Pending(boxes, buffer, l.now, tickDur) <==> |t.used| == |l.used| + 1)
      && (id in Pending(boxes, buffer, l.now, tickDur) ==> t.used[|l.used|].inp == Pending(boxes, buffer, l.now, tickDur)[id])
  {
  }

  /** The lag of an input simulated on `tick`: what it was behind when it was made, and how far back its player saw. */
  predicate MeasuredFor(lag: nat, x: Queued, tick: nat, tickDur: nat) {
    var behind := tick - x.ackTick + InterpTicks(x.interpMs, tickDur);
    if x.ackTick == 0 || x.ackTick >= tick then lag == 0 else if behind <= 10 then lag == behind else lag == 10
  }

  /**
   A tick uses one input whenever any waits, the oldest that the buffer still holds, and drops only what is in front of
   the buffer; an arrival pushes out the oldest only when eight wait already.
   */
  lemma EveryTickUsesOne(l: Line, x: Queued, buffer: nat, tickDur: nat)
    requires buffer > 0 && Conserved(l)
    ensures var t := Next(l, Tick, buffer, tickDur);
      var waiting, extra := |Queue(l)|, if |Queue(l)| > buffer then |Queue(l)| - buffer else 0;
      && t.now == l.now + 1 && t.arrived == l.arrived && t.dropped == l.dropped + extra
      && (waiting == 0 ==> t.used == l.used)
      && (waiting > 0 ==>
           && |t.used| == |l.used| + 1 && l.used <= t.used
           && var u := t.used[|l.used|];
              && u.arrival == l.gone + extra && u.tick == t.now && u.arrival < |l.arrived|
              && u.inp == l.arrived[u.arrival].inp.(lagTicks := u.inp.lagTicks)
              && MeasuredFor(u.inp.lagTicks, l.arrived[u.arrival], u.tick, tickDur))
    ensures var t := Next(l, Arrive(x), buffer, tickDur);
      t.arrived == l.arrived + [x] && t.used == l.used && t.now == l.now && t.dropped == l.dropped + if |Queue(l)| >= 8 then 1 else 0
  {
    hide InterpTicks;
  }

  /** Over a run, as many inputs are used as there were ticks that found one waiting. */
  lemma {:induction false} OneUseForEachTick(steps: seq<Step>, buffer: nat, tickDur: nat)
    requires buffer > 0
    ensures |Run(steps, buffer, tickDur).used| == TicksThatFound(steps, buffer, tickDur)
  {
    if steps != [] {
      var n := |steps| - 1;
      OneUseForEachTick(steps[..n], buffer, tickDur);
      RunIsFair(steps[..n], buffer, tickDur);
      if steps[n].Tick? {
        EveryTickUsesOne(Run(steps[..n], buffer, tickDur), Queued(Input(0, 0, false, 0, 0, 0), 0, 0), buffer, tickDur);
      }
    }
  }

  function TicksThatFound(steps: seq<Step>, buffer: nat, tickDur: nat): nat
    requires buffer > 0
  {
    if steps == [] then 0
    else
      var before, step := steps[..|steps| - 1], steps[|steps| - 1];
      TicksThatFound(before, buffer, tickDur) + if step.Tick? && Queue(Run(before, buffer, tickDur)) != [] then 1 else 0
  }

  /** Every arrival is used, dropped or still queued, in the order it came. */
  ghost predicate Conserved(l: Line) {
    && l.gone <= |l.arrived| == |l.since| && Queue(l) == l.arrived[l.gone..]
    && |l.used| + l.dropped == l.gone
    && (forall k :: 0 <= k < |l.since| ==> l.since[k] <= l.now)
    && |Queue(l)| <= QUEUE_CAP
  }

  /** Uses are of distinct arrivals, in arrival order, each the arrival's own input with a lag worked out for its tick. */
  ghost predicate UsedInOrder(l: Line) {
    && (forall i, j :: 0 <= i < j < |l.used| ==> l.used[i].arrival < l.used[j].arrival && l.used[i].tick < l.used[j].tick)
    && (forall i :: 0 <= i < |l.used| ==>
         var u := l.used[i];
         && u.arrival < l.gone <= |l.arrived| && u.tick <= l.now
         && u.inp == l.arrived[u.arrival].inp.(lagTicks := u.inp.lagTicks) && u.inp.lagTicks <= MAX_LAG)
  }

  /** What has waited through `k` ticks is among the first `buffer - k` of the queue. */
  ghost predicate Prompt(l: Line, buffer: nat) {
    && |l.since| == |l.arrived|
    && forall k :: l.gone <= k < |l.arrived| && l.since[k] < l.now ==> (k - l.gone) + (l.now - l.since[k]) < buffer
  }

  lemma {:induction false} RunIsFair(steps: seq<Step>, buffer: nat, tickDur: nat)
    requires buffer > 0
    ensures var l := Run(steps, buffer, tickDur); Conserved(l) && UsedInOrder(l) && Prompt(l, buffer)
  {
    if steps != [] {
      var n := |steps| - 1;
      RunIsFair(steps[..n], buffer, tickDur);
      StepIsFair(Run(steps[..n], buffer, tickDur), steps[n], buffer, tickDur);
    }
  }

  lemma ArrivalIsFair(l: Line, x: Queued, buffer: nat, tickDur: nat)
    requires buffer > 0 && Conserved(l) && UsedInOrder(l) && Prompt(l, buffer)
    ensures var t := Next(l, Arrive(x), buffer, tickDur); Conserved(t) && UsedInOrder(t) && Prompt(t, buffer)
  {
    var t := Next(l, Arrive(x), buffer, tickDur);
    var lost := if |Queue(l)| >= QUEUE_CAP then 1 else 0;
    assert Queue(t) == l.arrived[l.gone..][lost..] + [x];
    assert Queue(t) == t.arrived[t.gone..];
    assert UsedInOrder(t) by {
      forall i | 0 <= i < |t.used|
        ensures t.used[i].arrival < t.gone && t.arrived[t.used[i].arrival] == l.arrived[t.used[i].arrival]
      {
        assert l.used[i].arrival < l.gone;
      }
    }
  }

  /** A tick that takes one, in the terms the laws are stated in. */
  lemma TakingIsFair(l: Line, t: Line, skipped: nat, u: Use, buffer: nat)
    requires Conserved(l) && UsedInOrder(l) && Prompt(l, buffer)
    requires skipped < |Queue(l)| && |Queue(l)| - skipped <= buffer
    requires t.arrived == l.arrived && t.since == l.since && t.now == l.now + 1
    requires t.gone == l.gone + skipped + 1 && t.dropped == l.dropped + skipped && t.used == l.used + [u]
    requires Queue(t) == Queue(l)[skipped + 1..]
    requires u.arrival == l.gone + skipped && u.tick == t.now && u.inp.lagTicks <= MAX_LAG
    requires u.inp == Queue(l)[skipped].inp.(lagTicks := u.inp.lagTicks)
    ensures Conserved(t) && UsedInOrder(t) && Prompt(t, buffer) && |Queue(t)| < buffer
  {
    assert Conserved(t) by {
      hide UsedInOrder, Prompt;
      assert l.arrived[l.gone..][skipped + 1..] == l.arrived[t.gone..];
    }
    assert UsedInOrder(t) by {
      hide Prompt;
      assert Queue(l)[skipped] == l.arrived[u.arrival];
      forall i | 0 <= i < |l.used|
        ensures l.used[i].arrival < l.gone && l.used[i].tick <= l.now && t.used[i] == l.used[i]
      {
      }
    }
    assert Prompt(t, buffer) by {
      hide UsedInOrder;
    }
  }

  lemma TickIsFair(l: Line, buffer: nat, tickDur: nat)
    requires buffer > 0 && Conserved(l) && UsedInOrder(l) && Prompt(l, buffer)
    ensures var t := Next(l, Tick, buffer, tickDur); Conserved(t) && UsedInOrder(t) && Prompt(t, buffer) && |Queue(t)| < buffer
  {
    hide InterpTicks;
    var t := Next(l, Tick, buffer, tickDur);
    if Queue(l) != [] {
      var box := l.box.value;
      hide UsedInOrder, Prompt, Conserved;
      TakingIsFair(l, t, Excess(box, buffer), t.used[|l.used|], buffer);
    } else {
      assert UsedInOrder(t);
    }
  }

  lemma StepIsFair(l: Line, step: Step, buffer: nat, tickDur: nat)
    requires buffer > 0 && Conserved(l) && UsedInOrder(l) && Prompt(l, buffer)
    ensures var t := Next(l, step, buffer, tickDur); Conserved(t) && UsedInOrder(t) && Prompt(t, buffer)
    ensures step.Tick? ==> |Queue(Next(l, step, buffer, tickDur))| < buffer
  {
    hide Next, UsedInOrder, Prompt, Conserved, Queue;
    match step
    case Arrive(x) => ArrivalIsFair(l, x, buffer, tickDur);
    case Tick => TickIsFair(l, buffer, tickDur);
  }

  /**
   Over any run of arrivals and ticks: what arrived is what was used, dropped or is still waiting; nothing is
   used twice or out of order; after a tick at most `buffer - 1` wait; and nothing waits for `buffer` ticks.
   */
  lemma InputsAreConserved(steps: seq<Step>, buffer: nat, tickDur: nat, k: nat)
    requires buffer > 0
    ensures var l := Run(steps, buffer, tickDur);
      && |l.arrived| == |l.used| + l.dropped + |Queue(l)|
      && UsedInOrder(l)
      && (steps != [] && steps[|steps| - 1].Tick? ==> |Queue(l)| < buffer)
      && (k < |l.arrived| == |l.since| && l.now >= l.since[k] + buffer ==> k < l.gone)
      && (l.box.None? ==> |l.arrived| == |l.used| + l.dropped)
  {
    RunIsFair(steps, buffer, tickDur);
    if steps != [] {
      var n := |steps| - 1;
      RunIsFair(steps[..n], buffer, tickDur);
      StepIsFair(Run(steps[..n], buffer, tickDur), steps[n], buffer, tickDur);
    }
  }
}
