/**
 Recording a match and playing it back: the room applies what it drained to the world and to the recorder, steps
 the world and records the tick; the verifier rebuilds the world from the header and steps it the same way.
 */
module Replay {
  import opened Wrappers
  import opened Keyed
  import opened SimTypes
  import opened Arena
  import opened ReplayFormat
  import D = Departure
  import W = World

  const MAX_REPLAY_TICKS: nat := 24 * 60 * 60 * 60

  // ---- the recorder ----

  lemma {:induction false} SeatsSnoc(s: seq<Seat>, e: Seat)
    ensures SeatsBytes(s + [e]) == SeatsBytes(s) + SeatBytes(e)
  {
    if s == [] {
      assert s + [e] == [e];
    } else {
      assert (s + [e])[1..] == s[1..] + [e];
      SeatsSnoc(s[1..], e);
      Regroup(SeatBytes(s[0]), SeatsBytes(s[1..]), SeatBytes(e));
    }
  }

  lemma {:induction false} InputsSnoc(s: seq<Entity<Input>>, e: Entity<Input>)
    ensures InputsBytes(s + [e]) == InputsBytes(s) + InputBytes(e)
  {
    hide InputBytes;
    if s == [] {
      assert s + [e] == [e];
    } else {
      assert (s + [e])[1..] == s[1..] + [e];
      InputsSnoc(s[1..], e);
      Regroup(InputBytes(s[0]), InputsBytes(s[1..]), InputBytes(e));
    }
  }

  lemma {:induction false} EventsSnoc(s: seq<RosterEvent>, e: RosterEvent)
    ensures EventsBytes(s + [e]) == EventsBytes(s) + EventBytes(e)
  {
    hide EventBytes;
    if s == [] {
      assert s + [e] == [e];
    } else {
      assert (s + [e])[1..] == s[1..] + [e];
      EventsSnoc(s[1..], e);
      Regroup(EventBytes(s[0]), EventsBytes(s[1..]), EventBytes(e));
    }
  }

  lemma {:induction false} FramesSnoc(s: seq<Frame>, e: Frame)
    ensures FramesBytes(s + [e]) == FramesBytes(s) + FrameBytes(e)
  {
    hide FrameBytes;
    if s == [] {
      assert s + [e] == [e];
    } else {
      assert (s + [e])[1..] == s[1..] + [e];
      FramesSnoc(s[1..], e);
      Regroup(FrameBytes(s[0]), FramesBytes(s[1..]), FrameBytes(e));
    }
  }

  lemma LeastKey(keys: set<nat>) returns (k: nat)
    requires keys != {}
    ensures k in keys && forall j :: j in keys ==> k <= j
  {
    var x :| x in keys;
    k := x;
    var rest := keys - {x};
    if rest != {} {
      var m := LeastKey(rest);
      k := if m < x then m else x;
    }
    assert forall j :: j in keys ==> j == x || j in rest;
  }

  /** The map's entries by id: a map is walked in no particular order, and a recording must be. */
  method InIdOrder(inputs: map<nat, Input>) returns (s: seq<Entity<Input>>)
    ensures s == Ascend(inputs)
  {
    var todo := inputs.Keys;
    s := [];
    ByIdEmpty<Input>();
    while todo != {}
      invariant todo <= inputs.Keys && Ascending(s)
      invariant ById(s) == map id | id in inputs && id !in todo :: inputs[id]
      invariant forall id, j :: id in ById(s) && j in todo ==> id < j
      decreases |todo|
    {
      ghost var least := LeastKey(todo);
      var k :| k in todo && forall j :: j in todo ==> k <= j;
      todo := todo - {k};
      ByIdAppend(s, Entity(k, inputs[k]));
      AscendingAppend(s, Entity(k, inputs[k]));
      s := s + [Entity(k, inputs[k])];
    }
    assert ById(s) == inputs;
    IsAscend(s, inputs);
  }

  class Recorder {
    const header: Header
    var buf: seq<byte>
    var pending: seq<RosterEvent>
    var closed: bool
    ghost var frames: seq<Frame>

    ghost predicate Valid()
      reads this
    {
      !closed && buf == HeaderBytes(header) + FramesBytes(frames)
    }

    constructor (h: Header)
      ensures header == h && Valid() && frames == [] && pending == []
    {
      var b := MAGIC;
      b := b + Bytes(FORMAT, 2);
      b := b + Bytes(h.tickRate, 2);
      b := b + Bytes(h.matchTicks, 4);
      b := b + Bytes(Unsigned(h.seed, 8), 8);
      b := b + Bytes(|h.roster|, 2);
      ghost var head := b;
      for i := 0 to |h.roster|
        invariant b == head + SeatsBytes(h.roster[..i])
      {
        assert h.roster[..i + 1] == h.roster[..i] + [h.roster[i]];
        SeatsSnoc(h.roster[..i], h.roster[i]);
        Regroup(head, SeatsBytes(h.roster[..i]), SeatBytes(h.roster[i]));
        b := b + (Bytes(h.roster[i].id, 4) + Bytes(Flag(h.roster[i].bot), 1));
      }
      assert h.roster[..|h.roster|] == h.roster;
      header, buf, pending, closed, frames := h, b, [], false, [];
    }

    method Event(e: RosterEvent)
      requires Valid()
      modifies `pending
      ensures Valid() && pending == old(pending) + [e]
    {
      pending := pending + [e];
    }

    /** A tick in which nothing happened is not written; the roster changes since the last one go with this one. */
    method Record(tick: nat, inputs: map<nat, Input>)
      requires Valid()
      modifies `buf, `pending, `frames
      ensures Valid() && pending == []
      ensures frames == old(frames) + if inputs == map[] && old(pending) == [] then [] else [Frame(tick, inputs, old(pending))]
    {
      if inputs == map[] && pending == [] {
        return;
      }
      var body := FrameInBytes(tick, inputs, pending);
      FramesSnoc(frames, Frame(tick, inputs, pending));
      Regroup(HeaderBytes(header), FramesBytes(frames), body);
      buf := buf + body;
      frames := frames + [Frame(tick, inputs, pending)];
      pending := [];
    }

    method Close(finalTick: nat, checksum: nat)
      requires Valid()
      modifies `buf, `closed
      ensures closed && buf == Written(Recording(FORMAT, header, frames, finalTick, checksum))
    {
      closed := true;
      ghost var before := buf;
      buf := buf + Bytes(END_MARKER, 4);
      buf := buf + Bytes(finalTick, 4);
      buf := buf + Bytes(checksum, 8);
      Regroup(before + Bytes(END_MARKER, 4), Bytes(finalTick, 4), Bytes(checksum, 8));
      Regroup(before, Bytes(END_MARKER, 4), Bytes(finalTick, 4) + Bytes(checksum, 8));
      Regroup(Bytes(END_MARKER, 4), Bytes(finalTick, 4), Bytes(checksum, 8));
    }
  }

  method FrameInBytes(tick: nat, inputs: map<nat, Input>, events: seq<RosterEvent>) returns (b: seq<byte>)
    ensures b == FrameBytes(Frame(tick, inputs, events))
  {
    hide Bytes, Unsigned;
    var s := InIdOrder(inputs);
    b := Bytes(tick, 4);
    b := b + Bytes(|s|, 2);
    ghost var head := b;
    for i := 0 to |s|
      invariant b == head + InputsBytes(s[..i])
    {
      assert s[..i + 1] == s[..i] + [s[i]];
      InputsSnoc(s[..i], s[i]);
      Regroup(head, InputsBytes(s[..i]), InputBytes(s[i]));
      var inp := s[i].v;
      b := b + (Bytes(s[i].id, 4) + Bytes(Unsigned(inp.mx, 1), 1) + Bytes(Unsigned(inp.my, 1), 1) + Bytes(Flag(inp.fire), 1)
                + Bytes(Unsigned(inp.aim, 2), 2) + Bytes(inp.inputSeq, 4) + Bytes(inp.lagTicks, 1));
    }
    assert s[..|s|] == s;
    b := b + Bytes(|events|, 2);
    head := b;
    for i := 0 to |events|
      invariant b == head + EventsBytes(events[..i])
    {
      assert events[..i + 1] == events[..i] + [events[i]];
      EventsSnoc(events[..i], events[i]);
      Regroup(head, EventsBytes(events[..i]), EventBytes(events[i]));
      b := b + (Bytes(events[i].id, 4) + Bytes(Code(events[i].kind), 1));
    }
    assert events[..|events|] == events;
  }

  // ---- the parser ----

  class Parser {
    var c: Cursor

    constructor (src: seq<byte>)
      ensures c == Cursor(src, false)
    {
      c := Cursor(src, false);
    }

    /** The first short read sticks: everything after it is empty. */
    method TakeBytes(n: nat) returns (b: seq<byte>)
      modifies this
      ensures (b, c) == Take(old(c), n)
    {
      if c.err {
        return [];
      }
      if |c.rest| < n {
        c := Cursor([], true);
        return [];
      }
      b := c.rest[..n];
      c := Cursor(c.rest[n..], false);
    }

    method TakeNum(width: nat) returns (n: nat)
      modifies this
      ensures (n, c) == Num(old(c), width)
    {
      var b := TakeBytes(width);
      n := Number(b);
    }

    method TakeSeats(n: nat) returns (roster: seq<Seat>)
      modifies this
      ensures (roster, c) == ReadSeats(old(c), n, [])
    {
      hide Num;
      roster := [];
      var i := 0;
      while i < n && !c.err
        invariant i <= n && ReadSeats(c, n - i, roster) == ReadSeats(old(c), n, [])
      {
        var id := TakeNum(4);
        var bot := TakeNum(1);
        roster := roster + [Seat(id, bot == 1)];
        i := i + 1;
      }
    }

    method TakeInput() returns (e: Entity<Input>)
      modifies this
      ensures (e, c) == ReadInput(old(c))
    {
      hide Num;
      var id := TakeNum(4);
      var mx := TakeNum(1);
      var my := TakeNum(1);
      var fire := TakeNum(1);
      var aim := TakeNum(2);
      var number := TakeNum(4);
      var lag := TakeNum(1);
      e := Entity(id, Input(Signed(mx, 1), Signed(my, 1), fire == 1, Signed(aim, 2), number, lag));
    }

    method TakeFrame(version: nat, tick: nat) returns (f: Frame)
      modifies this
      ensures (f, c) == ReadFrame(old(c), version, tick)
    {
      hide Num, ReadInput;
      var count := TakeNum(2);
      ghost var c1 := c;
      var inputs: map<nat, Input> := map[];
      var i := 0;
      while i < count && !c.err
        invariant i <= count && ReadInputs(c, count - i, inputs) == ReadInputs(c1, count, map[])
      {
        var e := TakeInput();
        inputs := inputs[e.id := e.v];
        i := i + 1;
      }
      assert (inputs, c) == ReadInputs(c1, count, map[]);
      var events: seq<RosterEvent> := [];
      if version >= 2 {
        var n := TakeNum(2);
        ghost var c3 := c;
        var k := 0;
        while k < n && !c.err
          invariant k <= n && ReadEvents(c, n - k, events) == ReadEvents(c3, n, [])
        {
          var id := TakeNum(4);
          var kind := TakeNum(1);
          events := events + [RosterEvent(id, KindOf(kind))];
          k := k + 1;
        }
        assert (events, c) == ReadEvents(c3, n, []);
      }
      f := Frame(tick, inputs, events);
    }

    method TakeBody(version: nat) returns (body: Body)
      modifies this
      ensures (body, c) == ReadBody(old(c), version, [])
    {
      hide Num, ReadFrame;
      var frames: seq<Frame> := [];
      while !c.err
        invariant ReadBody(c, version, frames) == ReadBody(old(c), version, [])
        decreases |c.rest|, !c.err
      {
        ghost var before := c;
        var tick := TakeNum(4);
        if tick == END_MARKER {
          var finalTick := TakeNum(4);
          var checksum := TakeNum(8);
          return Body(frames, finalTick, checksum);
        }
        ghost var c1 := c;
        var f := TakeFrame(version, tick);
        assert c == Num(before, 4).1 || c == ReadFrame(c1, version, tick).1;
        frames := frames + [f];
      }
      body := Body(frames, 0, 0);
    }
  }

  method Parse(src: seq<byte>) returns (rec: Option<Recording>)
    ensures rec == Read(src)
  {
    hide Num, ReadSeats, ReadBody;
    var p := new Parser(src);
    var magic := p.TakeBytes(4);
    if p.c.err {
      return None;
    }
    if magic != MAGIC {
      return None;
    }
    var version := p.TakeNum(2);
    if version < MIN_FORMAT || version > FORMAT {
      return None;
    }
    var tickRate := p.TakeNum(2);
    var matchTicks := p.TakeNum(4);
    var seed := p.TakeNum(8);
    var n := p.TakeNum(2);
    var roster := p.TakeSeats(n);
    var body := p.TakeBody(version);
    if p.c.err {
      return None;
    }
    rec := Some(Recording(version, Header(tickRate, matchTicks, Signed(seed, 8), roster), body.frames, body.finalTick, body.checksum));
  }

  // ---- the match as it was played ----

  /** What one tick of the room was: the roster changes drained before it, and the inputs it was given. */
  datatype TickIn = TickIn(events: seq<RosterEvent>, inputs: Inputs)

  function PlayerOf(s: Seat): Player {
    Player(s.id, 0, 0, 0, 0, 0, 0, 0, false, s.bot, 0, 0, false, 0)
  }

  function Players(roster: seq<Seat>): (ps: seq<Player>)
    ensures |ps| == |roster|
  {
    seq(|roster|, i requires 0 <= i < |roster| => PlayerOf(roster[i]))
  }

  /** The generator's stream for each seed. */
  type Streams = int -> (nat -> nat)

  function RulesOf(h: Header, streams: Streams): Rules {
    RulesFor(h.tickRate, h.matchTicks, streams(h.seed))
  }

  function StartOf(h: Header): State {
    Opening(Players(h.roster))
  }

  function Applied(w: State, e: RosterEvent): State {
    match e.kind
    case Depart => Arena.Depart(w, e.id)
    case Rejoin => Arena.Rejoin(w, e.id)
    case Unknown(_) => w
  }

  function AllApplied(w: State, es: seq<RosterEvent>): State {
    if es == [] then w else Applied(AllApplied(w, es[..|es| - 1]), es[|es| - 1])
  }

  function Live(r: Rules, w: State, ticks: seq<TickIn>): State {
    if ticks == [] then w
    else Step(r, AllApplied(Live(r, w, ticks[..|ticks| - 1]), ticks[|ticks| - 1].events), ticks[|ticks| - 1].inputs)
  }

  /** What the room's ticks are in a run of the match: the changes drained, in order, and then the tick. */
  function ActionsOf(ticks: seq<TickIn>): seq<D.Action> {
    if ticks == [] then []
    else ActionsOf(ticks[..|ticks| - 1]) + ChangesOf(ticks[|ticks| - 1].events) + [D.Tick(ticks[|ticks| - 1].inputs)]
  }

  function ChangeOf(e: RosterEvent): seq<D.Action> {
    match e.kind
    case Depart => [D.Leave(e.id)]
    case Rejoin => [D.Back(e.id)]
    case Unknown(_) => []
  }

  function ChangesOf(es: seq<RosterEvent>): seq<D.Action> {
    if es == [] then [] else ChangesOf(es[..|es| - 1]) + ChangeOf(es[|es| - 1])
  }

  lemma ChangeIsAnAction(r: Rules, w: State, e: RosterEvent)
    ensures Applied(w, e) == D.Run(r, w, ChangeOf(e))
  {
    OneAction(r, w, ChangeOf(e));
    hide Arena.Depart, Arena.Rejoin, D.Run;
  }

  lemma {:induction false} ChangesAreActions(r: Rules, w: State, es: seq<RosterEvent>)
    ensures AllApplied(w, es) == D.Run(r, w, ChangesOf(es))
  {
    hide Applied, D.Act, ChangeOf;
    if es != [] {
      var n := |es| - 1;
      ChangesAreActions(r, w, es[..n]);
      ChangeIsAnAction(r, AllApplied(w, es[..n]), es[n]);
      D.RunSplits(r, w, ChangesOf(es[..n]), ChangeOf(es[n]));
    }
  }

  lemma OneAction(r: Rules, w: State, acts: seq<D.Action>)
    requires |acts| <= 1
    ensures D.Run(r, w, acts) == if acts == [] then w else D.Act(r, w, acts[0])
  {
    if acts != [] {
      assert acts[..0] == [];
    }
  }

  /** The match a room plays and records is a run of the simulation like any other. */
  lemma {:induction false} LiveIsARun(r: Rules, w: State, ticks: seq<TickIn>)
    ensures Live(r, w, ticks) == D.Run(r, w, ActionsOf(ticks))
  {
    hide Step, AllApplied, D.Act;
    if ticks != [] {
      var n := |ticks| - 1;
      LiveIsARun(r, w, ticks[..n]);
      var before, changes, tick := ActionsOf(ticks[..n]), ChangesOf(ticks[n].events), [D.Tick(ticks[n].inputs)];
      ChangesAreActions(r, Live(r, w, ticks[..n]), ticks[n].events);
      assert ActionsOf(ticks) == before + changes + tick;
      D.RunSplits(r, w, before, changes);
      D.RunSplits(r, w, before + changes, tick);
      OneAction(r, D.Run(r, w, before + changes), tick);
      D.TickIsStep(r, D.Run(r, w, before + changes), tick[0]);
    }
  }

  /** The room closes as soon as the match ends, so every tick found it running. */
  ghost predicate Played(r: Rules, w: State, ticks: seq<TickIn>) {
    !w.ended && forall i :: 0 <= i < |ticks| ==> !Live(r, w, ticks[..i]).ended
  }

  function FrameOf(tick: nat, t: TickIn): seq<Frame> {
    if t.inputs == map[] && t.events == [] then [] else [Frame(tick, t.inputs, t.events)]
  }

  function FramesOf(ticks: seq<TickIn>): seq<Frame> {
    if ticks == [] then [] else FramesOf(ticks[..|ticks| - 1]) + FrameOf(|ticks|, ticks[|ticks| - 1])
  }

  /** What the recorder ends with: the frames of the ticks played, and the world as it was when it was closed. */
  function Recorded(h: Header, streams: Streams, ticks: seq<TickIn>, trailing: seq<RosterEvent>, digest: State -> nat): Recording {
    var last := Live(RulesOf(h, streams), StartOf(h), ticks);
    Recording(FORMAT, h, FramesOf(ticks), last.tick, digest(AllApplied(last, trailing)))
  }

  /** The room's loop with a recorder beside it: roster changes to both, then the step, then the frame. */
  method PlayAndRecord(h: Header, streams: Streams, ticks: seq<TickIn>, trailing: seq<RosterEvent>, digest: State -> nat)
    returns (file: seq<byte>)
    requires Played(RulesOf(h, streams), StartOf(h), ticks)
    ensures file == Written(Recorded(h, streams, ticks, trailing, digest))
  {
    hide Step, Written, HeaderBytes, FramesBytes;
    assert StartOf(h).tick == 0;
    hide Opening;
    var world := new W.World(h.tickRate, h.matchTicks, streams(h.seed), Players(h.roster));
    var rec := new Recorder(h);
    ghost var start := StartOf(h);
    for i := 0 to |ticks|
      invariant rec.Valid() && rec.pending == [] && rec.frames == FramesOf(ticks[..i])
      invariant world.w == Live(world.rules, start, ticks[..i])
    {
      assert ticks[..i + 1][..i] == ticks[..i];
      ShorterPlayed(world.rules, start, ticks, i + 1);
      TicksCount(world.rules, start, ticks[..i + 1]);
      Drain(world, rec, ticks[i].events);
      world.Step(ticks[i].inputs);
      assert world.w == Live(world.rules, start, ticks[..i + 1]);
      rec.Record(world.w.tick, ticks[i].inputs);
    }
    assert ticks[..|ticks|] == ticks;
    var finalTick := world.w.tick;
    Drain(world, rec, trailing);
    rec.Close(finalTick, digest(world.w));
    file := rec.buf;
  }

  lemma ShorterPlayed(r: Rules, w: State, ticks: seq<TickIn>, k: nat)
    requires k <= |ticks| && Played(r, w, ticks)
    ensures Played(r, w, ticks[..k])
  {
    hide Live;
    forall i | 0 <= i < k
      ensures !Live(r, w, ticks[..k][..i]).ended
    {
      assert ticks[..k][..i] == ticks[..i];
    }
  }

  method Drain(world: W.World, rec: Recorder, events: seq<RosterEvent>)
    requires rec.Valid() && rec.pending == []
    modifies world, rec`pending
    ensures world.w == AllApplied(old(world.w), events) && rec.Valid() && rec.pending == events
  {
    hide HeaderBytes, FramesBytes, Arena.Depart, Arena.Rejoin;
    for i := 0 to |events|
      invariant rec.Valid() && rec.pending == events[..i] && world.w == AllApplied(old(world.w), events[..i])
    {
      assert events[..i + 1] == events[..i] + [events[i]];
      match events[i].kind {
        case Depart => world.Leave(events[i].id);
        case Rejoin => world.ComeBack(events[i].id);
        case Unknown(_) =>
      }
      rec.Event(events[i]);
    }
    assert events[..|events|] == events;
  }

  lemma {:induction false} EventsLeaveTheClock(w: State, es: seq<RosterEvent>)
    ensures AllApplied(w, es).tick == w.tick && AllApplied(w, es).ended == w.ended
  {
    if es != [] {
      EventsLeaveTheClock(w, es[..|es| - 1]);
    }
  }

  /** The world's clock counts the ticks played, and never runs past the match's length. */
  lemma {:induction false} TicksCount(r: Rules, w: State, ticks: seq<TickIn>)
    requires forall i :: 0 <= i < |ticks| ==> !Live(r, w, ticks[..i]).ended
    requires !w.ended
    ensures Live(r, w, ticks).tick == w.tick + |ticks|
    ensures ticks != [] ==> (Live(r, w, ticks).ended <==>
      w.tick + |ticks| >= r.matchTicks || Abandoned(Live(r, w, ticks).players))
  {
    hide Step, Abandoned;
    if ticks != [] {
      var n := |ticks| - 1;
      var before := Live(r, w, ticks[..n]);
      forall i | 0 <= i < n
        ensures !Live(r, w, ticks[..n][..i]).ended
      {
        assert ticks[..n][..i] == ticks[..i];
      }
      TicksCount(r, w, ticks[..n]);
      EventsLeaveTheClock(before, ticks[n].events);
      D.StepEndsExactly(r, AllApplied(before, ticks[n].events), ticks[n].inputs);
    }
  }

  // ---- verifying ----

  function FinalTick(rec: Recording): nat {
    var limit := if 0 < rec.header.matchTicks < MAX_REPLAY_TICKS then rec.header.matchTicks else MAX_REPLAY_TICKS;
    if rec.finalTick > limit then limit else rec.finalTick
  }

  /** The world after `n` ticks of the recording, and how many of its frames they used. */
  function Replayed(r: Rules, w: State, frames: seq<Frame>, n: nat): (State, nat) {
    if n == 0 then (w, 0)
    else
      var (before, next) := Replayed(r, w, frames, n - 1);
      if next < |frames| && frames[next].tick == n then
        (Step(r, AllApplied(before, frames[next].events), frames[next].inputs), next + 1)
      else (Step(r, before, map[]), next)
  }

  method Verify(rec: Recording, streams: Streams, digest: State -> nat) returns (checksum: nat, ok: bool)
    ensures checksum == digest(Replayed(RulesOf(rec.header, streams), StartOf(rec.header), rec.frames, FinalTick(rec)).0)
    ensures ok <==> checksum == rec.checksum
  {
    hide Step, Arena.Depart, Arena.Rejoin, Opening;
    var world := new W.World(rec.header.tickRate, rec.header.matchTicks, streams(rec.header.seed), Players(rec.header.roster));
    ghost var start := StartOf(rec.header);
    var next := 0;
    for done := 0 to FinalTick(rec)
      invariant (world.w, next) == Replayed(world.rules, start, rec.frames, done)
    {
      var inputs: Inputs := map[];
      ghost var before := world.w;
      if next < |rec.frames| && rec.frames[next].tick == done + 1 {
        var f := rec.frames[next];
        inputs := f.inputs;
        for k := 0 to |f.events|
          invariant world.w == AllApplied(before, f.events[..k])
        {
          assert f.events[..k + 1][..k] == f.events[..k];
          match f.events[k].kind {
            case Depart => world.Leave(f.events[k].id);
            case Rejoin => world.ComeBack(f.events[k].id);
            case Unknown(_) =>
          }
        }
        assert f.events[..|f.events|] == f.events;
        next := next + 1;
      }
      world.Step(inputs);
    }
    checksum := digest(world.w);
    ok := checksum == rec.checksum;
  }

  /** The frames of a longer match begin with those of a shorter one; the rest are for later ticks. */
  lemma {:induction false} FramesInOrder(ticks: seq<TickIn>, k: nat)
    requires k <= |ticks|
    ensures FramesOf(ticks[..k]) <= FramesOf(ticks)
    ensures forall i :: |FramesOf(ticks[..k])| <= i < |FramesOf(ticks)| ==> FramesOf(ticks)[i].tick > k
    decreases |ticks|
  {
    hide FrameOf;
    if k < |ticks| {
      var n := |ticks| - 1;
      FramesInOrder(ticks[..n], k);
      assert ticks[..n][..k] == ticks[..k];
      FrameTick(|ticks|, ticks[n]);
    } else {
      assert ticks[..k] == ticks;
    }
  }

  lemma FrameTick(tick: nat, t: TickIn)
    ensures forall i :: 0 <= i < |FrameOf(tick, t)| ==> FrameOf(tick, t)[i].tick == tick
    ensures t.inputs == map[] && t.events == [] <==> FrameOf(tick, t) == []
    ensures FrameOf(tick, t) != [] ==> FrameOf(tick, t) == [Frame(tick, t.inputs, t.events)]
  {
  }

  /** Tick for tick, the replay is the match. Ticks that were not written are ticks in which nothing happened. */
  lemma {:induction false} ReplayIsTheMatch(r: Rules, w: State, ticks: seq<TickIn>, k: nat)
    requires k <= |ticks|
    ensures Replayed(r, w, FramesOf(ticks), k) == (Live(r, w, ticks[..k]), |FramesOf(ticks[..k])|)
  {
    hide Step, FrameOf;
    if k > 0 {
      ReplayIsTheMatch(r, w, ticks, k - 1);
      FramesInOrder(ticks, k - 1);
      FramesInOrder(ticks, k);
      var t := ticks[k - 1];
      assert ticks[..k][..k - 1] == ticks[..k - 1];
      FrameTick(k, t);
      var fs, next := FramesOf(ticks), |FramesOf(ticks[..k - 1])|;
      assert FramesOf(ticks[..k]) == FramesOf(ticks[..k - 1]) + FrameOf(k, t);
      if FrameOf(k, t) == [] {
        assert AllApplied(Live(r, w, ticks[..k - 1]), []) == Live(r, w, ticks[..k - 1]);
        assert next < |fs| ==> fs[next].tick > k;
      } else {
        assert fs[next] == FramesOf(ticks[..k])[next];
      }
    } else {
      assert ticks[..k] == [];
    }
  }

  /**
   Recording a match, reading the bytes back and verifying reaches the world that was played. The checksum agrees
   exactly when the roster changes that came in after the last tick leave no mark on it.
   */
  lemma RecordingVerifies(h: Header, streams: Streams, ticks: seq<TickIn>, trailing: seq<RosterEvent>, digest: State -> nat)
    requires Played(RulesOf(h, streams), StartOf(h), ticks) && |ticks| <= MAX_REPLAY_TICKS
    requires FitsFormat(Recorded(h, streams, ticks, trailing, digest))
    ensures var rec, live := Recorded(h, streams, ticks, trailing, digest), Live(RulesOf(h, streams), StartOf(h), ticks);
      && Read(Written(rec)) == Some(rec)
      && Replayed(RulesOf(h, streams), StartOf(h), rec.frames, FinalTick(rec)).0 == live
      && (digest(live) == rec.checksum <==> digest(live) == digest(AllApplied(live, trailing)))
      && (trailing == [] ==> digest(live) == rec.checksum)
  {
    hide Step, Written, FitsFormat, Read;
    var rec := Recorded(h, streams, ticks, trailing, digest);
    ReadUndoesWrite(rec);
    MatchesAreShort(h, streams, ticks);
    ReplayIsTheMatch(RulesOf(h, streams), StartOf(h), ticks, |ticks|);
    assert ticks[..|ticks|] == ticks;
  }

  /** The clamp on the final tick never cuts a match of less than a day short. */
  lemma MatchesAreShort(h: Header, streams: Streams, ticks: seq<TickIn>)
    requires Played(RulesOf(h, streams), StartOf(h), ticks)
    ensures Live(RulesOf(h, streams), StartOf(h), ticks).tick == |ticks|
    ensures h.matchTicks > 0 ==> |ticks| <= h.matchTicks
  {
    hide Step, Abandoned;
    var r, w := RulesOf(h, streams), StartOf(h);
    TicksCount(r, w, ticks);
    if |ticks| > 1 {
      var n := |ticks| - 1;
      ShorterPlayed(r, w, ticks, n);
      TicksCount(r, w, ticks[..n]);
    }
  }
}
