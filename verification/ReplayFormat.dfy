/**
 The recording's bytes. The writer's side is a function from recordings to bytes; the reader's is a cursor whose
 first short read sticks, as the parser's error does. Reading what was written gives the recording back.
 */
module ReplayFormat {
  import opened Wrappers
  import opened Keyed
  import opened SimTypes

  newtype byte = x: int | 0 <= x < 256

  const MAGIC: seq<byte> := [65, 82, 78, 82]
  const FORMAT: nat := 2
  const MIN_FORMAT: nat := 1
  const END_MARKER: nat := 0xFFFF_FFFF

  datatype Roster = Depart | Rejoin | Unknown(code: nat)

  datatype RosterEvent = RosterEvent(id: nat, kind: Roster)

  datatype Seat = Seat(id: nat, bot: bool)

  datatype Header = Header(tickRate: nat, matchTicks: nat, seed: int, roster: seq<Seat>)

  datatype Frame = Frame(tick: nat, inputs: map<nat, Input>, events: seq<RosterEvent>)

  datatype Recording = Recording(version: nat, header: Header, frames: seq<Frame>, finalTick: nat, checksum: nat)

  // ---- numbers ----

  function Limit(width: nat): (n: nat)
    ensures n > 0
  {
    if width == 0 then 1 else 256 * Limit(width - 1)
  }

  lemma Limits()
    ensures Limit(1) == 0x100 && Limit(2) == 0x1_0000 && Limit(4) == 0x1_0000_0000 && Limit(8) == 0x1_0000_0000_0000_0000
  {
    assert Limit(1) == 0x100;
    assert Limit(2) == 0x1_0000;
    assert Limit(3) == 0x100_0000;
    assert Limit(4) == 0x1_0000_0000;
    assert Limit(5) == 0x100_0000_0000;
    assert Limit(6) == 0x1_0000_0000_0000;
    assert Limit(7) == 0x100_0000_0000_0000;
  }

  /** The low `width` bytes of a number, most significant first. */
  function Bytes(n: nat, width: nat): (b: seq<byte>)
    ensures |b| == width
  {
    if width == 0 then [] else Bytes(n / 256, width - 1) + [(n % 256) as byte]
  }

  function Number(b: seq<byte>): nat {
    if b == [] then 0 else 256 * Number(b[..|b| - 1]) + b[|b| - 1] as nat
  }

  lemma {:induction false} NumberOfBytes(n: nat, width: nat)
    requires n < Limit(width)
    ensures Number(Bytes(n, width)) == n
  {
    if width > 0 {
      assert n == 256 * (n / 256) + n % 256;
      NumberOfBytes(n / 256, width - 1);
      var b := Bytes(n, width);
      assert b[..|b| - 1] == Bytes(n / 256, width - 1);
    }
  }

  /** The most significant byte comes first: it alone tells the number to within what the others can hold. */
  lemma {:induction false} FirstByteIsTheMostSignificant(n: nat, width: nat)
    requires width > 0 && n < Limit(width)
    ensures var first := Bytes(n, width)[0] as nat; first * Limit(width - 1) <= n < (first + 1) * Limit(width - 1)
  {
    if width > 1 {
      FirstByteIsTheMostSignificant(n / 256, width - 1);
      assert Bytes(n, width)[0] == Bytes(n / 256, width - 1)[0];
      OneByteFurther(n / 256, n % 256, Bytes(n, width)[0] as nat, Limit(width - 2));
    }
  }

  lemma OneByteFurther(q: nat, m: nat, first: nat, limit: nat)
    requires m < 256 && first * limit <= q < (first + 1) * limit
    ensures first * (256 * limit) <= 256 * q + m < (first + 1) * (256 * limit)
  {
    assert first * (256 * limit) == 256 * (first * limit);
    assert (first + 1) * (256 * limit) == 256 * ((first + 1) * limit);
  }

  /** Two's complement, out and back. */
  function Unsigned(v: int, width: nat): nat {
    v % Limit(width)
  }

  function Signed(n: nat, width: nat): int {
    if 2 * n < Limit(width) then n else n - Limit(width)
  }

  predicate FitsSigned(v: int, width: nat) {
    0 - Limit(width) <= 2 * v < Limit(width)
  }

  lemma SignedOfUnsigned(v: int, width: nat)
    requires FitsSigned(v, width)
    ensures Signed(Unsigned(v, width), width) == v && Unsigned(v, width) < Limit(width)
  {
    Residue(v, Limit(width));
  }

  lemma Residue(v: int, l: nat)
    requires l > 0 && -(l as int) <= 2 * v < l
    ensures v % l == if v < 0 then v + l else v
  {
    if v < 0 {
      assert (v + l) % l == v % l;
    }
  }

  function Flag(b: bool): nat {
    if b then 1 else 0
  }

  function Code(k: Roster): nat {
    match k case Depart => 1 case Rejoin => 2 case Unknown(n) => n
  }

  function KindOf(n: nat): Roster {
    if n == 1 then Depart else if n == 2 then Rejoin else Unknown(n)
  }

  // ---- writing ----

  function SeatBytes(s: Seat): seq<byte> {
    Bytes(s.id, 4) + Bytes(Flag(s.bot), 1)
  }

  function SeatsBytes(s: seq<Seat>): seq<byte> {
    if s == [] then [] else SeatBytes(s[0]) + SeatsBytes(s[1..])
  }

  function HeaderBytes(h: Header): seq<byte> {
    MAGIC + Bytes(FORMAT, 2) + Bytes(h.tickRate, 2) + Bytes(h.matchTicks, 4) + Bytes(Unsigned(h.seed, 8), 8)
    + Bytes(|h.roster|, 2) + SeatsBytes(h.roster)
  }

  function InputBytes(e: Entity<Input>): seq<byte> {
    Bytes(e.id, 4) + Bytes(Unsigned(e.v.mx, 1), 1) + Bytes(Unsigned(e.v.my, 1), 1) + Bytes(Flag(e.v.fire), 1)
    + Bytes(Unsigned(e.v.aim, 2), 2) + Bytes(e.v.inputSeq, 4) + Bytes(e.v.lagTicks, 1)
  }

  function InputsBytes(s: seq<Entity<Input>>): seq<byte> {
    if s == [] then [] else InputBytes(s[0]) + InputsBytes(s[1..])
  }

  function EventBytes(e: RosterEvent): seq<byte> {
    Bytes(e.id, 4) + Bytes(Code(e.kind), 1)
  }

  function EventsBytes(s: seq<RosterEvent>): seq<byte> {
    if s == [] then [] else EventBytes(s[0]) + EventsBytes(s[1..])
  }

  /** Inputs go out in id order, whatever order the map is walked in. */
  ghost function FrameBytes(f: Frame): seq<byte> {
    var inputs := Ascend(f.inputs);
    Bytes(f.tick, 4) + Bytes(|inputs|, 2) + InputsBytes(inputs) + Bytes(|f.events|, 2) + EventsBytes(f.events)
  }

  ghost function FramesBytes(fs: seq<Frame>): seq<byte> {
    if fs == [] then [] else FrameBytes(fs[0]) + FramesBytes(fs[1..])
  }

  function EndBytes(finalTick: nat, checksum: nat): seq<byte> {
    Bytes(END_MARKER, 4) + Bytes(finalTick, 4) + Bytes(checksum, 8)
  }

  ghost function Written(rec: Recording): seq<byte> {
    HeaderBytes(rec.header) + FramesBytes(rec.frames) + EndBytes(rec.finalTick, rec.checksum)
  }

  // ---- reading ----

  datatype Cursor = Cursor(rest: seq<byte>, err: bool)

  function Take(c: Cursor, n: nat): (r: (seq<byte>, Cursor))
    ensures |r.1.rest| <= |c.rest| && (c.err ==> r.1.err)
    ensures !r.1.err ==> |r.1.rest| + n == |c.rest|
  {
    if c.err then ([], c)
    else if |c.rest| < n then ([], Cursor([], true))
    else (c.rest[..n], Cursor(c.rest[n..], false))
  }

  function Num(c: Cursor, width: nat): (r: (nat, Cursor))
    ensures |r.1.rest| <= |c.rest| && (c.err ==> r.1.err)
    ensures !r.1.err ==> |r.1.rest| + width == |c.rest|
  {
    var (b, d) := Take(c, width);
    (Number(b), d)
  }

  function ReadSeats(c: Cursor, n: nat, acc: seq<Seat>): (seq<Seat>, Cursor)
    decreases n
  {
    if n == 0 || c.err then (acc, c)
    else
      var (id, c1) := Num(c, 4);
      var (bot, c2) := Num(c1, 1);
      ReadSeats(c2, n - 1, acc + [Seat(id, bot == 1)])
  }

  function ReadInput(c: Cursor): (Entity<Input>, Cursor) {
    var (id, c1) := Num(c, 4);
    var (mx, c2) := Num(c1, 1);
    var (my, c3) := Num(c2, 1);
    var (fire, c4) := Num(c3, 1);
    var (aim, c5) := Num(c4, 2);
    var (number, c6) := Num(c5, 4);
    var (lag, c7) := Num(c6, 1);
    (Entity(id, Input(Signed(mx, 1), Signed(my, 1), fire == 1, Signed(aim, 2), number, lag)), c7)
  }

  function ReadInputs(c: Cursor, n: nat, acc: map<nat, Input>): (r: (map<nat, Input>, Cursor))
    ensures |r.1.rest| <= |c.rest| && (c.err ==> r.1.err)
    decreases n
  {
    if n == 0 || c.err then (acc, c)
    else
      var (e, d) := ReadInput(c);
      ReadInputs(d, n - 1, acc[e.id := e.v])
  }

  function ReadEvents(c: Cursor, n: nat, acc: seq<RosterEvent>): (r: (seq<RosterEvent>, Cursor))
    ensures |r.1.rest| <= |c.rest| && (c.err ==> r.1.err)
    decreases n
  {
    if n == 0 || c.err then (acc, c)
    else
      var (id, c1) := Num(c, 4);
      var (kind, c2) := Num(c1, 1);
      ReadEvents(c2, n - 1, acc + [RosterEvent(id, KindOf(kind))])
  }

  /** A frame after its tick. Frames of the first format end with their inputs. */
  function ReadFrame(c: Cursor, version: nat, tick: nat): (r: (Frame, Cursor))
    ensures |r.1.rest| <= |c.rest| && (c.err ==> r.1.err)
  {
    var (count, c1) := Num(c, 2);
    var (inputs, c2) := ReadInputs(c1, count, map[]);
    if version < 2 then (Frame(tick, inputs, []), c2)
    else
      var (n, c3) := Num(c2, 2);
      var (events, c4) := ReadEvents(c3, n, []);
      (Frame(tick, inputs, events), c4)
  }

  datatype Body = Body(frames: seq<Frame>, finalTick: nat, checksum: nat)

  /** Frame after frame until the marker, or until the bytes run out. */
  function ReadBody(c: Cursor, version: nat, acc: seq<Frame>): (Body, Cursor)
    decreases |c.rest|, !c.err
  {
    if c.err then (Body(acc, 0, 0), c)
    else
      var (tick, c1) := Num(c, 4);
      if tick == END_MARKER then
        var (finalTick, c2) := Num(c1, 4);
        var (checksum, c3) := Num(c2, 8);
        (Body(acc, finalTick, checksum), c3)
      else
        var (f, c2) := ReadFrame(c1, version, tick);
        ReadBody(c2, version, acc + [f])
  }

  function Read(src: seq<byte>): Option<Recording> {
    var (magic, c0) := Take(Cursor(src, false), 4);
    if c0.err || magic != MAGIC then None
    else
      var (version, c1) := Num(c0, 2);
      if version < MIN_FORMAT || version > FORMAT then None
      else
        var (tickRate, c2) := Num(c1, 2);
        var (matchTicks, c3) := Num(c2, 4);
        var (seed, c4) := Num(c3, 8);
        var (n, c5) := Num(c4, 2);
        var (roster, c6) := ReadSeats(c5, n, []);
        var (body, c7) := ReadBody(c6, version, []);
        if c7.err then None
        else Some(Recording(version, Header(tickRate, matchTicks, Signed(seed, 8), roster), body.frames, body.finalTick, body.checksum))
  }

  // ---- what fits the format ----

  predicate InputFits(inp: Input) {
    && FitsSigned(inp.mx, 1) && FitsSigned(inp.my, 1) && FitsSigned(inp.aim, 2) && inp.inputSeq < Limit(4) && inp.lagTicks < Limit(1)
  }

  ghost predicate FrameFits(f: Frame) {
    && f.tick < END_MARKER && |f.inputs| < Limit(2) && |f.events| < Limit(2)
    && (forall id :: id in f.inputs ==> id < Limit(4) && InputFits(f.inputs[id]))
    && (forall i :: 0 <= i < |f.events| ==> f.events[i].id < Limit(4) && f.events[i].kind == KindOf(Code(f.events[i].kind)) && Code(f.events[i].kind) < Limit(1))
  }

  predicate HeaderFits(h: Header) {
    && h.tickRate < Limit(2) && h.matchTicks < Limit(4) && FitsSigned(h.seed, 8) && |h.roster| < Limit(2)
    && forall i :: 0 <= i < |h.roster| ==> h.roster[i].id < Limit(4)
  }

  ghost predicate FitsFormat(rec: Recording) {
    && rec.version == FORMAT && HeaderFits(rec.header) && rec.finalTick < Limit(4) && rec.checksum < Limit(8)
    && forall i :: 0 <= i < |rec.frames| ==> FrameFits(rec.frames[i])
  }

  // ---- reading undoes writing ----

  lemma Regroup(a: seq<byte>, b: seq<byte>, c: seq<byte>)
    ensures (a + b) + c == a + (b + c)
  {
  }

  lemma NumReads(n: nat, width: nat, tail: seq<byte>)
    requires n < Limit(width)
    ensures Num(Cursor(Bytes(n, width) + tail, false), width) == (n, Cursor(tail, false))
  {
    NumberOfBytes(n, width);
    assert (Bytes(n, width) + tail)[..width] == Bytes(n, width);
    assert (Bytes(n, width) + tail)[width..] == tail;
  }

  lemma FlagFits(b: bool)
    ensures Flag(b) < Limit(1) && (Flag(b) == 1 <==> b)
  {
    Limits();
  }

  lemma {:induction false} SeatsRead(s: seq<Seat>, acc: seq<Seat>, tail: seq<byte>)
    requires forall i :: 0 <= i < |s| ==> s[i].id < Limit(4)
    ensures ReadSeats(Cursor(SeatsBytes(s) + tail, false), |s|, acc) == (acc + s, Cursor(tail, false))
    decreases |s|
  {
    hide Num, Limit, Bytes;
    if s == [] {
      assert SeatsBytes(s) + tail == tail;
      assert acc + s == acc;
    } else {
      var more := SeatsBytes(s[1..]) + tail;
      assert SeatsBytes(s) + tail == Bytes(s[0].id, 4) + (Bytes(Flag(s[0].bot), 1) + more);
      NumReads(s[0].id, 4, Bytes(Flag(s[0].bot), 1) + more);
      FlagFits(s[0].bot);
      NumReads(Flag(s[0].bot), 1, more);
      SeatsRead(s[1..], acc + [s[0]], tail);
      assert acc + [s[0]] + s[1..] == acc + s;
    }
  }

  lemma InputReads(e: Entity<Input>, tail: seq<byte>)
    requires e.id < Limit(4) && InputFits(e.v)
    ensures ReadInput(Cursor(InputBytes(e) + tail, false)) == (e, Cursor(tail, false))
  {
    hide Num, Limit, Bytes, Signed, Unsigned, Flag, FitsSigned;
    SignedOfUnsigned(e.v.mx, 1);
    SignedOfUnsigned(e.v.my, 1);
    SignedOfUnsigned(e.v.aim, 2);
    FlagFits(e.v.fire);
    var b7 := Bytes(e.v.lagTicks, 1) + tail;
    var b6 := Bytes(e.v.inputSeq, 4) + b7;
    var b5 := Bytes(Unsigned(e.v.aim, 2), 2) + b6;
    var b4 := Bytes(Flag(e.v.fire), 1) + b5;
    var b3 := Bytes(Unsigned(e.v.my, 1), 1) + b4;
    var b2 := Bytes(Unsigned(e.v.mx, 1), 1) + b3;
    assert InputBytes(e) + tail == Bytes(e.id, 4) + b2;
    NumReads(e.id, 4, b2);
    NumReads(Unsigned(e.v.mx, 1), 1, b3);
    NumReads(Unsigned(e.v.my, 1), 1, b4);
    NumReads(Flag(e.v.fire), 1, b5);
    NumReads(Unsigned(e.v.aim, 2), 2, b6);
    NumReads(e.v.inputSeq, 4, b7);
    NumReads(e.v.lagTicks, 1, tail);
  }

  function Merged(acc: map<nat, Input>, s: seq<Entity<Input>>): map<nat, Input>
    decreases |s|
  {
    if s == [] then acc else Merged(acc[s[0].id := s[0].v], s[1..])
  }

  lemma {:induction false} InputsRead(s: seq<Entity<Input>>, acc: map<nat, Input>, tail: seq<byte>)
    requires forall i :: 0 <= i < |s| ==> s[i].id < Limit(4) && InputFits(s[i].v)
    ensures ReadInputs(Cursor(InputsBytes(s) + tail, false), |s|, acc) == (Merged(acc, s), Cursor(tail, false))
    decreases |s|
  {
    hide ReadInput, InputBytes, Limit, InputFits;
    if s == [] {
      assert InputsBytes(s) + tail == tail;
    } else {
      assert InputsBytes(s) + tail == InputBytes(s[0]) + (InputsBytes(s[1..]) + tail);
      InputReads(s[0], InputsBytes(s[1..]) + tail);
      InputsRead(s[1..], acc[s[0].id := s[0].v], tail);
    }
  }

  lemma {:induction false} MergedSnoc(acc: map<nat, Input>, s: seq<Entity<Input>>, e: Entity<Input>)
    ensures Merged(acc, s + [e]) == Merged(acc, s)[e.id := e.v]
    decreases |s|
  {
    if s == [] {
      assert s + [e] == [e];
    } else {
      assert (s + [e])[1..] == s[1..] + [e];
      MergedSnoc(acc[s[0].id := s[0].v], s[1..], e);
    }
  }

  lemma {:induction false} MergedDenotes(s: seq<Entity<Input>>)
    ensures Merged(map[], s) == ById(s)
  {
    if s != [] {
      var p, e := s[..|s| - 1], s[|s| - 1];
      assert s == p + [e];
      MergedDenotes(p);
      MergedSnoc(map[], p, e);
    }
  }

  lemma {:induction false} EventsRead(s: seq<RosterEvent>, acc: seq<RosterEvent>, tail: seq<byte>)
    requires forall i :: 0 <= i < |s| ==> s[i].id < Limit(4) && s[i].kind == KindOf(Code(s[i].kind)) && Code(s[i].kind) < Limit(1)
    ensures ReadEvents(Cursor(EventsBytes(s) + tail, false), |s|, acc) == (acc + s, Cursor(tail, false))
    decreases |s|
  {
    hide Num, Limit, Bytes, Code, KindOf;
    if s == [] {
      assert EventsBytes(s) + tail == tail;
      assert acc + s == acc;
    } else {
      var more := EventsBytes(s[1..]) + tail;
      assert EventsBytes(s) + tail == Bytes(s[0].id, 4) + (Bytes(Code(s[0].kind), 1) + more);
      NumReads(s[0].id, 4, Bytes(Code(s[0].kind), 1) + more);
      NumReads(Code(s[0].kind), 1, more);
      EventsRead(s[1..], acc + [s[0]], tail);
      assert acc + [s[0]] + s[1..] == acc + s;
    }
  }

  lemma {:induction false} AscendLength(m: map<nat, Input>)
    ensures |Ascend(m)| == |m|
    decreases |m|
  {
    if m != map[] {
      var k := Largest(m);
      WithoutIsSmaller(m, k);
      AscendLength(m - {k});
      assert (m - {k}).Keys == m.Keys - {k};
      assert |m| == |m.Keys| && |m - {k}| == |(m - {k}).Keys|;
    }
  }

  lemma FrameInParts(f: Frame, tail: seq<byte>)
    ensures var s := Ascend(f.inputs);
      FrameBytes(f) + tail
      == Bytes(f.tick, 4) + (Bytes(|s|, 2) + (InputsBytes(s) + (Bytes(|f.events|, 2) + (EventsBytes(f.events) + tail))))
  {
    hide Bytes, InputsBytes, EventsBytes, Ascend;
    var s := Ascend(f.inputs);
    var tick, count, inputs, n, events := Bytes(f.tick, 4), Bytes(|s|, 2), InputsBytes(s), Bytes(|f.events|, 2), EventsBytes(f.events);
    Regroup(tick + count + inputs + n, events, tail);
    Regroup(tick + count + inputs, n, events + tail);
    Regroup(tick + count, inputs, n + (events + tail));
    Regroup(tick, count, inputs + (n + (events + tail)));
  }

  lemma FrameReads(f: Frame, tail: seq<byte>)
    requires FrameFits(f)
    ensures var c := Num(Cursor(FrameBytes(f) + tail, false), 4);
      c.0 == f.tick && !c.1.err && ReadFrame(c.1, FORMAT, f.tick) == (f, Cursor(tail, false))
  {
    var s := Ascend(f.inputs);
    AscendDenotes(f.inputs);
    AscendLength(f.inputs);
    Limits();
    forall i | 0 <= i < |s|
      ensures s[i].id < Limit(4) && InputFits(s[i].v)
    {
      ByIdAt(s, i);
    }
    hide Num, Bytes, Limit, ReadInputs, ReadEvents, InputFits, Ascend, KindOf, InputsBytes, EventsBytes;
    var b3 := EventsBytes(f.events) + tail;
    var b2 := Bytes(|f.events|, 2) + b3;
    var b1 := InputsBytes(s) + b2;
    FrameInParts(f, tail);
    hide FrameBytes;
    NumReads(f.tick, 4, Bytes(|s|, 2) + b1);
    NumReads(|s|, 2, b1);
    InputsRead(s, map[], b2);
    MergedDenotes(s);
    NumReads(|f.events|, 2, b3);
    EventsRead(f.events, [], tail);
    assert [] + f.events == f.events;
  }

  lemma {:induction false} BodyReads(fs: seq<Frame>, acc: seq<Frame>, finalTick: nat, checksum: nat)
    requires (forall i :: 0 <= i < |fs| ==> FrameFits(fs[i])) && finalTick < Limit(4) && checksum < Limit(8)
    ensures ReadBody(Cursor(FramesBytes(fs) + EndBytes(finalTick, checksum), false), FORMAT, acc)
         == (Body(acc + fs, finalTick, checksum), Cursor([], false))
    decreases |fs|
  {
    hide Num, Limit, ReadFrame, FrameBytes, EndBytes;
    if fs == [] {
      EndReads(finalTick, checksum, acc);
      assert FramesBytes(fs) + EndBytes(finalTick, checksum) == EndBytes(finalTick, checksum);
      assert acc + fs == acc;
    } else {
      var more := FramesBytes(fs[1..]) + EndBytes(finalTick, checksum);
      assert FramesBytes(fs) + EndBytes(finalTick, checksum) == FrameBytes(fs[0]) + more;
      FrameReads(fs[0], more);
      BodyReads(fs[1..], acc + [fs[0]], finalTick, checksum);
      assert acc + [fs[0]] + fs[1..] == acc + fs;
    }
  }

  lemma EndReads(finalTick: nat, checksum: nat, acc: seq<Frame>)
    requires finalTick < Limit(4) && checksum < Limit(8)
    ensures ReadBody(Cursor(EndBytes(finalTick, checksum), false), FORMAT, acc) == (Body(acc, finalTick, checksum), Cursor([], false))
  {
    Limits();
    hide Num, Bytes, Limit, ReadFrame;
    assert EndBytes(finalTick, checksum) == Bytes(END_MARKER, 4) + (Bytes(finalTick, 4) + (Bytes(checksum, 8) + []));
    NumReads(END_MARKER, 4, Bytes(finalTick, 4) + (Bytes(checksum, 8) + []));
    NumReads(finalTick, 4, Bytes(checksum, 8) + []);
    NumReads(checksum, 8, []);
  }

  /** Reading a recording's bytes gives the recording back: header, signed fields, skipped ticks, order and all. */
  lemma ReadUndoesWrite(rec: Recording)
    requires FitsFormat(rec)
    ensures Read(Written(rec)) == Some(rec)
  {
    var h := rec.header;
    var body := FramesBytes(rec.frames) + EndBytes(rec.finalTick, rec.checksum);
    Limits();
    SignedOfUnsigned(h.seed, 8);
    BodyReads(rec.frames, [], rec.finalTick, rec.checksum);
    SeatsRead(h.roster, [], body);
    hide Num, Bytes, Limit, ReadBody, ReadSeats, FramesBytes, EndBytes, SeatsBytes, Signed, Unsigned;
    var b5 := SeatsBytes(h.roster) + body;
    var b4 := Bytes(|h.roster|, 2) + b5;
    var b3 := Bytes(Unsigned(h.seed, 8), 8) + b4;
    var b2 := Bytes(h.matchTicks, 4) + b3;
    var b1 := Bytes(h.tickRate, 2) + b2;
    var b0 := Bytes(FORMAT, 2) + b1;
    HeaderInParts(h, body);
    Regroup(HeaderBytes(h), FramesBytes(rec.frames), EndBytes(rec.finalTick, rec.checksum));
    assert Take(Cursor(MAGIC + b0, false), 4) == (MAGIC, Cursor(b0, false)) by {
      assert (MAGIC + b0)[..4] == MAGIC && (MAGIC + b0)[4..] == b0;
    }
    hide HeaderBytes, Take;
    NumReads(FORMAT, 2, b1);
    NumReads(h.tickRate, 2, b2);
    NumReads(h.matchTicks, 4, b3);
    NumReads(Unsigned(h.seed, 8), 8, b4);
    NumReads(|h.roster|, 2, b5);
    assert [] + h.roster == h.roster && [] + rec.frames == rec.frames;
  }

  lemma HeaderInParts(h: Header, tail: seq<byte>)
    ensures HeaderBytes(h) + tail
         == MAGIC + (Bytes(FORMAT, 2) + (Bytes(h.tickRate, 2) + (Bytes(h.matchTicks, 4)
                  + (Bytes(Unsigned(h.seed, 8), 8) + (Bytes(|h.roster|, 2) + (SeatsBytes(h.roster) + tail))))))
  {
    hide Bytes, SeatsBytes, Unsigned;
    var format, rate, ticks, seed, n, seats :=
      Bytes(FORMAT, 2), Bytes(h.tickRate, 2), Bytes(h.matchTicks, 4), Bytes(Unsigned(h.seed, 8), 8), Bytes(|h.roster|, 2), SeatsBytes(h.roster);
    Regroup(MAGIC + format + rate + ticks + seed + n, seats, tail);
    Regroup(MAGIC + format + rate + ticks + seed, n, seats + tail);
    Regroup(MAGIC + format + rate + ticks, seed, n + (seats + tail));
    Regroup(MAGIC + format + rate, ticks, seed + (n + (seats + tail)));
    Regroup(MAGIC + format, rate, ticks + (seed + (n + (seats + tail))));
    Regroup(MAGIC, format, rate + (ticks + (seed + (n + (seats + tail)))));
  }

  /** Two recordings that fit have the same bytes only if they are the same. */
  lemma WritingLosesNothing(a: Recording, b: Recording)
    requires FitsFormat(a) && FitsFormat(b)
    ensures Written(a) == Written(b) <==> a == b
  {
    ReadUndoesWrite(a);
    ReadUndoesWrite(b);
  }
}
