/**
 Moving before the server answers: the client applies its own inputs at once and, when the server's position
 arrives, starts again from there with the inputs not yet acknowledged.
 */
module Prediction {
  import opened FixedPoint
  import opened SimTypes
  import opened Arena
  import opened Laws
  import opened Steps
  import opened Stance
  import D = Departure

  datatype Sent = Sent(inputSeq: nat, mx: int, my: int)

  type Place = (int, int)

  /** One step of the client's own movement. */
  function StepMove(at: Place, mx: int, my: int, speed: nat): Place {
    var dx, dy := ClampDir(mx), ClampDir(my);
    if dx == 0 && dy == 0 then at
    else
      var (x, y) :=
        if dx != 0 && dy != 0 then (at.0 + Trunc(speed * dx * 707, 1000), at.1 + Trunc(speed * dy * 707, 1000))
        else (at.0 + speed * dx, at.1 + speed * dy);
      (Clamp(x, PLAYER_RADIUS, MAP - PLAYER_RADIUS), Clamp(y, PLAYER_RADIUS, MAP - PLAYER_RADIUS))
  }

  /** The server's movement branch, every operation in a 32-bit register. */
  function ServerMove(at: Place, mx: int, my: int, speed: nat): Place {
    var dx, dy := ClampDir(mx), ClampDir(my);
    if dx == 0 && dy == 0 then at
    else
      var (x, y) :=
        if dx != 0 && dy != 0 then
          (Wrap32(at.0 + Trunc(Wrap32(Wrap32(speed * dx) * 707), 1000)), Wrap32(at.1 + Trunc(Wrap32(Wrap32(speed * dy) * 707), 1000)))
        else (Wrap32(at.0 + Wrap32(speed * dx)), Wrap32(at.1 + Wrap32(speed * dy)));
      (Clamp(x, PLAYER_RADIUS, MAP - PLAYER_RADIUS), Clamp(y, PLAYER_RADIUS, MAP - PLAYER_RADIUS))
  }

  lemma NoWrap(v: int)
    requires Fits32(v)
    ensures Wrap32(v) == v
  {
    if v >= 0 {
      assert v % 0x1_0000_0000 == v;
    } else {
      assert (v + 0x1_0000_0000) % 0x1_0000_0000 == v % 0x1_0000_0000;
    }
  }

  lemma AxisFits(a: int, d: int, speed: nat)
    requires 0 <= a <= MAP && -1 <= d <= 1 && speed <= PLAYER_SPEED
    ensures Fits32(speed * d) && Fits32(speed * d * 707) && Fits32(a + speed * d)
    ensures Fits32(a + Trunc(speed * d * 707, 1000))
  {
    assert speed * d == if d == 0 then 0 else if d == 1 then speed else -(speed as int);
    TruncIsClose(speed * d * 707, 1000);
  }

  /** The port is exact: client, server and the server's model move alike from anywhere on the map, at any tick rate. */
  lemma MovesAlike(p: Player, mx: int, my: int, tickRate: int)
    requires 0 <= p.x <= MAP && 0 <= p.y <= MAP
    ensures var speed := SpeedPerTick(PLAYER_SPEED, tickRate);
      && StepMove((p.x, p.y), mx, my, speed) == ServerMove((p.x, p.y), mx, my, speed)
      && StepMove((p.x, p.y), mx, my, speed) == (Steered(speed, p, mx, my).x, Steered(speed, p, mx, my).y)
  {
    hide SpeedPerTick, Trunc, Wrap32, Clamp;
    var speed := SpeedPerTick(PLAYER_SPEED, tickRate);
    PerTickIsLess(PLAYER_SPEED, tickRate);
    AxisAlike(p.x, ClampDir(mx), speed);
    AxisAlike(p.y, ClampDir(my), speed);
    SteeredIsStep(p, mx, my, speed);
    hide StepMove, Steered;
    ServerIsStep((p.x, p.y), mx, my, speed);
  }

  lemma SteeredIsStep(p: Player, mx: int, my: int, speed: nat)
    ensures StepMove((p.x, p.y), mx, my, speed) == (Steered(speed, p, mx, my).x, Steered(speed, p, mx, my).y)
  {
    hide Trunc, Clamp;
  }

  lemma ServerIsStep(at: Place, mx: int, my: int, speed: nat)
    requires Wrap32(at.0 + Trunc(Wrap32(Wrap32(speed * ClampDir(mx)) * 707), 1000)) == at.0 + Trunc(speed * ClampDir(mx) * 707, 1000)
    requires Wrap32(at.1 + Trunc(Wrap32(Wrap32(speed * ClampDir(my)) * 707), 1000)) == at.1 + Trunc(speed * ClampDir(my) * 707, 1000)
    requires Wrap32(at.0 + Wrap32(speed * ClampDir(mx))) == at.0 + speed * ClampDir(mx)
    requires Wrap32(at.1 + Wrap32(speed * ClampDir(my))) == at.1 + speed * ClampDir(my)
    ensures StepMove(at, mx, my, speed) == ServerMove(at, mx, my, speed)
  {
    hide Trunc, Wrap32, Clamp, ClampDir;
  }

  lemma AxisAlike(a: int, d: int, speed: nat)
    requires 0 <= a <= MAP && -1 <= d <= 1 && speed <= PLAYER_SPEED
    ensures Wrap32(a + Trunc(Wrap32(Wrap32(speed * d) * 707), 1000)) == a + Trunc(speed * d * 707, 1000)
    ensures Wrap32(a + Wrap32(speed * d)) == a + speed * d
  {
    AxisFits(a, d, speed);
    NoWrap(speed * d);
    NoWrap(speed * d * 707);
    NoWrap(a + speed * d);
    NoWrap(a + Trunc(speed * d * 707, 1000));
  }

  /** One coordinate's share of a step with room to take it: the way asked, and seven tenths of the speed on a diagonal. */
  predicate Asked(d: int, m: int, other: int, speed: nat) {
    && (m == 0 ==> d == 0) && (m > 0 ==> d >= 0) && (m < 0 ==> d <= 0)
    && (m != 0 && other == 0 ==> Abs(d) == speed)
    && (m != 0 && other != 0 ==> 707 * speed - 1000 < 1000 * Abs(d) <= 707 * speed)
  }

  /** Away from the edges a step goes where it is asked to, straight on or diagonally, and never further than the speed. */
  lemma StepIsAsAsked(at: Place, mx: int, my: int, speed: nat)
    requires PLAYER_RADIUS + speed <= at.0 <= MAP - PLAYER_RADIUS - speed
    requires PLAYER_RADIUS + speed <= at.1 <= MAP - PLAYER_RADIUS - speed
    ensures var to_ := StepMove(at, mx, my, speed);
      && Asked(to_.0 - at.0, mx, my, speed) && Asked(to_.1 - at.1, my, mx, speed)
      && (to_.0 - at.0) * (to_.0 - at.0) + (to_.1 - at.1) * (to_.1 - at.1) <= speed * speed
  {
    StepOnOpenGround(at, mx, my, speed);
    var to_ := StepMove(at, mx, my, speed);
    hide StepMove;
    AskedIsShort(to_.0 - at.0, to_.1 - at.1, mx, my, speed);
  }

  lemma StepOnOpenGround(at: Place, mx: int, my: int, speed: nat)
    requires PLAYER_RADIUS + speed <= at.0 <= MAP - PLAYER_RADIUS - speed
    requires PLAYER_RADIUS + speed <= at.1 <= MAP - PLAYER_RADIUS - speed
    ensures var to_ := StepMove(at, mx, my, speed); Asked(to_.0 - at.0, mx, my, speed) && Asked(to_.1 - at.1, my, mx, speed)
  {
    hide Trunc;
    DiagonalShare(speed, ClampDir(mx));
    DiagonalShare(speed, ClampDir(my));
  }

  lemma AskedIsShort(dx: int, dy: int, mx: int, my: int, speed: nat)
    requires Asked(dx, mx, my, speed) && Asked(dy, my, mx, speed)
    ensures dx * dx + dy * dy <= speed * speed
  {
    if mx != 0 && my != 0 {
      HalfTheSquare(dx, speed);
      HalfTheSquare(dy, speed);
    } else {
      assert dx * dx == Abs(dx) * Abs(dx) && dy * dy == Abs(dy) * Abs(dy);
    }
  }

  lemma DiagonalShare(speed: nat, d: int)
    requires -1 <= d <= 1
    ensures var t := Trunc(speed * d * 707, 1000);
      && (d == 0 ==> t == 0) && (d > 0 ==> t >= 0) && (d < 0 ==> t <= 0) && Abs(t) <= speed
      && (d != 0 ==> 707 * speed - 1000 < 1000 * Abs(t) <= 707 * speed)
    ensures speed * d == if d == 0 then 0 else if d == 1 then speed else -(speed as int)
  {
    TruncIsClose(speed * d * 707, 1000);
    assert speed * d == if d == 0 then 0 else if d == 1 then speed else -(speed as int);
  }

  lemma HalfTheSquare(d: int, speed: nat)
    requires 1000 * Abs(d) <= 707 * speed
    ensures 2 * (d * d) <= speed * speed
  {
    var a := Abs(d);
    assert d * d == a * a;
    SquareOfSmall(1000 * a, 707 * speed);
    assert (1000 * a) * (1000 * a) == 1_000_000 * (a * a);
    assert (707 * speed) * (707 * speed) == 499_849 * (speed * speed);
  }

  function Folded(at: Place, inputs: seq<Sent>, speed: nat): Place {
    if inputs == [] then at
    else StepMove(Folded(at, inputs[..|inputs| - 1], speed), inputs[|inputs| - 1].mx, inputs[|inputs| - 1].my, speed)
  }

  /** What the server has not acknowledged. */
  function Unacked(pending: seq<Sent>, ack: nat): seq<Sent> {
    if pending != [] && pending[0].inputSeq <= ack then Unacked(pending[1..], ack) else pending
  }

  class Predictor {
    var speed: nat
    var pending: seq<Sent>
    var at: Place
    var ready: bool
    var replays: nat

    constructor (tickRate: int)
      ensures speed == SpeedPerTick(PLAYER_SPEED, tickRate) && pending == [] && !ready
    {
      speed := SpeedPerTick(PLAYER_SPEED, tickRate);
      pending, at, ready, replays := [], (0, 0), false, 0;
    }

    /** Before the first position from the server there is nothing to predict from. */
    method Record(inputSeq: nat, mx: int, my: int, alive: bool) returns (shown: Place)
      modifies `pending, `at
      ensures shown == at
      ensures pending == if ready then old(pending) + [Sent(inputSeq, mx, my)] else old(pending)
      ensures at == if ready && alive then StepMove(old(at), mx, my, speed) else old(at)
    {
      if !ready {
        return at;
      }
      pending := pending + [Sent(inputSeq, mx, my)];
      if alive {
        at := StepMove(at, mx, my, speed);
      }
      return at;
    }

    method Reconcile(server: Place, ack: nat, alive: bool)
      modifies `pending, `at, `ready, `replays
      ensures ready && pending == Unacked(old(pending), ack) && replays == |pending|
      ensures at == if alive then Folded(server, pending, speed) else server
    {
      at := server;
      ready := true;
      while pending != [] && pending[0].inputSeq <= ack
        invariant ready && at == server && Unacked(pending, ack) == Unacked(old(pending), ack)
        decreases |pending|
      {
        pending := pending[1..];
      }
      if alive {
        for i := 0 to |pending|
          invariant ready && pending == Unacked(old(pending), ack)
          invariant at == Folded(server, pending[..i], speed)
        {
          assert pending[..i + 1][..i] == pending[..i];
          at := StepMove(at, pending[i].mx, pending[i].my, speed);
        }
        assert pending[..|pending|] == pending;
      }
      replays := |pending|;
    }
  }

  ghost predicate NumberedUpwards(inputs: seq<Sent>) {
    forall i, j :: 0 <= i < j < |inputs| ==> inputs[i].inputSeq < inputs[j].inputSeq
  }

  /** Of inputs numbered upwards, what is left is exactly what is newer than the acknowledgement. */
  lemma {:induction false} UnackedIsNewer(pending: seq<Sent>, ack: nat)
    requires NumberedUpwards(pending)
    ensures forall s :: s in Unacked(pending, ack) <==> s in pending && s.inputSeq > ack
  {
    if pending != [] && pending[0].inputSeq <= ack {
      UnackedIsNewer(pending[1..], ack);
      assert pending == [pending[0]] + pending[1..];
    }
  }

  lemma {:induction false} FoldsInTurn(at: Place, a: seq<Sent>, b: seq<Sent>, speed: nat)
    ensures Folded(at, a + b, speed) == Folded(Folded(at, a, speed), b, speed)
  {
    if b == [] {
      assert a + b == a;
    } else {
      var n := |b| - 1;
      FoldsInTurn(at, a, b[..n], speed);
      assert (a + b)[..|a + b| - 1] == a + b[..n];
    }
  }

  lemma {:induction false} DropsAcknowledged(inputs: seq<Sent>, from: nat, upto: nat, ack: nat)
    requires NumberedUpwards(inputs) && from <= upto <= |inputs|
    requires forall i :: from <= i < upto ==> inputs[i].inputSeq <= ack
    requires upto < |inputs| ==> inputs[upto].inputSeq > ack
    ensures Unacked(inputs[from..], ack) == inputs[upto..]
    decreases upto - from
  {
    if from < upto {
      assert inputs[from..][1..] == inputs[from + 1..];
      DropsAcknowledged(inputs, from + 1, upto, ack);
    } else if upto < |inputs| {
      assert inputs[from..][0] == inputs[upto];
    }
  }

  // ---- a run of the client against a server that applies every input once, in order ----

  datatype Move = Press(mx: int, my: int) | Answer(upto: nat)

  /**
   `base` is the number of the last input sent before the first position arrived, `all` every input since, `acked` how
   many of them the last answer covered.
   */
  datatype Session = Session(base: nat, first: Place, all: seq<Sent>, acked: nat, pending: seq<Sent>, at: Place)

  function Begin(base: nat, first: Place): Session {
    Session(base, first, [], 0, [], first)
  }

  /** Inputs are numbered on from `base`. The server has applied the first `upto`, in order, to an avatar that stayed alive. */
  function Next(s: Session, m: Move, speed: nat): Session {
    match m
    case Press(mx, my) =>
      var sent := Sent(s.base + |s.all| + 1, mx, my);
      s.(all := s.all + [sent], pending := s.pending + [sent], at := StepMove(s.at, mx, my, speed))
    case Answer(upto) =>
      if upto < s.acked || upto > |s.all| then s
      else
        var pending := Unacked(s.pending, s.base + upto);
        s.(acked := upto, pending := pending, at := Folded(Folded(s.first, s.all[..upto], speed), pending, speed))
  }

  function Play(s: Session, moves: seq<Move>, speed: nat): Session {
    if moves == [] then s else Next(Play(s, moves[..|moves| - 1], speed), moves[|moves| - 1], speed)
  }

  ghost predicate InStep(s: Session, speed: nat) {
    && s.acked <= |s.all| && s.pending == s.all[s.acked..] && s.at == Folded(s.first, s.all, speed)
    && forall i :: 0 <= i < |s.all| ==> s.all[i].inputSeq == s.base + i + 1
  }

  lemma MoveStaysInStep(s: Session, m: Move, speed: nat)
    requires InStep(s, speed)
    ensures InStep(Next(s, m, speed), speed)
    ensures m.Answer? ==> Next(s, m, speed).at == s.at
  {
    match m
    case Press(mx, my) => InputStaysInStep(s, mx, my, speed);
    case Answer(upto) =>
      if s.acked <= upto <= |s.all| {
        AnswerStaysInStep(s, upto, speed);
      }
  }

  lemma InputStaysInStep(s: Session, mx: int, my: int, speed: nat)
    requires InStep(s, speed)
    ensures InStep(Next(s, Press(mx, my), speed), speed)
  {
    hide StepMove;
    var sent := Sent(s.base + |s.all| + 1, mx, my);
    assert (s.all + [sent])[..|s.all|] == s.all;
    assert (s.all + [sent])[s.acked..] == s.all[s.acked..] + [sent];
  }

  lemma AnswerStaysInStep(s: Session, upto: nat, speed: nat)
    requires InStep(s, speed) && s.acked <= upto <= |s.all|
    ensures InStep(Next(s, Answer(upto), speed), speed) && Next(s, Answer(upto), speed).at == s.at
  {
    hide Folded, Unacked;
    DropsAcknowledged(s.all, s.acked, upto, s.base + upto);
    FoldsInTurn(s.first, s.all[..upto], s.all[upto..], speed);
    assert s.all[..upto] + s.all[upto..] == s.all;
  }

  /** Then no answer of the server ever moves the player: prediction was right every time. */
  lemma {:induction false} NeverCorrected(base: nat, first: Place, moves: seq<Move>, m: Move, speed: nat)
    ensures var s := Play(Begin(base, first), moves, speed);
      InStep(s, speed) && (m.Answer? ==> Next(s, m, speed).at == s.at)
  {
    var s := Play(Begin(base, first), moves, speed);
    if moves != [] {
      var n := |moves| - 1;
      NeverCorrected(base, first, moves[..n], moves[n], speed);
      MoveStaysInStep(Play(Begin(base, first), moves[..n], speed), moves[n], speed);
    }
    MoveStaysInStep(s, m, speed);
  }

  // ---- the server's side of it ----

  /** The input a seat takes up in a step: the one there is for it, unless it is stale. */
  function Taken(p: Player, inputs: Inputs): seq<Sent> {
    if p.id !in inputs || Stale(p, inputs[p.id]) then []
    else [Sent(inputs[p.id].inputSeq, inputs[p.id].mx, inputs[p.id].my)]
  }

  /** The number acknowledged after the inputs: the last of theirs, where zero is no number. */
  function Acked(last: nat, inputs: seq<Sent>): nat {
    if inputs == [] then last
    else if inputs[|inputs| - 1].inputSeq != 0 then inputs[|inputs| - 1].inputSeq
    else Acked(last, inputs[..|inputs| - 1])
  }

  /** The avatar `q` is where the client's own rule takes `p` with these inputs, and acknowledges the last of them. */
  predicate Followed(p: Player, q: Player, inputs: seq<Sent>, speed: nat) {
    (q.x, q.y) == Folded((p.x, p.y), inputs, speed) && q.inputSeq == Acked(p.inputSeq, inputs)
  }

  lemma FollowedOnce(p: Player, q: Player, inputs: Inputs, speed: nat)
    ensures Followed(p, q, Taken(p, inputs), speed)
       <==> if Taken(p, inputs) == [] then (q.x, q.y) == (p.x, p.y) && q.inputSeq == p.inputSeq
            else
              var inp := inputs[p.id];
              (q.x, q.y) == StepMove((p.x, p.y), inp.mx, inp.my, speed)
              && q.inputSeq == if inp.inputSeq != 0 then inp.inputSeq else p.inputSeq
  {
    hide StepMove, Stale;
    var taken := Taken(p, inputs);
    if taken != [] {
      assert taken[..|taken| - 1] == [];
      assert Folded((p.x, p.y), taken[..|taken| - 1], speed) == (p.x, p.y);
      assert Acked(p.inputSeq, taken[..|taken| - 1]) == p.inputSeq;
    }
  }

  /** Its own visit moves a standing player by what it takes up, unless it falls by it; a fallen one stays where it is. */
  lemma OwnInputMoves(r: Rules, w: State, inputs: Inputs, i: nat)
    requires i < |w.players|
    ensures var p, q := w.players[i], InputAt(r, w, i, inputs).players[i];
      && q.id == p.id && q.left == p.left && q.bot == p.bot
      && (p.alive ==> Followed(p, q, Taken(p, inputs), r.speed))
      && (p.alive && !q.alive ==> q.respawn > 0) && (!p.alive ==> !q.alive && q.respawn == p.respawn)
  {
    hide Fire, Clamp, Trunc, Followed, Folded, Acked;
    var p := w.players[i].(cooldown := CountDown(w.players[i].cooldown));
    FollowedOnce(w.players[i], InputAt(r, w, i, inputs).players[i], inputs, r.speed);
    if p.id in inputs && !Stale(p, inputs[p.id]) {
      var inp := inputs[p.id];
      var q := Steered(r.speed, (if inp.inputSeq != 0 then p.(inputSeq := inp.inputSeq) else p).(aim := inp.aim), inp.mx, inp.my);
      FireStaysPut(r, Set(w, i, q), i, inp.lagTicks, i);
    }
  }

  lemma OneMoreInput(r: Rules, w: State, inputs: Inputs, i: nat)
    requires i < |w.players|
    ensures Walk(r, w, Steering(inputs), i + 1) == InputAt(r, Walk(r, w, Steering(inputs), i), i, inputs)
  {
  }

  /** Where a seat is and what it has acknowledged decide what it takes up and where that leads. */
  lemma SameFollowed(p: Player, p': Player, q: Player, q': Player, inputs: Inputs, speed: nat)
    requires Followed(p, q, Taken(p, inputs), speed)
    requires p'.id == p.id && p'.x == p.x && p'.y == p.y && p'.inputSeq == p.inputSeq
    requires q'.x == q.x && q'.y == q.y && q'.inputSeq == q.inputSeq
    ensures Followed(p', q', Taken(p', inputs), speed)
  {
    hide Folded, Acked;
  }

  /** A seat through the steering, driving and flying of a step. */
  lemma SeatThroughPasses(r: Rules, t: State, inputs: Inputs, i: nat)
    requires i < |t.players| && (!t.players[i].bot || t.players[i].id in inputs)
    ensures var n := |t.players|;
      var flown := Fly(r, Walk(r, Walk(r, t, Steering(inputs), n), Bots(inputs), n));
      var p, q := t.players[i], flown.players[i];
      && q.left == p.left && (p.alive ==> q.alive || q.respawn > 0)
      && (q.alive ==> p.alive && Followed(p, q, Taken(p, inputs), r.speed))
  {
    hide Visit, InputAt, BotAt, ShotAt, Followed, Taken;
    var n := |t.players|;
    WalkStaysPut(r, t, Steering(inputs), i, i);
    var before := Walk(r, t, Steering(inputs), i);
    OneMoreInput(r, t, inputs, i);
    OwnInputMoves(r, before, inputs, i);
    var after := InputAt(r, before, i, inputs);
    LaterInputsStayPut(r, t, inputs, n, i);
    hide Walk;
    var steered := Walk(r, t, Steering(inputs), n);
    WalkStaysPut(r, steered, Bots(inputs), n, i);
    var driven := Walk(r, steered, Bots(inputs), n);
    WalkStaysPut(r, driven.(projectiles := []), Flying(driven.projectiles), |driven.projectiles|, i);
    if Fly(r, driven).players[i].alive {
      SameFollowed(before.players[i], t.players[i], after.players[i], Fly(r, driven).players[i], inputs, r.speed);
    }
  }

  /**
   A step that finds and leaves a player standing moves it as the client moves it with the input the step takes up,
   and acknowledges that; without one it stays where it is. Whoever else fires, dies or comes back in the same step.
   */
  lemma StepMovesAsPredicted(r: Rules, w: State, inputs: Inputs, i: nat)
    requires Sound(r, w) && !w.ended && i < |w.players| && w.players[i].alive
    requires !w.players[i].bot || w.players[i].id in inputs
    requires i < |Step(r, w, inputs).players| && Step(r, w, inputs).players[i].alive
    ensures Followed(w.players[i], Step(r, w, inputs).players[i], Taken(w.players[i], inputs), r.speed)
  {
    ClocksCharged(r, w);
    var t := AfterTimers(r, w);
    assert t.players[i] == Timed(w.players[i]);
    hide Sound, FineSeats, FineShots, Followed, Taken, Visit, Walk;
    var n := |t.players|;
    var flown := Fly(r, Walk(r, Walk(r, t, Steering(inputs), n), Bots(inputs), n));
    JudgedSame(r, Return(r, flown));
    SeatThroughPasses(r, t, inputs, i);
    StandingStays(r, flown.(claimed := Unclaimed(n)), n, i);
    SameFollowed(t.players[i], w.players[i], flown.players[i], Step(r, w, inputs).players[i], inputs, r.speed);
  }

  // ---- the two sides together ----

  /** Every input the seat took up over a run, in order. */
  function Consumed(r: Rules, w: State, acts: seq<D.Action>, i: nat): seq<Sent> {
    if acts == [] then []
    else
      var before, a := D.Run(r, w, acts[..|acts| - 1]), acts[|acts| - 1];
      Consumed(r, w, acts[..|acts| - 1], i)
      + if a.Tick? && !before.ended && i < |before.players| then Taken(before.players[i], a.inputs) else []
  }

  ghost predicate StandsThroughout(r: Rules, w: State, acts: seq<D.Action>, i: nat) {
    forall k :: 0 <= k <= |acts| ==> i < |D.Run(r, w, acts[..k]).players| && D.Run(r, w, acts[..k]).players[i].alive
  }

  lemma {:induction false} AckedInTurn(last: nat, a: seq<Sent>, b: seq<Sent>)
    ensures Acked(last, a + b) == Acked(Acked(last, a), b)
  {
    if b == [] {
      assert a + b == a;
    } else {
      AckedInTurn(last, a, b[..|b| - 1]);
      assert (a + b)[..|a + b| - 1] == a + b[..|b| - 1];
    }
  }

  lemma FollowedInTurn(p: Player, m: Player, q: Player, a: seq<Sent>, b: seq<Sent>, speed: nat)
    requires Followed(p, m, a, speed) && Followed(m, q, b, speed)
    ensures Followed(p, q, a + b, speed)
  {
    FoldsInTurn((p.x, p.y), a, b, speed);
    AckedInTurn(p.inputSeq, a, b);
    hide Folded, Acked;
  }

  lemma ActFollows(r: Rules, w: State, a: D.Action, i: nat)
    requires Sound(r, w) && i < |w.players| && !w.players[i].bot
    requires i < |D.Act(r, w, a).players| && w.players[i].alive && D.Act(r, w, a).players[i].alive
    ensures Followed(w.players[i], D.Act(r, w, a).players[i], if a.Tick? && !w.ended then Taken(w.players[i], a.inputs) else [], r.speed)
  {
    hide Sound, Step, Depart, Rejoin, Taken, IndexOf;
    if a.Tick? {
      D.EndedStays(r, w, a.inputs);
      if !w.ended {
        StepMovesAsPredicted(r, w, a.inputs, i);
      }
    } else {
      D.ComesOrGoes(w, a);
    }
  }

  /**
   Over any run a human seat that stands throughout is where the client's own rule takes it with the inputs it took
   up, and acknowledges the last of them, whatever happens to the others and whoever comes and goes.
   */
  lemma {:induction false} RunMovesAsPredicted(r: Rules, w: State, acts: seq<D.Action>, i: nat)
    requires Sound(r, w) && i < |w.players| && !w.players[i].bot && StandsThroughout(r, w, acts, i)
    ensures i < |D.Run(r, w, acts).players|
    ensures Followed(w.players[i], D.Run(r, w, acts).players[i], Consumed(r, w, acts, i), r.speed)
  {
    hide Sound, Taken, D.Act;
    assert acts[..|acts|] == acts;
    if acts != [] {
      var n := |acts| - 1;
      StandsBefore(r, w, acts, i);
      RunMovesAsPredicted(r, w, acts[..n], i);
      D.RunIsSound(r, w, acts[..n]);
      var before := D.Run(r, w, acts[..n]);
      assert before.players[i].alive;
      hide Followed;
      ActFollows(r, before, acts[n], i);
      FollowedInTurn(w.players[i], before.players[i], D.Run(r, w, acts).players[i], Consumed(r, w, acts[..n], i),
                     if acts[n].Tick? && !before.ended then Taken(before.players[i], acts[n].inputs) else [], r.speed);
    }
  }

  lemma StandsBefore(r: Rules, w: State, acts: seq<D.Action>, i: nat)
    requires acts != [] && StandsThroughout(r, w, acts, i)
    ensures StandsThroughout(r, w, acts[..|acts| - 1], i)
  {
    var before := acts[..|acts| - 1];
    hide D.Run;
    forall k | 0 <= k <= |before|
      ensures i < |D.Run(r, w, before[..k]).players| && D.Run(r, w, before[..k]).players[i].alive
    {
      assert before[..k] == acts[..k];
    }
  }

  lemma {:induction false} AckedIsCount(last: nat, base: nat, inputs: seq<Sent>)
    requires forall j :: 0 <= j < |inputs| ==> inputs[j].inputSeq == base + j + 1
    ensures Acked(last, inputs) == if inputs == [] then last else base + |inputs|
  {
  }

  lemma {:induction false} AckedIsOld(last: nat, base: nat, inputs: seq<Sent>)
    requires last <= base && forall j :: 0 <= j < |inputs| ==> inputs[j].inputSeq <= base
    ensures Acked(last, inputs) <= base
  {
    if inputs != [] {
      AckedIsOld(last, base, inputs[..|inputs| - 1]);
    }
  }

  lemma {:induction false} SessionStart(base: nat, first: Place, moves: seq<Move>, speed: nat)
    ensures Play(Begin(base, first), moves, speed).first == first && Play(Begin(base, first), moves, speed).base == base
  {
    hide StepMove, Folded, Unacked;
    if moves != [] {
      SessionStart(base, first, moves[..|moves| - 1], speed);
    }
  }

  /** What the page keeps of its inputs when an answer acknowledges the first `k`, or only older ones. */
  lemma LeftPending(s: Session, k: nat, ack: nat, speed: nat)
    requires InStep(s, speed) && s.acked <= k <= |s.all| && if k == 0 then ack <= s.base else ack == s.base + k
    ensures Unacked(s.pending, ack) == s.all[k..]
  {
    DropsAcknowledged(s.all, s.acked, k, ack);
  }

  /**
   What the simulation makes of the page's inputs. From the world `w` the first position came from, a seat that
   stands throughout takes up what was `flying` to it at that moment and then the first `k` inputs since: its next
   position moves the player by exactly the inputs that were flying, and with none of those not at all.
   */
  lemma CorrectedByWhatWasFlying(r: Rules, w: State, acts: seq<D.Action>, i: nat, base: nat, moves: seq<Move>,
                                 flying: seq<Sent>, k: nat)
    requires Sound(r, w) && i < |w.players| && !w.players[i].bot && StandsThroughout(r, w, acts, i)
    requires w.players[i].inputSeq <= base && forall j :: 0 <= j < |flying| ==> flying[j].inputSeq <= base
    requires var s := Play(Begin(base, (w.players[i].x, w.players[i].y)), moves, r.speed);
      s.acked <= k <= |s.all| && Consumed(r, w, acts, i) == flying + s.all[..k]
    ensures var first := (w.players[i].x, w.players[i].y);
      var s := Play(Begin(base, first), moves, r.speed);
      && i < |D.Run(r, w, acts).players|
      && var q := D.Run(r, w, acts).players[i];
         var at := Folded((q.x, q.y), Unacked(s.pending, q.inputSeq), r.speed);
         && s.at == Folded(first, s.all, r.speed)
         && at == Folded(Folded(first, flying, r.speed), s.all, r.speed)
         && (flying == [] ==> at == s.at)
  {
    hide Sound, D.Run, Consumed, StandsThroughout, StepMove, Unacked, Play;
    var first := (w.players[i].x, w.players[i].y);
    var s := Play(Begin(base, first), moves, r.speed);
    NeverCorrected(base, first, moves, Answer(k), r.speed);
    SessionStart(base, first, moves, r.speed);
    RunMovesAsPredicted(r, w, acts, i);
    AckedInTurn(w.players[i].inputSeq, flying, s.all[..k]);
    AckedIsOld(w.players[i].inputSeq, base, flying);
    AckedIsCount(Acked(w.players[i].inputSeq, flying), base, s.all[..k]);
    LeftPending(s, k, D.Run(r, w, acts).players[i].inputSeq, r.speed);
    FoldsInTurn(first, flying, s.all[..k], r.speed);
    FoldsInTurn(Folded(first, flying, r.speed), s.all[..k], s.all[k..], r.speed);
    assert s.all[..k] + s.all[k..] == s.all;
  }

  /**
   It does happen. A page that has sent nothing since its first position, short of the right edge, is moved by the step
   in which one step to the right, sent before, lands.
   */
  lemma AnInputInFlightCorrects(r: Rules, w: State, inputs: Inputs, i: nat)
    requires Sound(r, w) && !w.ended && i < |w.players| && w.players[i].alive && r.speed > 0
    requires w.players[i].x < MAP - PLAYER_RADIUS && w.players[i].id in inputs && !Stale(w.players[i], inputs[w.players[i].id])
    requires inputs[w.players[i].id].mx == 1 && inputs[w.players[i].id].my == 0
    requires i < |Step(r, w, inputs).players| && Step(r, w, inputs).players[i].alive
    ensures var p, q := w.players[i], Step(r, w, inputs).players[i];
      var s := Begin(inputs[p.id].inputSeq, (p.x, p.y));
      Folded((q.x, q.y), Unacked(s.pending, q.inputSeq), r.speed) != s.at
  {
    hide Sound, Step, Stale;
    StepMovesAsPredicted(r, w, inputs, i);
    FollowedOnce(w.players[i], Step(r, w, inputs).players[i], inputs, r.speed);
  }
}
