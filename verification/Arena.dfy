/**
 One step of the simulation as a function of the world and the inputs. A step is five passes; a pass visits the
 roster, or the shots in flight, in order, and each visit sees what the visits before it did.
 */
module Arena {
  import opened Wrappers
  import opened FixedPoint
  import opened Geometry
  import opened SimTypes

  const MAX_HP := 100
  const DAMAGE := 25
  const FIRE_COOLDOWN: nat := 8
  const RESPAWN_TICKS: nat := 40
  const PROJECTILE_TTL: nat := 30
  const BOT_TURN_CHANCE: nat := 20
  const BOT_FIRE_CHANCE: nat := 12
  const MAX_LAG_TICKS: nat := 10
  const SPAWN_PROTECT_TICKS: nat := 10
  const LINGER_TICKS: nat := 60

  /** What does not change during a match. `draw` is the generator's stream, fixed by the match's seed. */
  datatype Rules = Rules(speed: nat, shot: nat, matchTicks: nat, draw: nat -> nat)

  function RulesFor(tickRate: int, matchTicks: nat, draw: nat -> nat): Rules {
    Rules(SpeedPerTick(PLAYER_SPEED, tickRate), SpeedPerTick(PROJECTILE_SPEED, tickRate), matchTicks, draw)
  }

  /** `drawn` counts the numbers taken from the stream; `claimed` is the respawn pass's scratch. */
  datatype State = State(
    tick: nat, players: seq<Player>, projectiles: seq<Projectile>, nextProj: nat, drawn: nat,
    ended: bool, winner: nat, events: seq<Event>, claimed: seq<bool>)

  type Inputs = map<nat, Input>

  /** The opening: everybody alive, on the ring, in id order. */
  function Opening(roster: seq<Player>): State {
    State(0, seq(|roster|, i requires 0 <= i < |roster| => Opened(roster[i], i, |roster|)), [], 1, 0, false, 0, [], [])
  }

  function Opened(p: Player, i: nat, n: nat): Player {
    p.(hp := if p.hp == 0 then MAX_HP else p.hp, alive := true, x := SpawnX(i, n), y := SpawnY(i, n))
  }

  function Set(w: State, i: nat, p: Player): (r: State)
    requires i < |w.players|
    ensures |r.players| == |w.players|
  {
    w.(players := w.players[i := p])
  }

  function Emit(w: State, kind: EventKind, actor: nat, target: nat, hp: int): State {
    w.(events := w.events + [Event(w.tick, kind, actor, target, hp)])
  }

  function CountDown(n: nat): nat {
    if n > 0 then n - 1 else 0
  }

  // ---- timers ----

  function TimerAt(w: State, i: nat): (r: State)
    requires i < |w.players|
    ensures |r.players| == |w.players|
  {
    var p := w.players[i].(protect := CountDown(w.players[i].protect));
    if !p.left || p.linger == 0 then Set(w, i, p)
    else if p.linger > 1 then Set(w, i, p.(linger := p.linger - 1))
    else Emit(Set(w, i, p.(linger := 0, alive := false, hp := 0, respawn := 0)), EventDepart, 0, p.id, 0)
  }

  // ---- hits ----

  function IndexOf(players: seq<Player>, id: nat, from: nat := 0): (r: Option<nat>)
    requires from <= |players|
    ensures r.Some? ==> from <= r.value < |players| && players[r.value].id == id
    ensures r.None? ==> forall k :: from <= k < |players| ==> players[k].id != id
    decreases |players| - from
  {
    if from == |players| then None else if players[from].id == id then Some(from) else IndexOf(players, id, from + 1)
  }

  function Credit(w: State, owner: nat): (r: State)
    ensures |r.players| == |w.players|
  {
    match IndexOf(w.players, owner)
    case None => w
    case Some(k) => Set(w, k, w.players[k].(score := w.players[k].score + 1))
  }

  /** A hit on the player at `j`, and whether it landed: a protected player stops nothing. */
  function Damage(w: State, j: nat, owner: nat): (r: (State, bool))
    requires j < |w.players|
    ensures |r.0.players| == |w.players|
  {
    var p := w.players[j];
    if p.protect > 0 then (w, false)
    else if p.hp - DAMAGE > 0 then (Emit(Set(w, j, p.(hp := p.hp - DAMAGE)), EventHit, owner, p.id, p.hp - DAMAGE), true)
    else
      var down := Credit(Set(w, j, p.(hp := 0, alive := false, respawn := RESPAWN_TICKS)), owner);
      (Emit(Emit(down, EventHit, owner, p.id, 0), EventKill, owner, p.id, 0), true)
  }

  /** Whether a shot that flew from (fx, fy) passed the player close enough. */
  predicate InReach(p: Player, shot: Projectile, fx: int, fy: int) {
    p.alive && p.id != shot.owner && SegDist2(p.x, p.y, fx, fy, shot.x, shot.y) <= REACH * REACH
  }

  /** How far along the path the player sits. */
  function AlongPath(p: Player, shot: Projectile, fx: int, fy: int): int {
    (p.x - fx) * (shot.x - fx) + (p.y - fy) * (shot.y - fy)
  }

  /** The shot reaches `p` before `q`; equally near, the lower id. */
  predicate Sooner(p: Player, q: Player, shot: Projectile, fx: int, fy: int) {
    || AlongPath(p, shot, fx, fy) < AlongPath(q, shot, fx, fy)
    || (AlongPath(p, shot, fx, fy) == AlongPath(q, shot, fx, fy) && p.id < q.id)
  }

  /** Whom the shot reaches first among the first `n`. */
  function FirstStruck(players: seq<Player>, n: nat, shot: Projectile, fx: int, fy: int): (r: Option<nat>)
    requires n <= |players|
    ensures r.Some? ==> r.value < n
  {
    if n == 0 then None
    else
      var before, p := FirstStruck(players, n - 1, shot, fx, fy), players[n - 1];
      if InReach(p, shot, fx, fy) && (before.None? || Sooner(p, players[before.value], shot, fx, fy)) then Some(n - 1) else before
  }

  /** The world after one swept step of a shot, and whether the shot ends there. */
  function Sweep(w: State, shot: Projectile, fx: int, fy: int): (r: (State, bool))
    ensures |r.0.players| == |w.players|
  {
    match FirstStruck(w.players, |w.players|, shot, fx, fy)
    case None => (w, false)
    case Some(j) => Damage(w, j, shot.owner)
  }

  // ---- shots ----

  function Flown(p: Projectile): Projectile {
    p.(x := p.x + p.vx, y := p.y + p.vy, ttl := CountDown(p.ttl))
  }

  predicate Spent(p: Projectile) {
    p.ttl == 0 || p.x < 0 || p.y < 0 || p.x > MAP || p.y > MAP
  }

  /** A fresh shot advanced by the ticks its shooter was behind, colliding on the way; then it joins the world. */
  function CatchUp(w: State, shot: Projectile, lag: nat): (r: State)
    ensures |r.players| == |w.players|
    decreases lag
  {
    if lag == 0 then w.(projectiles := w.projectiles + [shot])
    else
      var moved := Flown(shot);
      var (struck, hit) := Sweep(w, moved, shot.x, shot.y);
      if hit || Spent(moved) then struck else CatchUp(struck, moved, lag - 1)
  }

  /** The shot as it leaves the muzzle. */
  function Muzzled(r: Rules, w: State, p: Player): Projectile {
    Projectile(w.nextProj, p.id, p.x + Trunc(CosDeg(p.aim) * PLAYER_RADIUS, 1000), p.y + Trunc(SinDeg(p.aim) * PLAYER_RADIUS, 1000),
               Along(r.shot, CosDeg(p.aim)), Along(r.shot, SinDeg(p.aim)), PROJECTILE_TTL)
  }

  function Launch(r: Rules, w: State, p: Player, lag: nat): (s: State)
    ensures |s.players| == |w.players|
  {
    CatchUp(w.(nextProj := w.nextProj + 1), Muzzled(r, w, p), if lag > MAX_LAG_TICKS then MAX_LAG_TICKS else lag)
  }

  /** Immunity goes first, so that what the shot does to others is done by a vulnerable shooter. */
  function Fire(r: Rules, w: State, i: nat, lag: nat): (s: State)
    requires i < |w.players|
    ensures |s.players| == |w.players|
  {
    var bold := Set(w, i, w.players[i].(protect := 0));
    var fired := Launch(r, bold, bold.players[i], lag);
    Set(fired, i, fired.players[i].(cooldown := FIRE_COOLDOWN))
  }

  function ShotAt(w: State, shot: Projectile): (r: State)
    ensures |r.players| == |w.players|
  {
    var moved := Flown(shot);
    var (struck, hit) := if moved.ttl != 0 then Sweep(w, moved, shot.x, shot.y) else (w, false);
    if hit || Spent(moved) then struck else struck.(projectiles := struck.projectiles + [moved])
  }

  // ---- inputs and bots ----

  function Steered(speed: nat, p: Player, mx: int, my: int): (r: Player)
    ensures r == p.(x := r.x, y := r.y)
    ensures OnMap(p.x, p.y) ==> OnMap(r.x, r.y)
  {
    var dx, dy := ClampDir(mx), ClampDir(my);
    if dx == 0 && dy == 0 then p
    else
      var diagonal := dx != 0 && dy != 0;
      p.(x := Clamp(p.x + Stride(speed, dx, diagonal), PLAYER_RADIUS, MAP - PLAYER_RADIUS),
         y := Clamp(p.y + Stride(speed, dy, diagonal), PLAYER_RADIUS, MAP - PLAYER_RADIUS))
  }

  /** An input numbered at or below the last one applied is stale; number zero is never stale. */
  predicate Stale(p: Player, inp: Input) {
    inp.inputSeq != 0 && inp.inputSeq <= p.inputSeq
  }

  function InputAt(r: Rules, w: State, i: nat, inputs: Inputs): (s: State)
    requires i < |w.players|
    ensures |s.players| == |w.players|
  {
    var p := w.players[i].(cooldown := CountDown(w.players[i].cooldown));
    if p.id !in inputs || !p.alive || Stale(p, inputs[p.id]) then Set(w, i, p)
    else
      var inp := inputs[p.id];
      var numbered := if inp.inputSeq != 0 then p.(inputSeq := inp.inputSeq) else p;
      var moved := Set(w, i, Steered(r.speed, numbered.(aim := inp.aim), inp.mx, inp.my));
      if inp.fire && p.cooldown == 0 then Fire(r, moved, i, inp.lagTicks) else moved
  }

  function BotAt(r: Rules, w: State, i: nat, inputs: Inputs): (s: State)
    requires i < |w.players|
    ensures |s.players| == |w.players|
  {
    var p := w.players[i];
    if !p.bot || !p.alive || p.id in inputs then w
    else
      var turns := r.draw(w.drawn) % BOT_TURN_CHANCE == 0;
      var aim := if turns then r.draw(w.drawn + 1) % 360 else p.aim;
      var drawn := w.drawn + if turns then 2 else 1;
      var moved := Set(w, i, p.(aim := aim,
        x := Clamp(p.x + Along(r.speed, CosDeg(aim)), PLAYER_RADIUS, MAP - PLAYER_RADIUS),
        y := Clamp(p.y + Along(r.speed, SinDeg(aim)), PLAYER_RADIUS, MAP - PLAYER_RADIUS))).(drawn := drawn);
      if p.cooldown > 0 then moved
      else if r.draw(drawn) % BOT_FIRE_CHANCE != 0 then moved.(drawn := drawn + 1)
      else Fire(r, moved.(drawn := drawn + 1), i, 0)
  }

  // ---- respawn ----

  /** The squared distance from a ring point to the nearest living rival among the first `k`, or -1 without one. */
  function Threat(w: State, self: nat, slot: nat, k: nat): int
    requires k <= |w.players|
  {
    if k == 0 then -1
    else
      var before, p := Threat(w, self, slot, k - 1), w.players[k - 1];
      var n := |w.players|;
      if !p.alive || p.id == self then before
      else
        var d := Dist2(SpawnX(slot, n), SpawnY(slot, n), p.x, p.y);
        if before < 0 || d < before then d else before
  }

  /** The free ring point, among the first `k`, whose nearest rival is furthest; the lowest of equals. */
  function Safest(w: State, self: nat, k: nat): (r: Option<nat>)
    requires k <= |w.players| == |w.claimed|
    ensures r.Some? ==> r.value < k
  {
    if k == 0 then None
    else
      var n, before := |w.players|, Safest(w, self, k - 1);
      if w.claimed[k - 1] then before
      else if before.None? || Threat(w, self, k - 1, n) > Threat(w, self, before.value, n) then Some(k - 1)
      else before
  }

  function SafestSlot(w: State, self: nat): (r: nat)
    requires |w.claimed| == |w.players| > 0
    ensures r < |w.players|
  {
    match Safest(w, self, |w.players|)
    case None => 0
    case Some(slot) => slot
  }

  function ReturnAt(w: State, i: nat): (r: State)
    requires i < |w.players| == |w.claimed|
    ensures |r.players| == |w.players| && |r.claimed| == |w.claimed|
  {
    var p := w.players[i];
    if p.alive || p.left then w
    else if p.respawn > 0 then Set(w, i, p.(respawn := p.respawn - 1))
    else
      var n, slot := |w.players|, SafestSlot(w, p.id);
      Set(w, i, p.(alive := true, hp := MAX_HP, protect := SPAWN_PROTECT_TICKS, x := SpawnX(slot, n), y := SpawnY(slot, n)))
        .(claimed := w.claimed[slot := true])
  }

  // ---- the passes ----

  datatype Pass = Timers | Steering(inputs: Inputs) | Bots(inputs: Inputs) | Flying(shots: seq<Projectile>) | Returning

  predicate Fits(w: State, pass: Pass, n: nat) {
    match pass
    case Flying(shots) => n <= |shots|
    case Returning => n <= |w.players| == |w.claimed|
    case _ => n <= |w.players|
  }

  function Visit(r: Rules, w: State, pass: Pass, i: nat): (s: State)
    requires Fits(w, pass, i + 1)
    ensures |s.players| == |w.players| && (pass.Returning? ==> |s.claimed| == |w.claimed|)
  {
    match pass
    case Timers => TimerAt(w, i)
    case Steering(inputs) => InputAt(r, w, i, inputs)
    case Bots(inputs) => BotAt(r, w, i, inputs)
    case Flying(shots) => ShotAt(w, shots[i])
    case Returning => ReturnAt(w, i)
  }

  /** The first `n` visits of a pass. */
  function Walk(r: Rules, w: State, pass: Pass, n: nat): (s: State)
    requires Fits(w, pass, n)
    ensures |s.players| == |w.players| && (pass.Returning? ==> |s.claimed| == |w.claimed|)
  {
    if n == 0 then w else Visit(r, Walk(r, w, pass, n - 1), pass, n - 1)
  }

  function Fly(r: Rules, w: State): (s: State)
    ensures |s.players| == |w.players|
  {
    Walk(r, w.(projectiles := []), Flying(w.projectiles), |w.projectiles|)
  }

  function Unclaimed(n: nat): (r: seq<bool>)
    ensures |r| == n && forall i :: 0 <= i < n ==> !r[i]
  {
    seq(n, i => false)
  }

  function Return(r: Rules, w: State): (s: State)
    ensures |s.players| == |w.players|
  {
    if |w.players| == 0 then w else Walk(r, w.(claimed := Unclaimed(|w.players|)), Returning, |w.players|)
  }

  predicate Abandoned(players: seq<Player>) {
    && (exists i :: 0 <= i < |players| && !players[i].bot)
    && (forall i :: 0 <= i < |players| && !players[i].bot ==> players[i].left && !players[i].alive)
  }

  /** The best of the first `n` scores, and whether it is shared. */
  function Lead(players: seq<Player>, n: nat): (r: (nat, bool))
    requires 0 < n <= |players|
    ensures r.0 < n
  {
    if n == 1 then (0, false)
    else
      var (best, tied) := Lead(players, n - 1);
      if players[n - 1].score > players[best].score then (n - 1, false)
      else if players[n - 1].score == players[best].score then (best, true)
      else (best, tied)
  }

  function Leader(players: seq<Player>): nat {
    if |players| == 0 then 0
    else
      var (best, tied) := Lead(players, |players|);
      if tied then 0 else players[best].id
  }

  function Begun(w: State): State {
    w.(tick := w.tick + 1, events := [])
  }

  /** The five passes of a step, before the match is judged. */
  function Passes(r: Rules, w: State, inputs: Inputs): (s: State)
    ensures |s.players| == |w.players|
  {
    var n := |w.players|;
    var timed := Walk(r, w, Timers, n);
    var steered := Walk(r, timed, Steering(inputs), n);
    var driven := Walk(r, steered, Bots(inputs), n);
    Return(r, Fly(r, driven))
  }

  function Judged(r: Rules, w: State): State {
    if w.tick >= r.matchTicks || Abandoned(w.players) then w.(ended := true, winner := Leader(w.players)) else w
  }

  function Step(r: Rules, w: State, inputs: Inputs): State {
    if w.ended then w else Judged(r, Passes(r, Begun(w), inputs))
  }

  // ---- leaving and coming back ----

  function Depart(w: State, id: nat): State {
    match IndexOf(w.players, id)
    case None => w
    case Some(i) =>
      if w.players[i].left then w else Set(w, i, w.players[i].(left := true, linger := LINGER_TICKS))
  }

  function Rejoin(w: State, id: nat): State {
    match IndexOf(w.players, id)
    case None => w
    case Some(i) =>
      var p := w.players[i];
      if !p.left then w
      else Set(w, i, p.(left := false, linger := 0, respawn := if !p.alive && p.respawn == 0 then RESPAWN_TICKS else p.respawn))
  }
}
