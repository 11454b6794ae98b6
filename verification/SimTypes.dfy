/** The simulation's own records. Positions are in thousandths of a world unit. */
module SimTypes {
  datatype Player = Player(
    id: nat, x: int, y: int, aim: int, hp: int, score: nat, cooldown: nat, respawn: nat,
    alive: bool, bot: bool, inputSeq: nat, protect: nat, left: bool, linger: nat)

  datatype Projectile = Projectile(id: nat, owner: nat, x: int, y: int, vx: int, vy: int, ttl: nat)

  datatype EventKind = EventHit | EventKill | EventDepart

  /** A fact about one tick. An output of the simulation, never read back by it. */
  datatype Event = Event(tick: nat, kind: EventKind, actor: nat, target: nat, hp: int)

  /** The direction axes are signed bytes on the wire. */
  datatype Input = Input(mx: int, my: int, fire: bool, aim: int, inputSeq: nat, lagTicks: nat)

  /** What a tick hands to the room: the world after it, and what happened during it. */
  datatype View = View(tick: nat, players: seq<Player>, projectiles: seq<Projectile>, ended: bool, winner: nat, events: seq<Event>)

  /** The order every merge in the room relies on. */
  ghost predicate Sorted(v: View) {
    && (forall i, j :: 0 <= i < j < |v.players| ==> v.players[i].id < v.players[j].id)
    && (forall i, j :: 0 <= i < j < |v.projectiles| ==> v.projectiles[i].id < v.projectiles[j].id)
    && (forall i :: 0 <= i < |v.events| ==> v.events[i].tick == v.tick)
  }
}
