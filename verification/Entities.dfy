/** domain/entity.py, domain/events.py, domain/collisions.py and domain/physics.py: the things a
    level is made of and how a player moves through them. */
module Entities {
  import opened Prelude
  import opened Config

  /** What a player wants to do this tick (shared/input.py). */
  datatype Input = Input(left: bool, right: bool, jump: bool, down: bool)

  /** An axis-aligned rectangle: everything a player can collide with has one. */
  datatype Box = Box(x: real, y: real, width: real, height: real)

  datatype Player = Player(
    id: string, x: real, y: real, vx: real, vy: real, width: real, height: real,
    onGround: bool, crouching: bool, prevX: real, prevY: real,
    joinIndex: int, effectExpiresAt: Option<real>)

  datatype Block = Block(box: Box, destroyed: bool)

  datatype PowerUp = PowerUp(id: string, box: Box, collected: bool, owner: Option<string>)

  datatype GateState = Closed | Open

  datatype Gate = Gate(
    id: string, box: Box, state: GateState,
    coinsRequired: int, blocksRequired: int, enemiesRequired: int, isFinal: bool)

  datatype Enemy = Enemy(
    id: string, box: Box, vx: real, leftBound: real, rightBound: real, speed: real)

  datatype Command = MoveLeft | Stop | MoveRight

  datatype Event =
    | BlockDestroyed(x: real, y: real)
    | PowerUpCollected(powerUpId: string, playerId: string)
    | GateStateChanged(gateId: string, newState: GateState)
    | PlayerDied(playerId: string, cause: string)
    | LevelReset

  /** A freshly created character, every other field at its default. */
  function NewPlayer(id: string, x: real, y: real, joinIndex: int): Player {
    Player(id, x, y, 0.0, 0.0, PLAYER_WIDTH, PLAYER_HEIGHT, false, false, 0.0, 0.0, joinIndex, None)
  }

  // ---- Entity state changes -------------------------------------------------------------

  function Destroy(block: Block): Result<(Block, Event)> {
    if block.destroyed then Raised("block is already destroyed")
    else Ok((block.(destroyed := true), BlockDestroyed(block.box.x, block.box.y)))
  }

  function Collect(powerUp: PowerUp, playerId: string): Result<(PowerUp, Event)> {
    if powerUp.collected then Raised("power-up is already collected")
    else Ok((powerUp.(collected := true, owner := Some(playerId)),
             PowerUpCollected(powerUp.id, playerId)))
  }

  /** Emits an event only when the state really changes. */
  function UpdateGate(gate: Gate, shouldBeOpen: bool): (Gate, seq<Event>) {
    var newState := if shouldBeOpen then Open else Closed;
    if newState == gate.state then (gate, [])
    else (gate.(state := newState), [GateStateChanged(gate.id, newState)])
  }

  // ---- Physics and collisions -----------------------------------------------------------

  function ApplyInput(p: Player, input: Input): (r: Player)
    ensures r.id == p.id && r.joinIndex == p.joinIndex
  {
    var vx := if input.left then -MOVE_SPEED else if input.right then MOVE_SPEED else 0.0;
    var jumps := input.jump && p.onGround;
    var onGround := p.onGround && !jumps;
    p.(vx := vx, vy := if jumps then JUMP_FORCE else p.vy, onGround := onGround,
       crouching := input.down && onGround)
  }

  function Integrated(value: real, rate: real, dt: real): real { value + rate * dt }

  function ApplyPhysics(p: Player, dt: real): (r: Player)
    ensures r.id == p.id && r.joinIndex == p.joinIndex
  {
    var vy := Integrated(p.vy, GRAVITY, dt);
    p.(vy := vy, x := Integrated(p.x, p.vx, dt), y := Integrated(p.y, vy, dt))
  }

  predicate Collides(p: Player, b: Box) {
    && p.x < b.x + b.width
    && p.x + p.width > b.x
    && p.y < b.y + b.height
    && p.y + p.height > b.y
  }

  datatype Side = Top | Bottom | Left | Right

  /** The side with the least overlap; on ties the first of top, bottom, left, right. */
  function NearestSide(p: Player, b: Box): Side {
    var left := p.x + p.width - b.x;
    var right := b.x + b.width - p.x;
    var top := p.y + p.height - b.y;
    var bottom := b.y + b.height - p.y;
    if top <= bottom && top <= left && top <= right then Top
    else if bottom <= left && bottom <= right then Bottom
    else if left <= right then Left
    else Right
  }

  /** A handler that acts leaves no overlap; one that does not act changes nothing. */
  function ResolveCollision(p: Player, b: Box): (r: Player)
    ensures r.id == p.id && r.joinIndex == p.joinIndex
    ensures r == p || !Collides(r, b)
  {
    match NearestSide(p, b)
    case Top =>
      if p.vy > 0.0 && p.prevY + p.height <= b.y
      then p.(y := b.y - p.height, vy := 0.0, onGround := true) else p
    case Bottom => if p.vy < 0.0 then p.(y := b.y + b.height, vy := 0.0) else p
    case Left => if p.vx > 0.0 then p.(x := b.x - p.width, vx := 0.0) else p
    case Right => if p.vx < 0.0 then p.(x := b.x + b.width, vx := 0.0) else p
  }

  /** Pushes the player out of `b` when they overlap. */
  function PushOut(p: Player, b: Box): (r: Player)
    ensures r.id == p.id && r.joinIndex == p.joinIndex
  {
    if Collides(p, b) then ResolveCollision(p, b) else p
  }

  predicate IsHeadBump(p: Player, b: Box) {
    && p.x < b.x + b.width
    && p.x + p.width > b.x
    && p.prevY >= b.y + b.height - 4.0
    && p.y <= b.y + b.height
    && p.y + p.height > b.y
  }

  /** A landing from above: feet over the enemy's head, falling. */
  predicate IsStomp(p: Player, b: Box) {
    && p.x < b.x + b.width
    && p.x + p.width > b.x
    && p.vy > 0.0
    && p.prevY + p.height <= b.y + 4.0
  }

  predicate IsStar(powerUp: PowerUp) { "star" <= powerUp.id }

  predicate IsCoin(powerUp: PowerUp) { "coin-" <= powerUp.id }
}
