/** application/agent_integration.py: bounded queues between the game and its agents, and the rule
    that no enemy acts on an observation that is too old. */
module AgentActions {
  import opened Prelude
  import opened Config
  import E = Entities
  import Simulation
  import Confinement
  import opened GameEngineModel

  // ---- A bounded queue that forgets its oldest item ---------------------------------------

  /** `submitted` and `taken` remember every item ever put in and how many were handed out. */
  class LatestQueue<T> {
    const capacity: nat
    var items: seq<T>
    var dropped: nat
    ghost var submitted: seq<T>
    ghost var taken: nat

    /** The queue holds the most recent undrained items in order, and every item is waiting, handed
        out, or counted as dropped. */
    ghost predicate Valid()
      reads this
    {
      && 0 < capacity && |items| <= capacity && |items| <= |submitted|
      && items == submitted[|submitted| - |items|..]
      && |submitted| == taken + dropped + |items|
    }

    constructor (capacity: nat)
      requires capacity > 0
      ensures Valid() && this.capacity == capacity && items == [] && dropped == 0 && submitted == [] && taken == 0
    {
      this.capacity := capacity;
      items, dropped, submitted, taken := [], 0, [], 0;
    }

    /** Never blocks: makes room by discarding the oldest item when the queue is full. */
    method PutLatest(value: T)
      requires Valid()
      modifies this
      ensures Valid() && submitted == old(submitted) + [value] && taken == old(taken)
      ensures items == (if |old(items)| < capacity then old(items) else old(items)[1..]) + [value]
      ensures dropped == old(dropped) + (if |old(items)| < capacity then 0 else 1)
    {
      while |items| >= capacity
        invariant |items| <= |old(items)| && dropped - old(dropped) == |old(items)| - |items|
        invariant items == old(items)[dropped - old(dropped)..]
        invariant |old(items)| < capacity ==> dropped == old(dropped)
        invariant |items| >= capacity - 1 || dropped == old(dropped)
        invariant submitted == old(submitted) && taken == old(taken)
        decreases |items|
      {
        items := items[1..];
        dropped := dropped + 1;
      }
      items := items + [value];
      submitted := submitted + [value];
    }

    method GetNowait() returns (value: Option<T>)
      requires Valid()
      modifies this
      ensures Valid() && submitted == old(submitted) && dropped == old(dropped)
      ensures old(items) == [] ==> value == None && items == [] && taken == old(taken)
      ensures old(items) != [] ==> value == Some(old(items)[0]) && items == old(items)[1..] && taken == old(taken) + 1
    {
      if items == [] { return None; }
      value := Some(items[0]);
      items := items[1..];
      taken := taken + 1;
    }
  }

  // ---- Requests ---------------------------------------------------------------------------

  datatype Action = MoveLeft | MoveRight | Stop | Jump

  datatype Status = Applied | Unsupported | InvalidTarget | Disabled

  /** `observed` is the simulation sequence the agent saw, if it says so. */
  datatype Request = Request(enemyId: string, action: Action, observed: Option<int>)

  function Translate(a: Action): (E.Command, Status) {
    match a
    case MoveLeft => (E.Command.MoveLeft, Applied)
    case MoveRight => (E.Command.MoveRight, Applied)
    case Stop => (E.Command.Stop, Applied)
    case Jump => (E.Command.Stop, Unsupported)
  }

  /** The integration's memory: enemies under SPADE control and the latest request kept for each. */
  datatype Desk = Desk(controlled: set<string>, latest: map<string, Request>)

  predicate Acceptable(controlled: set<string>, maxAge: nat, r: Request, current: int) {
    && r.enemyId in controlled
    && r.observed.Some?
    && r.observed.value <= current
    && current - r.observed.value <= maxAge
  }

  function Offered(d: Desk, maxAge: nat, r: Request, current: int): Desk {
    if !Acceptable(d.controlled, maxAge, r, current) then d
    else if r.enemyId in d.latest && d.latest[r.enemyId].observed.Some?
            && r.observed.value < d.latest[r.enemyId].observed.value then d
    else d.(latest := d.latest[r.enemyId := r])
  }

  function OfferedAll(d: Desk, maxAge: nat, rs: seq<Request>, current: int): Desk {
    if rs == [] then d
    else Offered(OfferedAll(d, maxAge, rs[..|rs| - 1], current), maxAge, rs[|rs| - 1], current)
  }

  predicate Usable(d: Desk, maxAge: nat, id: string, current: int) {
    id in d.latest && d.latest[id].observed.Some? && current - d.latest[id].observed.value <= maxAge
  }

  function ActionFor(d: Desk, maxAge: nat, id: string, current: int): Request {
    if Usable(d, maxAge, id, current) then d.latest[id] else Request(id, Stop, None)
  }

  /** Asking for an expired request also forgets it. */
  function Asked(d: Desk, maxAge: nat, id: string, current: int): Desk {
    if Usable(d, maxAge, id, current) then d else d.(latest := d.latest - {id})
  }

  // ---- The newest accepted request --------------------------------------------------------

  /** The newest observation among the requests of one enemy, the later arrival on ties. */
  function NewestOf(log: seq<Request>, id: string): (r: Option<Request>)
    ensures r.Some? ==> r.value.enemyId == id && r.value.observed.Some?
  {
    if log == [] then None
    else
      var before, last := NewestOf(log[..|log| - 1], id), log[|log| - 1];
      if last.enemyId != id || last.observed.None? then before
      else if before.Some? && last.observed.value < before.value.observed.value then before
      else Some(last)
  }

  /** Request k of this enemy is at least as new as all its others and newer than the later ones. */
  predicate NewestAt(log: seq<Request>, id: string, k: int) {
    && 0 <= k < |log| && log[k].enemyId == id && log[k].observed.Some?
    && forall i :: 0 <= i < |log| && log[i].enemyId == id && log[i].observed.Some? ==>
         && log[i].observed.value <= log[k].observed.value
         && (i > k ==> log[i].observed.value < log[k].observed.value)
  }

  lemma {:induction false} NewestOfIsNewest(log: seq<Request>, id: string)
    ensures var r := NewestOf(log, id);
            && (r.None? ==> forall i :: 0 <= i < |log| ==> log[i].enemyId != id || log[i].observed.None?)
            && (r.Some? ==> exists k :: 0 <= k < |log| && log[k] == r.value && NewestAt(log, id, k))
  {
    if log != [] {
      var n := |log| - 1;
      var before := log[..n];
      NewestOfIsNewest(before, id);
      var b, r := NewestOf(before, id), NewestOf(log, id);
      assert forall i :: 0 <= i < n ==> before[i] == log[i];
      if r.Some? {
        if r == b {
          var k :| 0 <= k < |before| && before[k] == b.value && NewestAt(before, id, k);
          assert log[k] == r.value;
          if log[n].enemyId == id && log[n].observed.Some? && log[n].observed.value >= b.value.observed.value {
            assert NewestAt(log, id, n) && log[n] == r.value;
          } else {
            assert NewestAt(log, id, k);
          }
        } else {
          assert NewestAt(log, id, n) && log[n] == r.value;
        }
      }
    }
  }

  /** What the desk remembers, against the log of every acceptable request since the enemy came
      under control: the newest one, unless that one had already expired by sequence `seen`. */
  ghost predicate Remembers(d: Desk, maxAge: nat, log: seq<Request>, seen: int) {
    && (forall i :: 0 <= i < |log| ==> log[i].observed.Some? && log[i].observed.value <= seen)
    && forall id ::
         var newest := NewestOf(log, id);
         if id in d.latest then newest == Some(d.latest[id])
         else newest.Some? ==> seen - newest.value.observed.value > maxAge
  }

  lemma OfferKeepsMemory(d: Desk, maxAge: nat, log: seq<Request>, seen: int, r: Request, current: int)
    requires Remembers(d, maxAge, log, seen) && seen <= current
    ensures var log' := if Acceptable(d.controlled, maxAge, r, current) then log + [r] else log;
            Remembers(Offered(d, maxAge, r, current), maxAge, log', current)
  {
    if Acceptable(d.controlled, maxAge, r, current) {
      var log', after := log + [r], Offered(d, maxAge, r, current);
      assert log'[..|log|] == log;
      forall id
        ensures var newest := NewestOf(log', id);
                if id in after.latest then newest == Some(after.latest[id])
                else newest.Some? ==> current - newest.value.observed.value > maxAge
      {
        var before := NewestOf(log, id);
      }
    }
  }

  /** The acceptable requests of a batch, in order of arrival. */
  function AcceptedOf(controlled: set<string>, maxAge: nat, rs: seq<Request>, current: int): seq<Request> {
    if rs == [] then []
    else
      var last := rs[|rs| - 1];
      AcceptedOf(controlled, maxAge, rs[..|rs| - 1], current)
        + (if Acceptable(controlled, maxAge, last, current) then [last] else [])
  }

  lemma {:induction false} OffersKeepMemory(d: Desk, maxAge: nat, log: seq<Request>, seen: int, rs: seq<Request>,
      current: int)
    requires Remembers(d, maxAge, log, seen) && seen <= current
    ensures Remembers(OfferedAll(d, maxAge, rs, current), maxAge, log + AcceptedOf(d.controlled, maxAge, rs, current),
        current)
    ensures OfferedAll(d, maxAge, rs, current).controlled == d.controlled
  {
    if rs == [] {
      assert log + AcceptedOf(d.controlled, maxAge, rs, current) == log;
    } else {
      var front := rs[..|rs| - 1];
      OffersKeepMemory(d, maxAge, log, seen, front, current);
      var mid, midLog := OfferedAll(d, maxAge, front, current), log + AcceptedOf(d.controlled, maxAge, front, current);
      OfferKeepsMemory(mid, maxAge, midLog, current, rs[|rs| - 1], current);
      var last := rs[|rs| - 1];
      if Acceptable(d.controlled, maxAge, last, current) {
        assert log + AcceptedOf(d.controlled, maxAge, rs, current) == midLog + [last];
      } else {
        assert AcceptedOf(d.controlled, maxAge, rs, current) == AcceptedOf(d.controlled, maxAge, front, current);
      }
    }
  }

  lemma AskingKeepsMemory(d: Desk, maxAge: nat, log: seq<Request>, seen: int, id: string)
    requires Remembers(d, maxAge, log, seen)
    ensures Remembers(Asked(d, maxAge, id, seen), maxAge, log, seen)
  {
  }

  /** The request executed at sequence `current` is the newest accepted one if it is at most `maxAge`
      ticks old, and STOP otherwise; it never comes from the future. */
  lemma ExecutedActionIsFresh(d: Desk, maxAge: nat, log: seq<Request>, current: int, id: string)
    requires Remembers(d, maxAge, log, current)
    ensures var newest, done := NewestOf(log, id), ActionFor(d, maxAge, id, current);
            if newest.Some? && current - newest.value.observed.value <= maxAge
            then done == newest.value && 0 <= current - done.observed.value <= maxAge
            else done == Request(id, Stop, None)
  {
    NewestOfIsNewest(log, id);
  }

  // ---- From requests to engine commands -----------------------------------------------------

  predicate HasEnemy(es: seq<E.Enemy>, id: string) { exists i :: 0 <= i < |es| && es[i].id == id }

  /** What decides an enemy's next step: a request made for this tick, its fixed controller, or the
      agents' latest request. */
  function Chosen(d: Desk, fixed: map<string, Action>, maxAge: nat, requests: map<string, Request>, id: string,
      current: int): Request
  {
    if id in requests then requests[id]
    else if id in fixed then Request(id, fixed[id], None)
    else ActionFor(d, maxAge, id, current)
  }

  /** A request for another enemy stops this one. */
  function CommandFor(r: Request, id: string): E.Command {
    if r.enemyId != id then E.Command.Stop else Translate(r.action).0
  }

  /** The commands of a tick: for every controlled enemy that exists, and for no other. */
  function Commands(d: Desk, fixed: map<string, Action>, maxAge: nat, requests: map<string, Request>,
                    ids: set<string>, es: seq<E.Enemy>, current: int): map<string, E.Command>
  {
    map id | id in ids && HasEnemy(es, id) :: CommandFor(Chosen(d, fixed, maxAge, requests, id, current), id)
  }

  function ResultFor(d: Desk, fixed: map<string, Action>, maxAge: nat, requests: map<string, Request>,
                     es: seq<E.Enemy>, id: string, current: int): Status
  {
    if !HasEnemy(es, id) then InvalidTarget
    else
      var r := Chosen(d, fixed, maxAge, requests, id, current);
      if r.enemyId != id then InvalidTarget else Translate(r.action).1
  }

  function ControlledResults(d: Desk, fixed: map<string, Action>, maxAge: nat, requests: map<string, Request>,
                             ids: set<string>, es: seq<E.Enemy>, current: int): map<string, Status>
  {
    map id | id in ids :: ResultFor(d, fixed, maxAge, requests, es, id, current)
  }

  /** The result of every controlled enemy and of every other request. */
  function Results(d: Desk, fixed: map<string, Action>, maxAge: nat, requests: map<string, Request>,
                   ids: set<string>, es: seq<E.Enemy>, current: int): map<string, Status>
  {
    ControlledResults(d, fixed, maxAge, requests, ids, es, current) + map id | id in requests.Keys - ids ::
        InvalidTarget
  }

  lemma OneMoreEnemy(d: Desk, fixed: map<string, Action>, maxAge: nat, requests: map<string, Request>,
                     ids: set<string>, es: seq<E.Enemy>, current: int, id: string)
    ensures Commands(d, fixed, maxAge, requests, ids + {id}, es, current)
         == if HasEnemy(es, id)
            then Commands(d, fixed, maxAge, requests, ids, es, current)
                   [id := CommandFor(Chosen(d, fixed, maxAge, requests, id, current), id)]
            else Commands(d, fixed, maxAge, requests, ids, es, current)
    ensures ControlledResults(d, fixed, maxAge, requests, ids + {id}, es, current)
         == ControlledResults(d, fixed, maxAge, requests, ids, es, current)
              [id := ResultFor(d, fixed, maxAge, requests, es, id, current)]
  {
  }

  lemma NoEnemyYet(d: Desk, fixed: map<string, Action>, maxAge: nat, requests: map<string, Request>, es: seq<E.Enemy>,
      current: int)
    ensures Commands(d, fixed, maxAge, requests, {}, es, current) == map[]
    ensures ControlledResults(d, fixed, maxAge, requests, {}, es, current) == map[]
  {
  }

  function SetOf(ids: seq<string>): set<string> { set id | id in ids }

  ghost predicate SameActions(d: Desk, e: Desk, maxAge: nat, current: int) {
    forall id :: ActionFor(d, maxAge, id, current) == ActionFor(e, maxAge, id, current)
  }

  lemma NothingAskedYet(d: Desk, maxAge: nat, current: int)
    ensures SameActions(d, d, maxAge, current)
  {
  }

  /** Forgetting an expired request changes nobody's action. */
  lemma AskingChangesNothing(d: Desk, maxAge: nat, id: string, current: int)
    ensures SameActions(Asked(d, maxAge, id, current), d, maxAge, current)
  {
  }

  /** The engine's command for an enemy left to the agents: the newest accepted request that is at most
      `maxAge` ticks old, and STOP without one. */
  lemma AgentsCommandFresh(d: Desk, fixed: map<string, Action>, maxAge: nat, requests: map<string, Request>,
      ids: set<string>, es: seq<E.Enemy>, log: seq<Request>, current: int, id: string)
    requires Remembers(d, maxAge, log, current)
    requires id in ids && HasEnemy(es, id) && id !in requests && id !in fixed
    ensures var commands, newest := Commands(d, fixed, maxAge, requests, ids, es, current), NewestOf(log, id);
      && id in commands
      && commands[id] == if newest.Some? && current - newest.value.observed.value <= maxAge
                         then Translate(newest.value.action).0 else E.Command.Stop
  {
    ExecutedActionIsFresh(d, maxAge, log, current, id);
  }

  /** What a controlled enemy is to do: what this tick's request for it says, else its fixed action, else
      its agent's newest request if that is fresh, else nothing; a request for another enemy stops it. */
  function ActionOf(fixed: map<string, Action>, maxAge: nat, requests: map<string, Request>, log: seq<Request>,
      current: int, id: string): Action
  {
    if id in requests then (if requests[id].enemyId == id then requests[id].action else Stop)
    else if id in fixed then fixed[id]
    else
      var newest := NewestOf(log, id);
      if newest.Some? && current - newest.value.observed.value <= maxAge then newest.value.action else Stop
  }

  lemma CommandIsTheAction(d: Desk, fixed: map<string, Action>, maxAge: nat, requests: map<string, Request>,
      ids: set<string>, es: seq<E.Enemy>, log: seq<Request>, current: int, id: string)
    requires Remembers(d, maxAge, log, current) && id in ids && HasEnemy(es, id)
    ensures var commands := Commands(d, fixed, maxAge, requests, ids, es, current);
      id in commands && commands[id] == match ActionOf(fixed, maxAge, requests, log, current, id)
        case MoveLeft => E.Command.MoveLeft
        case MoveRight => E.Command.MoveRight
        case _ => E.Command.Stop
  {
    ExecutedActionIsFresh(d, maxAge, log, current, id);
  }

  /** A live tick moves every controlled enemy that is left as its action says: left or right by its speed,
      up to the end of its range; otherwise it stands. */
  lemma AgentsMoveTheEnemy(d: Desk, fixed: map<string, Action>, maxAge: nat, requests: map<string, Request>,
      ids: set<string>, log: seq<Request>, s: Simulation.Sim, setup: Simulation.Setup, authoritative: bool, dt: real,
      inputs: map<string, E.Input>, clock: Simulation.Clock, f: E.Enemy)
    requires Remembers(d, maxAge, log, s.world.number) && !s.world.victory && Confinement.AllRoam(s.world.enemies)
    requires forall e :: e in s.world.enemies ==> e.speed * dt >= 0.0
    requires f.id in ids
    requires var commands := Commands(d, fixed, maxAge, requests, ids, s.world.enemies, s.world.number);
      f in Simulation.Tick(s, setup, authoritative, dt, inputs, commands, clock).world.enemies
    ensures var action := ActionOf(fixed, maxAge, requests, log, s.world.number, f.id);
      exists e :: e in s.world.enemies && Confinement.OnlyMoved(e, f) && Obeys(e, f, action, dt)
  {
    hide Simulation.Tick, Commands, NewestOf, Remembers, Confinement.AllRoam, ActionFor, ActionOf;
    var commands := Commands(d, fixed, maxAge, requests, ids, s.world.enemies, s.world.number);
    var call := Simulation.TickCall(dt, inputs, commands, clock);
    Confinement.EnemiesWalk(s, setup, authoritative, call);
    assert f in Simulation.TickBy(s, setup, authoritative, call).world.enemies;
    var e :| e in s.world.enemies && Confinement.Walks(e, f, commands, dt);
    var i :| 0 <= i < |s.world.enemies| && s.world.enemies[i] == e;
    assert s.world.enemies[i].id == f.id;
    CommandIsTheAction(d, fixed, maxAge, requests, ids, s.world.enemies, log, s.world.number, f.id);
  }

  /** Where the action takes the enemy. */
  predicate Obeys(e: E.Enemy, f: E.Enemy, action: Action, dt: real) {
    && (action == MoveLeft ==> f.box.x == Max(e.leftBound, e.box.x - e.speed * dt))
    && (action == MoveRight ==> f.box.x == Min(e.rightBound - e.box.width, e.box.x + e.speed * dt))
    && (action == Stop || action == Jump ==> f == e)
  }

  /** An enemy is reported unsupported exactly for a jump, and an enemy that does not exist or that the
      request is not for as an invalid target. */
  lemma ResultsTell(d: Desk, fixed: map<string, Action>, maxAge: nat, requests: map<string, Request>,
      ids: set<string>, es: seq<E.Enemy>, current: int, id: string)
    requires id in ids
    ensures var results := Results(d, fixed, maxAge, requests, ids, es, current);
      var r := Chosen(d, fixed, maxAge, requests, id, current);
      && id in results
      && (results[id] == InvalidTarget <==> (forall i :: 0 <= i < |es| ==> es[i].id != id) || r.enemyId != id)
      && (results[id] == Unsupported ==> r.action == Jump) && results[id] != Disabled
      && (results[id] == Applied ==> r.enemyId == id && r.action != Jump)
  {
    assert id !in requests.Keys - ids;
  }

  // ---- The integration --------------------------------------------------------------------

  class AgentGameIntegration {
    const engine: GameEngine
    const actions: LatestQueue<Request>
    const maxAge: nat
    var enabled: bool
    var controllers: map<string, Action>
    var controlled: set<string>
    var latest: map<string, Request>
    var results: map<string, Status>
    ghost var log: seq<Request>
    ghost var seen: int

    ghost function State(): Desk
      reads this
    {
      Desk(controlled, latest)
    }

    ghost predicate Valid()
      reads this, actions
    {
      actions.Valid() && Remembers(State(), maxAge, log, seen)
    }

    constructor (engine: GameEngine, maxAge: nat)
      ensures Valid() && fresh(actions) && this.engine == engine && this.maxAge == maxAge && seen == engine.world.number
      ensures !enabled && controllers == map[] && controlled == {} && latest == map[] && results == map[]
      ensures actions.capacity == AGENT_QUEUE_CAPACITY
    {
      this.engine, this.maxAge := engine, maxAge;
      actions := new LatestQueue<Request>(AGENT_QUEUE_CAPACITY);
      enabled, controllers, controlled, latest, results := false, map[], {}, map[], map[];
      log, seen := [], engine.world.number;
    }

    method DrainSpadeActions(current: int)
      requires Valid() && seen <= current
      modifies this`latest, this`log, this`seen, actions
      ensures Valid() && actions.items == [] && seen == current
      ensures State() == OfferedAll(old(State()), maxAge, old(actions.items), current)
      ensures log == old(log) + AcceptedOf(controlled, maxAge, old(actions.items), current)
    {
      ghost var queue, start := actions.items, State();
      ghost var n := 0;
      while true
        invariant n <= |queue| && actions.items == queue[n..] && actions.Valid()
        invariant State() == OfferedAll(start, maxAge, queue[..n], current)
        invariant log == old(log) && seen == old(seen)
        decreases |actions.items|
      {
        var next := actions.GetNowait();
        if next.None? { break; }
        var r := next.value;
        assert r == queue[n] && queue[..n + 1][..n] == queue[..n];
        n := n + 1;
        if r.enemyId !in controlled || r.observed.None? || r.observed.value > current
           || current - r.observed.value > maxAge { continue; }
        if r.enemyId !in latest || latest[r.enemyId].observed.None?
           || r.observed.value >= latest[r.enemyId].observed.value {
          latest := latest[r.enemyId := r];
        }
      }
      assert queue[..n] == queue;
      OffersKeepMemory(start, maxAge, log, seen, queue, current);
      log := log + AcceptedOf(controlled, maxAge, queue, current);
      seen := current;
    }

    method SpadeActionFor(id: string, current: int) returns (r: Request)
      requires Valid() && current == seen
      modifies this`latest
      ensures Valid() && State() == Asked(old(State()), maxAge, id, current)
      ensures r == ActionFor(old(State()), maxAge, id, current)
      ensures var newest := NewestOf(log, id);
              r == if newest.Some? && current - newest.value.observed.value <= maxAge then newest.value
                   else Request(id, Stop, None)
    {
      ExecutedActionIsFresh(State(), maxAge, log, current, id);
      AskingKeepsMemory(State(), maxAge, log, seen, id);
      if id !in latest || latest[id].observed.None? || current - latest[id].observed.value > maxAge {
        latest := latest - {id};
        return Request(id, Stop, None);
      }
      return latest[id];
    }

    /** A fixed action takes the enemy over; what the agents said about it is kept. */
    method ControlEnemy(id: string, action: Action) returns (r: Result<()>)
      requires Valid()
      modifies this`controllers, this`controlled
      ensures Valid()
      ensures r.Ok? <==> HasEnemy(engine.world.enemies, id)
      ensures controllers == if r.Ok? then old(controllers)[id := action] else old(controllers)
      ensures controlled == if r.Ok? then old(controlled) - {id} else old(controlled)
    {
      if !HasEnemy(engine.world.enemies, id) { return Raised("Enemy does not exist"); }
      controlled := controlled - {id};
      controllers := controllers[id := action];
      return Ok(());
    }

    method ControlEnemyWithSpade(id: string) returns (r: Result<()>)
      requires Valid()
      modifies this`controlled
      ensures Valid()
      ensures r.Ok? <==> HasEnemy(engine.world.enemies, id) && id !in controllers
      ensures controlled == if r.Ok? then old(controlled) + {id} else old(controlled)
    {
      if !HasEnemy(engine.world.enemies, id) { return Raised("Enemy does not exist"); }
      if id in controllers { return Raised("Enemy already has a synchronous controller"); }
      controlled := controlled + {id};
      return Ok(());
    }

    /** Everything known about the enemy is forgotten. */
    method ReleaseEnemy(id: string)
      requires Valid()
      modifies this`controllers, this`controlled, this`latest, this`log
      ensures Valid() && controllers == old(controllers) - {id}
      ensures controlled == old(controlled) - {id} && latest == old(latest) - {id}
      ensures log == Without(old(log), id)
    {
      OnlyThisEnemyForgotten(log, id);
      controllers := controllers - {id};
      controlled := controlled - {id};
      latest := latest - {id};
      log := Without(log, id);
      assert forall i :: 0 <= i < |log| ==> log[i] in old(log);
    }

    /** One tick of the game. With the agents switched off every queued and remembered request is
        dropped and the enemies patrol; otherwise the waiting requests are taken in, every controlled
        enemy that exists gets exactly one command, and the engine ticks with them. `order` is the
        order in which the controlled enemies are visited. */
    method Tick(dt: real, inputs: map<string, E.Input>, requests: map<string, Request>, order: seq<string>,
        clock: Simulation.Clock)
      requires Valid() && seen <= engine.world.number
      requires forall id :: id in order <==> id in controllers.Keys + controlled
      modifies this`latest, this`log, this`seen, this`results, actions, engine
      ensures Valid() && actions.items == []
      ensures enabled ==> log == old(log) + AcceptedOf(controlled, maxAge, old(actions.items), old(engine.world.number))
      ensures !enabled ==> latest == map[] && log == []
      ensures var current, ids := old(engine.world.number), controllers.Keys + controlled;
        var desk := OfferedAll(old(State()), maxAge, old(actions.items), current);
        var commands := if enabled then Commands(desk, controllers, maxAge, requests, ids, old(engine.world.enemies),
            current) else map[];
        && engine.Sim() == Simulation.Tick(old(engine.Sim()), engine.setup, engine.isAuthoritative, dt, inputs,
             commands, clock)
        && results == if enabled then Results(desk, controllers, maxAge, requests, ids, old(engine.world.enemies),
             current)
                      else map id | id in requests :: Disabled
    {
      if enabled {
        EnabledTick(dt, inputs, requests, order, clock);
      } else {
        DisabledTick(dt, inputs, requests, clock);
      }
    }

    method DisabledTick(dt: real, inputs: map<string, E.Input>, requests: map<string, Request>, clock: Simulation.Clock)
      requires Valid()
      modifies this`latest, this`log, this`results, actions, engine
      ensures Valid() && latest == map[] && log == [] && actions.items == []
      ensures engine.Sim() == Simulation.Tick(old(engine.Sim()), engine.setup, engine.isAuthoritative, dt, inputs,
          map[], clock)
      ensures results == map id | id in requests :: Disabled
    {
      hide Simulation.Tick;
      Discard();
      engine.Tick(dt, inputs, map[], clock);
      results := map id | id in requests :: Disabled;
    }

    method EnabledTick(dt: real, inputs: map<string, E.Input>, requests: map<string, Request>, order: seq<string>,
        clock: Simulation.Clock)
      requires Valid() && seen <= engine.world.number
      requires forall id :: id in order <==> id in controllers.Keys + controlled
      modifies this`latest, this`log, this`seen, this`results, actions, engine
      ensures Valid() && actions.items == []
      ensures log == old(log) + AcceptedOf(controlled, maxAge, old(actions.items), old(engine.world.number))
      ensures var current, ids := old(engine.world.number), controllers.Keys + controlled;
        var desk := OfferedAll(old(State()), maxAge, old(actions.items), current);
        && engine.Sim() == Simulation.Tick(old(engine.Sim()), engine.setup, engine.isAuthoritative, dt, inputs,
             Commands(desk, controllers, maxAge, requests, ids, old(engine.world.enemies), current), clock)
        && results == Results(desk, controllers, maxAge, requests, ids, old(engine.world.enemies), current)
    {
      hide Simulation.Tick, Commands, Results, Remembers, OfferedAll, AcceptedOf;
      var current := engine.world.number;
      DrainSpadeActions(current);
      var directions := Decide(requests, order, current);
      engine.Tick(dt, inputs, directions, clock);
    }

    method Discard()
      requires Valid()
      modifies this`latest, this`log, actions
      ensures Valid() && latest == map[] && log == [] && actions.items == []
    {
      latest, log := map[], [];
      while true
        invariant actions.Valid() && latest == map[] && log == []
        decreases |actions.items|
      {
        var next := actions.GetNowait();
        if next.None? { break; }
      }
    }

    /** Goes through the controlled enemies; the results of the tick are known once it has. */
    method Decide(requests: map<string, Request>, order: seq<string>, current: int) 
      returns (directions: map<string, E.Command>)
      requires Valid() && current == seen
      requires forall id :: id in order <==> id in controllers.Keys + controlled
      modifies this`latest, this`results
      ensures Valid()
      ensures directions == Commands(old(State()), controllers, maxAge, requests, controllers.Keys + controlled,
          engine.world.enemies, current)
      ensures results == Results(old(State()), controllers, maxAge, requests, controllers.Keys + controlled,
          engine.world.enemies, current)
    {
      hide Commands, ControlledResults, HasEnemy, ActionFor, Chosen, ResultFor, CommandFor, Remembers, SameActions;
      directions := map[];
      var pending: map<string, Status> := map[];
      ghost var desk := State();
      NothingAskedYet(desk, maxAge, current);
      NoEnemyYet(desk, controllers, maxAge, requests, engine.world.enemies, current);
      var k := 0;
      assert SetOf(order[..k]) == {};
      while k < |order|
        invariant 0 <= k <= |order| && Valid()
        invariant SameActions(State(), desk, maxAge, current)
        invariant directions == Commands(desk, controllers, maxAge, requests, SetOf(order[..k]), engine.world.enemies,
            current)
        invariant pending == ControlledResults(desk, controllers, maxAge, requests, SetOf(order[..k]),
            engine.world.enemies, current)
      {
        var id := order[k];
        assert SetOf(order[..k + 1]) == SetOf(order[..k]) + {id};
        OneMoreEnemy(desk, controllers, maxAge, requests, SetOf(order[..k]), engine.world.enemies, current, id);
        var command, status := DecideOne(requests, id, current, desk);
        pending := pending[id := status];
        if command.Some? { directions := directions[id := command.value]; }
        k := k + 1;
      }
      assert order[..k] == order;
      assert SetOf(order) == controllers.Keys + controlled;
      results := pending + map id | id in requests.Keys - (controllers.Keys + controlled) :: InvalidTarget;
    }

    /** One enemy: its command, unless it does not exist, and its result. */
    method DecideOne(requests: map<string, Request>, id: string, current: int, ghost desk: Desk)
      returns (command: Option<E.Command>, status: Status)
      requires Valid() && current == seen && SameActions(State(), desk, maxAge, current)
      modifies this`latest
      ensures Valid() && SameActions(State(), desk, maxAge, current)
      ensures command == if HasEnemy(engine.world.enemies, id)
                         then Some(CommandFor(Chosen(desk, controllers, maxAge, requests, id, current), id)) else None
      ensures status == ResultFor(desk, controllers, maxAge, requests, engine.world.enemies, id, current)
    {
      if !HasEnemy(engine.world.enemies, id) { return None, InvalidTarget; }
      var request := Choose(requests, id, current);
      if request.enemyId != id { return Some(E.Command.Stop), InvalidTarget; }
      var (engineCommand, result) := Translate(request.action);
      return Some(engineCommand), result;
    }

    method Choose(requests: map<string, Request>, id: string, current: int) returns (r: Request)
      requires Valid() && current == seen
      modifies this`latest
      ensures Valid() && r == Chosen(old(State()), controllers, maxAge, requests, id, current)
      ensures SameActions(State(), old(State()), maxAge, current)
    {
      if id in requests { return requests[id]; }
      if id in controllers { return Request(id, controllers[id], None); }
      AskingChangesNothing(State(), maxAge, id, current);
      r := SpadeActionFor(id, current);
    }
  }

  function Without(log: seq<Request>, id: string): seq<Request> {
    if log == [] then []
    else
      var last := log[|log| - 1];
      Without(log[..|log| - 1], id) + (if last.enemyId == id then [] else [last])
  }

  lemma {:induction false} OnlyThisEnemyForgotten(log: seq<Request>, id: string)
    ensures forall other :: NewestOf(Without(log, id), other) == if other == id then None else NewestOf(log, other)
    ensures forall r :: r in Without(log, id) ==> r in log
  {
    if log != [] {
      var n := |log| - 1;
      OnlyThisEnemyForgotten(log[..n], id);
      var w := Without(log[..n], id);
      if log[n].enemyId != id {
        assert (w + [log[n]])[..|w|] == w;
      } else {
        assert Without(log, id) == w;
      }
    }
  }
}
