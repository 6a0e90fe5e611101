/**
 The whole server as a sequence of world updates, one per critical section of
 the world lock: a join, a move, a collision check, a respawn tick or a
 disconnect. Handling one message takes the lock twice, once to move and once
 to check collisions, so any other event may fall between those two halves;
 `Receive` is the two halves run back to back. Each event carries the random
 values and the map range order it consumes.
 */
module Server {
  import opened Wrappers
  import opened World
  import opened Factory
  import opened Movement
  import opened Collisions
  import opened Session
  import opened Scheduler

  datatype Event =
    | Join(colorIdx: nat, spawn: Draw)
    | Receive(pid: PlayerId, msg: Message, order: seq<CollectibleId>, rng: nat -> Draw)
    | MoveOnly(pid: PlayerId, dx: Option<real>, dy: Option<real>)
    | Collide(pid: PlayerId, order: seq<CollectibleId>, rng: nat -> Draw)
    | Tick(spawn: Draw)
    | Leave(pid: PlayerId)

  /** The event's random values fit the world it is applied to. */
  predicate Enabled(g: Game, e: Event)
  {
    match e
    case Join(colorIdx, _) => colorIdx < |Palette|
    case Receive(_, _, order, _) => Enumerates(order, g.collectibles.Keys)
    case Collide(_, order, _) => Enumerates(order, g.collectibles.Keys)
    case _ => true
  }

  function Step(g: Game, e: Event): (r: Game)
    requires Enabled(g, e)
  {
    match e
    case Join(colorIdx, d) => Connect(g, colorIdx, d)
    case Receive(pid, msg, order, rng) => Dispatch(g, pid, msg, order, rng)
    case MoveOnly(pid, dx, dy) => HandleMove(g, pid, dx, dy)
    case Collide(pid, order, rng) => CheckCollisions(g, pid, order, rng)
    case Tick(d) => RespawnTick(g, d)
    case Leave(pid) => Disconnect(g, pid)
  }

  /** Every event of the run is enabled in the world it meets. */
  predicate Admissible(g: Game, es: seq<Event>)
    decreases |es|
  {
    es == [] || (Enabled(g, es[0]) && Admissible(Step(g, es[0]), es[1..]))
  }

  function Run(g: Game, es: seq<Event>): Game
    requires Admissible(g, es)
    decreases |es|
  {
    if es == [] then g else Run(Step(g, es[0]), es[1..])
  }

  /**
   The relation between a world and its successor that every event keeps: the
   invariant holds after, the bounds stay, the counter never goes back, and any
   collectible not there before is numbered above the old counter.
   */
  ghost predicate Successor(g: Game, r: Game)
  {
    && Valid(r)
    && r.worldWidth == g.worldWidth && r.worldHeight == g.worldHeight
    && r.collectibleId >= g.collectibleId
    && (forall id :: id in r.collectibles && id !in g.collectibles ==> id.n > g.collectibleId)
  }

  /** A handled message is a successor step that keeps the number of collectibles. */
  lemma ReceiveIsSuccessor(g: Game, pid: PlayerId, msg: Message, order: seq<CollectibleId>, rng: nat -> Draw)
    requires Valid(g) && Enumerates(order, g.collectibles.Keys)
    ensures Successor(g, Dispatch(g, pid, msg, order, rng))
    ensures |Dispatch(g, pid, msg, order, rng).collectibles| == |g.collectibles|
  {
    DispatchKeepsInvariant(g, pid, msg, order, rng);
    match msg
    case Move(dx, dy) => CheckCollisionsMintsAboveCounter(HandleMove(g, pid, dx, dy), pid, order, rng);
    case Other => CheckCollisionsMintsAboveCounter(g, pid, order, rng);
    case DecodeError =>
  }

  /**
   Handling a move message atomically is the same as its two critical sections
   run back to back: the move, then the collision check. So every run that
   uses `Receive` is also a run of the finer events.
   */
  lemma ReceiveIsMoveThenCollide(g: Game, pid: PlayerId, dx: Option<real>, dy: Option<real>,
                                 order: seq<CollectibleId>, rng: nat -> Draw)
    requires Enumerates(order, g.collectibles.Keys)
    ensures var g1 := Step(g, MoveOnly(pid, dx, dy));
            && Enabled(g1, Collide(pid, order, rng))
            && Step(g1, Collide(pid, order, rng)) == Step(g, Receive(pid, Move(dx, dy), order, rng))
    ensures Admissible(g, [MoveOnly(pid, dx, dy), Collide(pid, order, rng)])
  {
    var es := [MoveOnly(pid, dx, dy), Collide(pid, order, rng)];
    assert es[1..][1..] == [];
  }

  /**
   Every event is a successor step; a handled message, a move and a collision
   check each leave the number of collectibles as it was.
   */
  lemma StepKeepsInvariant(g: Game, e: Event)
    requires Valid(g) && Enabled(g, e)
    ensures Successor(g, Step(g, e))
    ensures e.Receive? || e.MoveOnly? || e.Collide? ==> |Step(g, e).collectibles| == |g.collectibles|
  {
    match e
    case Receive(pid, msg, order, rng) => ReceiveIsSuccessor(g, pid, msg, order, rng);
    case MoveOnly(pid, dx, dy) =>
    case Collide(pid, order, rng) => ReceiveIsSuccessor(g, pid, Other, order, rng);
    case Join(colorIdx, d) =>
    case Tick(d) =>
    case Leave(pid) =>
  }

  /**
   Any admissible run of events keeps the world invariant: every player stays
   inside the arena, every score stays non-negative, and every collectible
   number stays within the counter.
   */
  lemma {:induction false} RunKeepsInvariant(g: Game, es: seq<Event>)
    requires Valid(g) && Admissible(g, es)
    ensures Valid(Run(g, es))
    ensures Run(g, es).collectibleId >= g.collectibleId
    ensures forall id :: id in Run(g, es).collectibles && id !in g.collectibles ==> id.n > g.collectibleId
    decreases |es|
  {
    if es != [] {
      var g1 := Step(g, es[0]);
      StepKeepsInvariant(g, es[0]);
      RunKeepsInvariant(g1, es[1..]);
    }
  }

  /**
   Collectibles are never revived: an id that was handed out (its number is
   within the counter) and is no longer present never reappears in any later
   world of the run.
   */
  lemma NoRevival(g: Game, es: seq<Event>, id: CollectibleId)
    requires Valid(g) && Admissible(g, es)
    requires id.n <= g.collectibleId && id !in g.collectibles
    ensures id !in Run(g, es).collectibles
  {
    RunKeepsInvariant(g, es);
  }

  /**
   From the startup world of five collectibles, the number of collectibles is
   five after any admissible run: pickups replace one for one and the ticker
   only tops up below five.
   */
  lemma {:induction false} RunKeepsFiveCollectibles(g: Game, es: seq<Event>)
    requires Valid(g) && |g.collectibles| == CollectibleFloor && Admissible(g, es)
    ensures |Run(g, es).collectibles| == CollectibleFloor
    decreases |es|
  {
    if es != [] {
      StepKeepsInvariant(g, es[0]);
      RunKeepsFiveCollectibles(Step(g, es[0]), es[1..]);
    }
  }
}
