/**
 The per-connection steps of the server with the socket stripped off: joining
 (a player id is generated and a new player inserted), handling one inbound
 message, and removal on disconnect. Reading frames and writing state
 snapshots are I/O and are not modelled; a message arrives already decoded.
 */
module Session {
  import opened Wrappers
  import opened World
  import opened Factory
  import opened Movement
  import opened Collisions

  /**
   An inbound message after JSON decoding: a move with whatever numeric `dx`
   and `dy` the payload held, a message of any other type, or a payload that
   did not decode at all.
   */
  datatype Message =
    | Move(dx: Option<real>, dy: Option<real>)
    | Other
    | DecodeError

  /**
   A new connection: the id is `player_<number of players + 1>` and the new
   player is stored under it, replacing whatever was stored there. Nothing but
   that one entry of the player map changes.
   */
  function Connect(g: Game, colorIdx: nat, d: Draw): (r: Game)
    requires colorIdx < |Palette|
    ensures var id := GeneratePlayerId(g);
            && id in r.players
            && r.players[id].id == id && r.players[id].score == 0
            && r.players[id].radius == PlayerRadius && r.players[id].color in Palette
            && r.players.Keys == g.players.Keys + {id}
            && (forall q :: q in g.players && q != id ==> r.players[q] == g.players[q])
    ensures r.collectibles == g.collectibles && r.collectibleId == g.collectibleId
    ensures r.worldWidth == g.worldWidth && r.worldHeight == g.worldHeight
    ensures Valid(g) ==> Valid(r)
  {
    var id := GeneratePlayerId(g);
    g.(players := g.players[id := CreateNewPlayer(id, colorIdx, d, g.worldWidth, g.worldHeight)])
  }

  /**
   A join adds a player exactly when the generated id is not already live; when
   it is live, the existing player is overwritten and the count stays the same.
   */
  lemma ConnectGrowsIffIdFree(g: Game, colorIdx: nat, d: Draw)
    requires colorIdx < |Palette|
    ensures |Connect(g, colorIdx, d).players| == |g.players| + 1 <==> GeneratePlayerId(g) !in g.players
    ensures GeneratePlayerId(g) in g.players ==> |Connect(g, colorIdx, d).players| == |g.players|
  {
    var r := Connect(g, colorIdx, d);
    var id := GeneratePlayerId(g);
    if id in g.players {
      assert r.players.Keys == g.players.Keys;
    } else {
      assert |r.players.Keys| == |g.players.Keys + {id}|;
    }
  }

  /**
   The effect of one decoded message from player `pid`. A decode failure is
   dropped with no further effect. A move is applied first; then, for a move
   and for a message of any other type alike, the collision check runs, so the
   sender collects what it overlaps at its (possibly new) position.
   */
  function Dispatch(g: Game, pid: PlayerId, msg: Message, order: seq<CollectibleId>, rng: nat -> Draw): (r: Game)
    requires Enumerates(order, g.collectibles.Keys)
    ensures msg.DecodeError? ==> r == g
    ensures pid !in g.players ==> r == g
    ensures r.players.Keys == g.players.Keys
    ensures forall q :: q in g.players && q != pid ==> r.players[q] == g.players[q]
    ensures r.worldWidth == g.worldWidth && r.worldHeight == g.worldHeight
    ensures msg.Other? && pid in g.players ==>
              var p := g.players[pid];
              r.players[pid] == p.(score := p.score + PointsOf(g.collectibles, HitSet(p, g.collectibles)))
    ensures msg.Move? && pid in g.players ==>
              var p := g.players[pid];
              var moved := HandleMove(g, pid, msg.dx, msg.dy).players[pid];
              r.players[pid] == moved.(score := p.score + PointsOf(g.collectibles, HitSet(moved, g.collectibles)))
  {
    match msg
    case DecodeError => g
    case Move(dx, dy) => CheckCollisions(HandleMove(g, pid, dx, dy), pid, order, rng)
    case Other => CheckCollisions(g, pid, order, rng)
  }

  /**
   A handled message keeps the world invariant, never lowers the sender's
   score, and leaves the number of collectibles as it was.
   */
  lemma DispatchKeepsInvariant(g: Game, pid: PlayerId, msg: Message, order: seq<CollectibleId>, rng: nat -> Draw)
    requires Enumerates(order, g.collectibles.Keys)
    requires Valid(g)
    ensures var r := Dispatch(g, pid, msg, order, rng);
            && Valid(r)
            && |r.collectibles| == |g.collectibles|
            && (pid in g.players ==> r.players[pid].score >= g.players[pid].score)
  {
    var g1 := match msg
      case Move(dx, dy) => HandleMove(g, pid, dx, dy)
      case _ => g;
    if !msg.DecodeError? {
      assert Dispatch(g, pid, msg, order, rng) == CheckCollisions(g1, pid, order, rng);
      CheckCollisionsKeepsValid(g1, pid, order, rng);
      if pid in g.players {
        PickupReplacesHits(g1, pid, order, rng);
        ScoreNeverDecreases(g1, pid, order, rng);
      }
    }
  }

  /** Disconnect: exactly `pid` leaves the player map; nothing else changes. */
  function Disconnect(g: Game, pid: PlayerId): (r: Game)
    ensures pid !in r.players
    ensures r.players.Keys == g.players.Keys - {pid}
    ensures forall q :: q in r.players ==> r.players[q] == g.players[q]
    ensures r.collectibles == g.collectibles && r.collectibleId == g.collectibleId
    ensures r.worldWidth == g.worldWidth && r.worldHeight == g.worldHeight
    ensures Valid(g) ==> Valid(r)
  {
    g.(players := g.players - {pid})
  }

  /**
   Player ids are not unique over time: after player_1 leaves, the next join is
   given player_2 again, the id of a player still connected, and the player
   count does not grow.
   */
  lemma JoinCanReuseLiveId(d: Draw)
    ensures var g1 := Connect(EmptyGame(), 0, d);
            var g2 := Connect(g1, 0, d);
            var g3 := Disconnect(g2, PlayerId(1));
            var g4 := Connect(g3, 0, d);
            && GeneratePlayerId(g3) == PlayerId(2)
            && PlayerId(2) in g3.players
            && |g4.players| == |g3.players|
  {
    var g1 := Connect(EmptyGame(), 0, d);
    assert g1.players.Keys == {PlayerId(1)};
    var g2 := Connect(g1, 0, d);
    assert g2.players.Keys == {PlayerId(1), PlayerId(2)};
    var g3 := Disconnect(g2, PlayerId(1));
    assert g3.players.Keys == {PlayerId(2)};
    ConnectGrowsIffIdFree(g3, 0, d);
  }

  /**
   A join handed the id of a live player replaces that player with a fresh one:
   whatever score it had collected is lost.
   */
  lemma JoinResetsLiveScore(g: Game, colorIdx: nat, d: Draw)
    requires colorIdx < |Palette|
    requires GeneratePlayerId(g) in g.players && g.players[GeneratePlayerId(g)].score > 0
    ensures var id := GeneratePlayerId(g);
            Connect(g, colorIdx, d).players[id].score == 0 < g.players[id].score
  {
  }

  /**
   The pickup scenario: in an 800 x 600 arena a player at (100, 100) with radius
   20 sends a zero move while the only collectible, worth 10 points with radius
   10, sits at (105, 100). The score becomes 10, the collectible is gone, and
   exactly one collectible with a new id takes its place.
   */
  lemma PickupScenario(g: Game, rng: nat -> Draw)
    requires g.worldWidth == 800.0 && g.worldHeight == 600.0 && g.collectibleId == 1
    requires g.players == map[PlayerId(1) := Player(PlayerId(1), 100.0, 100.0, 0, 20.0, Palette[0], Velocity(0.0, 0.0))]
    requires g.collectibles == map[CollectibleId(1) := Collectible(CollectibleId(1), 105.0, 100.0, 10.0, CollectibleColor, 10)]
    ensures var r := Dispatch(g, PlayerId(1), Move(Some(0.0), Some(0.0)), [CollectibleId(1)], rng);
            && r.players[PlayerId(1)].score == 10
            && CollectibleId(1) !in r.collectibles
            && r.collectibles.Keys == {CollectibleId(2)}
  {
    var pid, cid := PlayerId(1), CollectibleId(1);
    var p, c := g.players[pid], g.collectibles[cid];
    var order := [cid];
    assert Enumerates(order, g.collectibles.Keys);
    assert HandleMove(g, pid, Some(0.0), Some(0.0)) == g;
    assert SquaredDistance(p, c) == 25.0;
    var hits := HitSet(p, g.collectibles);
    assert hits == {cid};
    assert PointsOf(g.collectibles, hits) == 10 by {
      PointsOfRemove(g.collectibles, hits, cid);
      assert hits - {cid} == {};
    }
    PickupReplacesHits(g, pid, order, rng);
  }
}
