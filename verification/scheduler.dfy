/**
 The background respawn task: on every tick, while fewer than five
 collectibles exist, exactly one is spawned. The ticker and the goroutine are
 not modelled; one tick is one call.
 */
module Scheduler {
  import opened World
  import opened Factory

  /**
   One tick. Below the floor the counter advances by one and one standard
   collectible is added, so (when every present id was minted earlier) the
   count grows by exactly one; at or above the floor nothing changes.
   */
  function RespawnTick(g: Game, d: Draw): (r: Game)
    ensures |g.collectibles| >= CollectibleFloor ==> r == g
    ensures |g.collectibles| < CollectibleFloor ==>
              && r.collectibleId == g.collectibleId + 1
              && r.collectibles.Keys == g.collectibles.Keys + {CollectibleId(r.collectibleId)}
              && IsStandard(r.collectibles[CollectibleId(r.collectibleId)])
    ensures IdsMinted(g) && |g.collectibles| < CollectibleFloor ==> |r.collectibles| == |g.collectibles| + 1
    ensures r.players == g.players
    ensures IdsMinted(g) ==> IdsMinted(r)
    ensures Valid(g) ==> Valid(r)
  {
    if |g.collectibles| < CollectibleFloor then
      assert Valid(g) ==> Valid(SpawnNewCollectible(g, d)) by {
        if Valid(g) {
          SpawnKeepsValid(g, d);
        }
      }
      assert IdsMinted(g) ==> |SpawnNewCollectible(g, d).collectibles| == |g.collectibles| + 1
                              && IdsMinted(SpawnNewCollectible(g, d)) by {
        if IdsMinted(g) {
          SpawnMintsFreshId(g, d);
        }
      }
      SpawnNewCollectible(g, d)
    else g
  }

  /** A run of ticks, one per draw. */
  function RespawnTicks(g: Game, ds: seq<Draw>): (r: Game)
    decreases |ds|
  {
    if ds == [] then g else RespawnTicks(RespawnTick(g, ds[0]), ds[1..])
  }

  /**
   Growth toward the floor is gradual: from at most five collectibles, `n`
   ticks leave min(5, count + n) of them, one more per tick until the floor.
   */
  lemma {:induction false} TicksApproachFloor(g: Game, ds: seq<Draw>)
    requires IdsMinted(g)
    requires |g.collectibles| <= CollectibleFloor
    ensures var r := RespawnTicks(g, ds);
            && IdsMinted(r)
            && |r.collectibles| == if |g.collectibles| + |ds| < CollectibleFloor
                                   then |g.collectibles| + |ds| else CollectibleFloor
    decreases |ds|
  {
    if ds != [] {
      TicksApproachFloor(RespawnTick(g, ds[0]), ds[1..]);
    }
  }

  /** Startup: five spawns into the empty world, before any connection. */
  function InitialGame(ds: seq<Draw>): (g: Game)
    requires |ds| == 5
    ensures Valid(g)
    ensures g.players == map[]
    ensures |g.collectibles| == 5 && g.collectibleId == 5
    ensures forall id: CollectibleId :: id in g.collectibles <==> 1 <= id.n <= 5
  {
    var empty := EmptyGame();
    assert Valid(empty) && IdsMinted(empty) && |empty.collectibles| == 0 by {
      assert empty.players == map[] && empty.collectibles == map[];
    }
    SpawnManyKeepsValid(empty, ds);
    SpawnManyGrowsByDraws(empty, ds);
    SpawnMany(empty, ds)
  }
}
