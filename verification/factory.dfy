/**
 Construction of new players and collectibles. The server draws positions and
 colors from `math/rand`; here every random value is a parameter: a `Unit` is one
 result of `rand.Float64()` (a real in [0, 1)), a palette index is one result of
 `rand.Intn(5)`.
 */
module Factory {
  import opened World

  /** One result of `rand.Float64()`. */
  type Unit = r: real | 0.0 <= r < 1.0

  /** The two draws that place a new entity: x fraction, then y fraction. */
  datatype Draw = Draw(fx: Unit, fy: Unit)

  /** A random fraction scaled to an arena extent lands inside [0, extent]. */
  function Scale(u: Unit, extent: real): (r: real)
    ensures 0.0 <= extent ==> 0.0 <= r <= extent
    ensures 0.0 < extent ==> r < extent
  {
    assert 0.0 <= extent ==> (1.0 - u) * extent >= 0.0 && u * extent >= 0.0;
    assert 0.0 < extent ==> (1.0 - u) * extent > 0.0;
    u * extent
  }

  /**
   The identity a new connection gets: one more than the number of players
   present. It is not checked against the live ids; it is free only while every
   live id is numbered within the player count.
   */
  function GeneratePlayerId(g: Game): (id: PlayerId)
    ensures id.n >= 1
    ensures (forall q :: q in g.players ==> q.n <= |g.players|) ==> id !in g.players
  {
    PlayerId(|g.players| + 1)
  }

  /** A fresh player: random position in the arena, radius 20, a palette color, score 0. */
  function CreateNewPlayer(id: PlayerId, colorIdx: nat, d: Draw, width: real, height: real): (p: Player)
    requires colorIdx < |Palette|
    ensures p.id == id && p.score == 0 && p.radius == PlayerRadius
    ensures p.color in Palette
    ensures p.velocity == Velocity(0.0, 0.0)
    ensures 0.0 <= width && 0.0 <= height ==> InBounds(p.x, p.y, width, height)
  {
    Player(
      id := id,
      x := Scale(d.fx, width),
      y := Scale(d.fy, height),
      score := 0,
      radius := PlayerRadius,
      color := Palette[colorIdx],
      velocity := Velocity(0.0, 0.0))
  }

  /** The collectible every spawn creates: radius 10, gold, worth 10 points. */
  predicate IsStandard(c: Collectible)
  {
    c.radius == CollectibleRadius && c.color == CollectibleColor && c.points == CollectiblePoints
  }

  /**
   Mints the next collectible number and inserts `collectible_<number>` at the
   drawn position. The new number exceeds the previous counter, so it differs
   from every number handed out before (SpawnMintsFreshId).
   */
  function SpawnNewCollectible(g: Game, d: Draw): (r: Game)
    ensures r.players == g.players
    ensures r.worldWidth == g.worldWidth && r.worldHeight == g.worldHeight
    ensures r.collectibleId == g.collectibleId + 1
    ensures r.collectibles.Keys == g.collectibles.Keys + {CollectibleId(r.collectibleId)}
    ensures forall id :: id in g.collectibles && id.n != r.collectibleId ==>
              r.collectibles[id] == g.collectibles[id]
    ensures var c := r.collectibles[CollectibleId(r.collectibleId)];
            && c.id == CollectibleId(r.collectibleId)
            && IsStandard(c)
            && (0.0 <= g.worldWidth && 0.0 <= g.worldHeight ==> InBounds(c.x, c.y, r.worldWidth, r.worldHeight))
  {
    var n := g.collectibleId + 1;
    var id := CollectibleId(n);
    var c := Collectible(
      id := id,
      x := Scale(d.fx, g.worldWidth),
      y := Scale(d.fy, g.worldHeight),
      radius := CollectibleRadius,
      color := CollectibleColor,
      points := CollectiblePoints);
    g.(collectibleId := n, collectibles := g.collectibles[id := c])
  }

  /**
   Freshness: when every present collectible was minted no later than the
   counter, the spawned id is not present yet, so the count grows by exactly
   one, and the property still holds afterwards.
   */
  lemma SpawnMintsFreshId(g: Game, d: Draw)
    requires IdsMinted(g)
    ensures var r := SpawnNewCollectible(g, d);
            && CollectibleId(r.collectibleId) !in g.collectibles
            && |r.collectibles| == |g.collectibles| + 1
            && IdsMinted(r)
  {
  }

  /** A spawn keeps the world invariant. */
  lemma SpawnKeepsValid(g: Game, d: Draw)
    requires Valid(g)
    ensures Valid(SpawnNewCollectible(g, d))
  {
    var r := SpawnNewCollectible(g, d);
    assert forall id :: id in r.collectibles ==> CollectibleOk(r, id);
  }

  /**
   Spawns one collectible per draw, in order. The counter advances by the
   number of draws, the ids added are exactly the next numbers, and nothing
   already present with a number within the old counter changes.
   SpawnManyGrowsByDraws gives the count and SpawnManyKeepsValid what the new
   entries hold.
   */
  function SpawnMany(g: Game, ds: seq<Draw>): (r: Game)
    ensures r.players == g.players
    ensures r.worldWidth == g.worldWidth && r.worldHeight == g.worldHeight
    ensures r.collectibleId == g.collectibleId + |ds|
    ensures forall id :: id in r.collectibles <==>
              id in g.collectibles || g.collectibleId < id.n <= g.collectibleId + |ds|
    ensures forall id :: id in g.collectibles && id.n <= g.collectibleId ==>
              r.collectibles[id] == g.collectibles[id]
    decreases |ds|
  {
    if ds == [] then g
    else SpawnMany(SpawnNewCollectible(g, ds[0]), ds[1..])
  }

  /**
   When every present id was minted earlier, k spawns grow the count by
   exactly k, and every id is still within the counter afterwards.
   */
  lemma {:induction false} SpawnManyGrowsByDraws(g: Game, ds: seq<Draw>)
    requires IdsMinted(g)
    ensures |SpawnMany(g, ds).collectibles| == |g.collectibles| + |ds|
    ensures IdsMinted(SpawnMany(g, ds))
    decreases |ds|
  {
    if ds != [] {
      var g1 := SpawnNewCollectible(g, ds[0]);
      SpawnMintsFreshId(g, ds[0]);
      SpawnManyGrowsByDraws(g1, ds[1..]);
    }
  }

  /**
   Every collectible a run of spawns adds is stored under its own id and is a
   standard one, and the spawns keep the world invariant.
   */
  lemma {:induction false} SpawnManyKeepsValid(g: Game, ds: seq<Draw>)
    ensures forall id: CollectibleId :: g.collectibleId < id.n <= g.collectibleId + |ds| ==>
              && id in SpawnMany(g, ds).collectibles
              && SpawnMany(g, ds).collectibles[id].id == id
              && IsStandard(SpawnMany(g, ds).collectibles[id])
    ensures Valid(g) ==> Valid(SpawnMany(g, ds))
    decreases |ds|
  {
    if ds != [] {
      var g1 := SpawnNewCollectible(g, ds[0]);
      if Valid(g) {
        SpawnKeepsValid(g, ds[0]);
      }
      SpawnManyKeepsValid(g1, ds[1..]);
    }
  }
}
