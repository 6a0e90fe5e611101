/**
 The game world of the server: the players and collectibles kept in two maps,
 the arena bounds and the counter that names collectibles. The lock that guards
 the world in the server is not modelled; every operation here is one atomic
 step on an immutable value.
 */
module World {

  /** `PlayerId(n)` stands for the identity string `player_<n>`. */
  datatype PlayerId = PlayerId(n: nat)

  /** `CollectibleId(n)` stands for the identity string `collectible_<n>`. */
  datatype CollectibleId = CollectibleId(n: nat)

  /** The advisory velocity of a player; the server never sets it, so it stays (0, 0). */
  datatype Velocity = Velocity(x: real, y: real)

  datatype Player = Player(
    id: PlayerId,
    x: real,
    y: real,
    score: int,
    radius: real,
    color: string,
    velocity: Velocity)

  datatype Collectible = Collectible(
    id: CollectibleId,
    x: real,
    y: real,
    radius: real,
    color: string,
    points: int)

  /** The whole shared world; `collectibleId` is the last collectible number handed out. */
  datatype Game = Game(
    players: map<PlayerId, Player>,
    collectibles: map<CollectibleId, Collectible>,
    worldWidth: real,
    worldHeight: real,
    collectibleId: nat)

  const DefaultWidth: real := 800.0
  const DefaultHeight: real := 600.0
  const PlayerRadius: real := 20.0
  const CollectibleRadius: real := 10.0
  const CollectiblePoints: int := 10
  const CollectibleColor: string := "#FFD700"
  /** The five player colors; a new player gets one of them. */
  const Palette: seq<string> := ["#1E90FF", "#FF69B4", "#32CD32", "#FFD700", "#FF4500"]
  /** Below this many collectibles the respawn tick adds one. */
  const CollectibleFloor: nat := 5

  /** The world as the process starts: no players, no collectibles, an 800 x 600 arena, counter 0. */
  function EmptyGame(): Game
  {
    Game(map[], map[], DefaultWidth, DefaultHeight, 0)
  }

  /** The point (x, y) lies in the closed rectangle [0, width] x [0, height]. */
  predicate InBounds(x: real, y: real, width: real, height: real)
  {
    0.0 <= x <= width && 0.0 <= y <= height
  }

  /** Every collectible present was minted no later than the counter's current value. */
  ghost predicate IdsMinted(g: Game)
  {
    forall id :: id in g.collectibles ==> id.n <= g.collectibleId
  }

  ghost predicate PlayerOk(g: Game, id: PlayerId)
    requires id in g.players
  {
    var p := g.players[id];
    && p.id == id
    && InBounds(p.x, p.y, g.worldWidth, g.worldHeight)
    && p.radius >= 0.0
    && p.score >= 0
  }

  ghost predicate CollectibleOk(g: Game, id: CollectibleId)
    requires id in g.collectibles
  {
    var c := g.collectibles[id];
    && c.id == id
    && id.n <= g.collectibleId
    && InBounds(c.x, c.y, g.worldWidth, g.worldHeight)
    && c.radius >= 0.0
    && c.points >= 0
  }

  /**
   The invariant every reachable world keeps: non-negative bounds, each entry
   stored under its own id, everything inside the arena, non-negative radii,
   scores and points, and collectible numbers not beyond the counter.
   */
  ghost predicate Valid(g: Game)
  {
    && g.worldWidth >= 0.0
    && g.worldHeight >= 0.0
    && (forall id :: id in g.players ==> PlayerOk(g, id))
    && (forall id :: id in g.collectibles ==> CollectibleOk(g, id))
  }

  /** Squared Euclidean distance between the centres of a player and a collectible. */
  function SquaredDistance(p: Player, c: Collectible): (d: real)
    ensures d >= 0.0
    ensures p.x == c.x && p.y == c.y ==> d == 0.0
  {
    (c.x - p.x) * (c.x - p.x) + (c.y - p.y) * (c.y - p.y)
  }

  /**
   The pickup test. The server compares the square root of the squared distance
   with the sum of the radii; this compares the squares instead, which decides
   the same question whenever the radii sum is non-negative
   (see OverlapsAgreesWithDistance).
   */
  predicate Overlaps(p: Player, c: Collectible)
  {
    SquaredDistance(p, c) < (p.radius + c.radius) * (p.radius + c.radius)
  }

  /** A player always picks up a collectible centred exactly on it. */
  lemma ConcentricOverlap(p: Player, c: Collectible)
    requires p.x == c.x && p.y == c.y && p.radius + c.radius > 0.0
    ensures Overlaps(p, c)
  {
    SquareStrictlyMonotone(0.0, p.radius + c.radius);
  }

  /**
   For any non-negative `d` whose square is the squared distance (that is, `d`
   is the Euclidean distance), the squared test agrees with `d < r1 + r2`.
   */
  lemma OverlapsAgreesWithDistance(p: Player, c: Collectible, d: real)
    requires d >= 0.0 && d * d == SquaredDistance(p, c)
    requires p.radius + c.radius >= 0.0
    ensures Overlaps(p, c) <==> d < p.radius + c.radius
  {
    var s := p.radius + c.radius;
    if d < s {
      SquareStrictlyMonotone(d, s);
    } else if s < d {
      SquareStrictlyMonotone(s, d);
    }
  }

  /**
   Entities whose centres are at least the sum of the radii apart along either
   axis never overlap, whatever the other axis.
   */
  lemma FarApartNeverOverlap(p: Player, c: Collectible)
    requires 0.0 <= p.radius + c.radius
    requires p.radius + c.radius <= Abs(c.x - p.x) || p.radius + c.radius <= Abs(c.y - p.y)
    ensures !Overlaps(p, c)
  {
    var s := p.radius + c.radius;
    var dx, dy := Abs(c.x - p.x), Abs(c.y - p.y);
    assert dx * dx == (c.x - p.x) * (c.x - p.x);
    assert dy * dy == (c.y - p.y) * (c.y - p.y);
    if s <= dx {
      if s < dx { SquareStrictlyMonotone(s, dx); }
      assert s * s <= dx * dx;
    } else {
      assert s <= dy;
      if s < dy { SquareStrictlyMonotone(s, dy); }
      assert s * s <= dy * dy;
    }
  }

  function Abs(v: real): (r: real)
    ensures r >= 0.0 && (r == v || r == -v)
  {
    if v < 0.0 then -v else v
  }

  /** Squaring is strictly increasing on the non-negative reals. */
  lemma SquareStrictlyMonotone(a: real, b: real)
    requires 0.0 <= a < b
    ensures a * a < b * b
  {
    assert a * (b - a) >= 0.0;
    assert a * (b - a) == a * b - a * a;
    assert (b - a) * b > 0.0;
    assert (b - a) * b == b * b - a * b;
  }
}
