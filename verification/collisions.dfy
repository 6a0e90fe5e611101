/**
 The collision check run after every decoded message: every collectible the
 player overlaps is picked up, its points are added to the player's score, it
 is removed, and one replacement is minted per pickup.

 Iteration choice: the server ranges over the collectible map while deleting
 from and inserting into it, and Go leaves unspecified whether an entry inserted
 during the range is visited later in the same loop. This model takes the
 deterministic reading: the hits are computed from the collectibles present on
 entry, then every hit is removed and one replacement is minted per hit. The
 range order itself is a parameter `order`; only the order of the score
 additions depends on it, and CheckCollisionsOrderIrrelevant shows the result
 does not.
 */
module Collisions {
  import opened World
  import opened Factory

  /** The collectibles among `keys` that player `p` overlaps. */
  function HitsIn(p: Player, cs: map<CollectibleId, Collectible>, keys: set<CollectibleId>): (h: set<CollectibleId>)
    ensures h <= keys * cs.Keys
    ensures forall id :: id in keys && id in cs ==> (id in h <==> Overlaps(p, cs[id]))
  {
    set id | id in keys && id in cs && Overlaps(p, cs[id])
  }

  /** The collectibles present that player `p` overlaps. */
  function HitSet(p: Player, cs: map<CollectibleId, Collectible>): set<CollectibleId>
  {
    HitsIn(p, cs, cs.Keys)
  }

  /** The sum of the points of the collectibles `ids`, independent of any order. */
  ghost function PointsOf(cs: map<CollectibleId, Collectible>, ids: set<CollectibleId>): int
    requires ids <= cs.Keys
    decreases ids
  {
    if ids == {} then 0
    else
      var id :| id in ids;
      cs[id].points + PointsOf(cs, ids - {id})
  }

  /** Any member can be taken out of a points sum first. */
  lemma {:induction false} PointsOfRemove(cs: map<CollectibleId, Collectible>, ids: set<CollectibleId>, x: CollectibleId)
    requires ids <= cs.Keys && x in ids
    ensures PointsOf(cs, ids) == cs[x].points + PointsOf(cs, ids - {x})
    decreases ids
  {
    var y :| y in ids && PointsOf(cs, ids) == cs[y].points + PointsOf(cs, ids - {y});
    if y != x {
      PointsOfRemove(cs, ids - {y}, x);
      PointsOfRemove(cs, ids - {x}, y);
      assert ids - {y} - {x} == ids - {x} - {y};
    }
  }

  /** A sum of non-negative points is non-negative. */
  lemma {:induction false} PointsOfNonNegative(cs: map<CollectibleId, Collectible>, ids: set<CollectibleId>)
    requires ids <= cs.Keys
    requires forall id :: id in ids ==> cs[id].points >= 0
    ensures PointsOf(cs, ids) >= 0
    decreases ids
  {
    if ids != {} {
      var id :| id in ids && PointsOf(cs, ids) == cs[id].points + PointsOf(cs, ids - {id});
      PointsOfNonNegative(cs, ids - {id});
    }
  }

  /** `order` lists every key of `keys` exactly once, as a Go map range does. */
  predicate Enumerates(order: seq<CollectibleId>, keys: set<CollectibleId>)
  {
    && (forall i, j :: 0 <= i < j < |order| ==> order[i] != order[j])
    && (forall i :: 0 <= i < |order| ==> order[i] in keys)
    && (forall id :: id in keys ==> id in order)
  }

  /** The score the range loop adds, visiting collectibles in `order`. */
  function Gain(p: Player, cs: map<CollectibleId, Collectible>, order: seq<CollectibleId>): int
    decreases |order|
  {
    if order == [] then 0
    else
      var id := order[0];
      (if id in cs && Overlaps(p, cs[id]) then cs[id].points else 0) + Gain(p, cs, order[1..])
  }

  /** Whatever the range order, the loop adds exactly the points of the hits. */
  lemma {:induction false} GainIsPointsOfHits(p: Player, cs: map<CollectibleId, Collectible>, order: seq<CollectibleId>, keys: set<CollectibleId>)
    requires keys <= cs.Keys
    requires Enumerates(order, keys)
    ensures Gain(p, cs, order) == PointsOf(cs, HitsIn(p, cs, keys))
    decreases |order|
  {
    if order == [] {
      assert keys == {};
    } else {
      var x, rest := order[0], order[1..];
      assert x in keys;
      assert Enumerates(rest, keys - {x}) by {
        forall id | id in keys - {x} ensures id in rest {
          assert id in order;
        }
        forall i | 0 <= i < |rest| ensures rest[i] in keys - {x} {
          assert rest[i] == order[i + 1];
        }
      }
      GainIsPointsOfHits(p, cs, rest, keys - {x});
      var h, h' := HitsIn(p, cs, keys), HitsIn(p, cs, keys - {x});
      if Overlaps(p, cs[x]) {
        PointsOfRemove(cs, h, x);
        assert h - {x} == h';
      } else {
        assert h == h';
      }
    }
  }

  /**
   The collision check for player `pid`, with the collectibles visited in
   `order` and the i-th replacement placed by `rng(i)`. An absent player leaves
   the world unchanged; otherwise no other player changes and the player's
   score grows by the points of the collectibles it overlaps, whatever the order.
   PickupReplacesHits and CheckCollisionsKeepsValid state what happens to the
   collectibles.
   */
  function CheckCollisions(g: Game, pid: PlayerId, order: seq<CollectibleId>, rng: nat -> Draw): (r: Game)
    requires Enumerates(order, g.collectibles.Keys)
    ensures pid !in g.players ==> r == g
    ensures r.worldWidth == g.worldWidth && r.worldHeight == g.worldHeight
    ensures r.players.Keys == g.players.Keys
    ensures forall q :: q in g.players && q != pid ==> r.players[q] == g.players[q]
    ensures pid in g.players ==>
              var p := g.players[pid];
              r.players[pid] == p.(score := p.score + PointsOf(g.collectibles, HitSet(p, g.collectibles)))
  {
    if pid !in g.players then g
    else
      var p := g.players[pid];
      var hits := HitSet(p, g.collectibles);
      GainIsPointsOfHits(p, g.collectibles, order, g.collectibles.Keys);
      SpawnMany(RemoveHits(g, pid, hits, Gain(p, g.collectibles, order)), Replacements(|hits|, rng))
  }

  /** The draws for `k` replacements: the i-th is placed by `rng(i)`. */
  function Replacements(k: nat, rng: nat -> Draw): (ds: seq<Draw>)
    ensures |ds| == k
  {
    seq(k, i requires 0 <= i => rng(i))
  }

  /**
   What a pickup does to the collectibles: every overlapped collectible present
   on entry is gone, every other one is kept unchanged, the counter advances by
   the number of hits and exactly the next ids are added, so the number of
   collectibles is the same as before.
   */
  lemma PickupReplacesHits(g: Game, pid: PlayerId, order: seq<CollectibleId>, rng: nat -> Draw)
    requires Enumerates(order, g.collectibles.Keys)
    requires IdsMinted(g)
    requires pid in g.players
    ensures var r := CheckCollisions(g, pid, order, rng);
            var hits := HitSet(g.players[pid], g.collectibles);
            && r.collectibleId == g.collectibleId + |hits|
            && (forall id :: id in r.collectibles <==>
                  (id in g.collectibles && id !in hits) || g.collectibleId < id.n <= g.collectibleId + |hits|)
            && (forall id :: id in hits ==> id !in r.collectibles)
            && (forall id :: id in g.collectibles && id !in hits ==> r.collectibles[id] == g.collectibles[id])
            && |r.collectibles| == |g.collectibles|
            && IdsMinted(r)
  {
    var p := g.players[pid];
    var hits := HitSet(p, g.collectibles);
    var g1 := RemoveHits(g, pid, hits, Gain(p, g.collectibles, order));
    var r := SpawnMany(g1, Replacements(|hits|, rng));
    SpawnManyGrowsByDraws(g1, Replacements(|hits|, rng));
    assert r == CheckCollisions(g, pid, order, rng);
    forall id | id in hits ensures id !in r.collectibles {
      assert id.n <= g.collectibleId;
    }
  }

  /**
   A collision check never moves the counter back and adds only collectibles
   numbered above the counter it found.
   */
  lemma CheckCollisionsMintsAboveCounter(g: Game, pid: PlayerId, order: seq<CollectibleId>, rng: nat -> Draw)
    requires Enumerates(order, g.collectibles.Keys)
    requires IdsMinted(g)
    ensures var r := CheckCollisions(g, pid, order, rng);
            && r.collectibleId >= g.collectibleId
            && |r.collectibles| == |g.collectibles|
            && forall id :: id in r.collectibles && id !in g.collectibles ==> id.n > g.collectibleId
  {
    if pid in g.players {
      PickupReplacesHits(g, pid, order, rng);
    }
  }

  /** A collision check keeps the world invariant. */
  lemma CheckCollisionsKeepsValid(g: Game, pid: PlayerId, order: seq<CollectibleId>, rng: nat -> Draw)
    requires Enumerates(order, g.collectibles.Keys)
    requires Valid(g)
    ensures Valid(CheckCollisions(g, pid, order, rng))
  {
    if pid in g.players {
      var p := g.players[pid];
      var hits := HitSet(p, g.collectibles);
      GainIsPointsOfHits(p, g.collectibles, order, g.collectibles.Keys);
      PointsOfNonNegative(g.collectibles, hits);
      var g1 := RemoveHits(g, pid, hits, Gain(p, g.collectibles, order));
      assert Valid(g1);
      SpawnManyKeepsValid(g1, Replacements(|hits|, rng));
    }
  }

  /**
   The removal half of a pickup: credits `gain` to player `pid` and deletes the
   collectibles `hits`, which shrinks the map by exactly their number.
   */
  function RemoveHits(g: Game, pid: PlayerId, hits: set<CollectibleId>, gain: int): (r: Game)
    requires pid in g.players && hits <= g.collectibles.Keys
    ensures r.worldWidth == g.worldWidth && r.worldHeight == g.worldHeight
    ensures r.collectibleId == g.collectibleId
    ensures r.players == g.players[pid := g.players[pid].(score := g.players[pid].score + gain)]
    ensures r.collectibles.Keys == g.collectibles.Keys - hits
    ensures forall id :: id in r.collectibles ==> r.collectibles[id] == g.collectibles[id]
    ensures |r.collectibles| == |g.collectibles| - |hits|
    ensures IdsMinted(g) ==> IdsMinted(r)
    ensures Valid(g) && gain >= 0 ==> Valid(r)
  {
    var p := g.players[pid];
    var r := g.(players := g.players[pid := p.(score := p.score + gain)], collectibles := g.collectibles - hits);
    assert |r.collectibles| == |g.collectibles| - |hits| by {
      assert g.collectibles.Keys == r.collectibles.Keys + hits;
    }
    assert Valid(g) && gain >= 0 ==> PlayerOk(r, pid);
    r
  }

  /** Score only grows: under the invariant a collision check never lowers a score. */
  lemma ScoreNeverDecreases(g: Game, pid: PlayerId, order: seq<CollectibleId>, rng: nat -> Draw)
    requires Valid(g)
    requires Enumerates(order, g.collectibles.Keys)
    requires pid in g.players
    ensures CheckCollisions(g, pid, order, rng).players[pid].score >= g.players[pid].score
  {
    var p := g.players[pid];
    PointsOfNonNegative(g.collectibles, HitSet(p, g.collectibles));
  }

  /** Go's map range order does not matter: two enumerations give the same world. */
  lemma CheckCollisionsOrderIrrelevant(g: Game, pid: PlayerId, o1: seq<CollectibleId>, o2: seq<CollectibleId>, rng: nat -> Draw)
    requires Enumerates(o1, g.collectibles.Keys) && Enumerates(o2, g.collectibles.Keys)
    ensures CheckCollisions(g, pid, o1, rng) == CheckCollisions(g, pid, o2, rng)
  {
    if pid in g.players {
      var p := g.players[pid];
      GainIsPointsOfHits(p, g.collectibles, o1, g.collectibles.Keys);
      GainIsPointsOfHits(p, g.collectibles, o2, g.collectibles.Keys);
    }
  }
}
