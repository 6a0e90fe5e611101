/**
 The move handler: a decoded move carries an optional delta per axis, and each
 axis is applied on its own, only when the new coordinate stays inside the
 arena. An out-of-bounds delta is dropped, not clamped.
 */
module Movement {
  import opened Wrappers
  import opened World

  /**
   One axis of a move. The coordinate becomes `pos + delta` exactly when a delta
   is present and lands in [0, extent]; otherwise it keeps its old value.
   */
  function AxisStep(pos: real, delta: Option<real>, extent: real): (r: real)
    ensures r == pos || (delta.Some? && r == pos + delta.value)
    ensures 0.0 <= pos <= extent ==> 0.0 <= r <= extent
    ensures delta.Some? && 0.0 <= pos + delta.value <= extent ==> r == pos + delta.value
    ensures delta.Some? && !(0.0 <= pos + delta.value <= extent) ==> r == pos
  {
    match delta
    case None => pos
    case Some(d) =>
      var next := pos + d;
      if next >= 0.0 && next <= extent then next else pos
  }

  /**
   Applies a move to player `pid`. An absent player leaves the world unchanged;
   otherwise only that player's x and y change, each by its own axis rule.
   */
  function HandleMove(g: Game, pid: PlayerId, dx: Option<real>, dy: Option<real>): (r: Game)
    ensures pid !in g.players ==> r == g
    ensures r.collectibles == g.collectibles && r.collectibleId == g.collectibleId
    ensures r.worldWidth == g.worldWidth && r.worldHeight == g.worldHeight
    ensures r.players.Keys == g.players.Keys
    ensures forall q :: q in g.players && q != pid ==> r.players[q] == g.players[q]
    ensures pid in g.players ==>
              var p, p' := g.players[pid], r.players[pid];
              && p' == p.(x := p'.x, y := p'.y)
              && p'.x == AxisStep(p.x, dx, g.worldWidth)
              && p'.y == AxisStep(p.y, dy, g.worldHeight)
    ensures Valid(g) ==> Valid(r)
  {
    if pid !in g.players then g
    else
      var p := g.players[pid];
      var moved := p.(x := AxisStep(p.x, dx, g.worldWidth), y := AxisStep(p.y, dy, g.worldHeight));
      g.(players := g.players[pid := moved])
  }

  /**
   Axis independence: a move splits into its x part followed by its y part, so a
   rejected dx never stops a valid dy, and the other way round.
   */
  lemma MoveSplitsIntoAxes(g: Game, pid: PlayerId, dx: Option<real>, dy: Option<real>)
    ensures HandleMove(g, pid, dx, dy) == HandleMove(HandleMove(g, pid, dx, None), pid, None, dy)
    ensures HandleMove(g, pid, dx, dy) == HandleMove(HandleMove(g, pid, None, dy), pid, dx, None)
  {
  }

  /** A sequence of moves by one player, applied in order. */
  function ApplyMoves(g: Game, pid: PlayerId, moves: seq<(Option<real>, Option<real>)>): (r: Game)
    decreases |moves|
  {
    if moves == [] then g
    else ApplyMoves(HandleMove(g, pid, moves[0].0, moves[0].1), pid, moves[1..])
  }

  /**
   Any sequence of moves keeps the world valid, so every player stays inside
   [0, width] x [0, height], and changes nothing but the mover's position.
   */
  lemma {:induction false} ApplyMovesKeepsBounds(g: Game, pid: PlayerId, moves: seq<(Option<real>, Option<real>)>)
    requires Valid(g)
    ensures var r := ApplyMoves(g, pid, moves);
            && Valid(r)
            && r.collectibles == g.collectibles
            && r.players.Keys == g.players.Keys
            && (forall q :: q in g.players ==>
                  InBounds(r.players[q].x, r.players[q].y, r.worldWidth, r.worldHeight))
            && (forall q :: q in g.players ==> r.players[q].score == g.players[q].score)
    decreases |moves|
  {
    if moves != [] {
      ApplyMovesKeepsBounds(HandleMove(g, pid, moves[0].0, moves[0].1), pid, moves[1..]);
    }
  }

  /** The scenario of a player at (10, 10): moving by -50 on x is refused, moving by 50 on y is taken. */
  lemma MoveScenario(g: Game, pid: PlayerId)
    requires g.worldWidth == 800.0 && g.worldHeight == 600.0
    requires pid in g.players && g.players[pid].x == 10.0 && g.players[pid].y == 10.0
    ensures var g1 := HandleMove(g, pid, Some(-50.0), Some(0.0));
            && g1.players[pid].x == 10.0 && g1.players[pid].y == 10.0
            && var g2 := HandleMove(g1, pid, Some(0.0), Some(50.0));
               g2.players[pid].x == 10.0 && g2.players[pid].y == 60.0
  {
  }
}
