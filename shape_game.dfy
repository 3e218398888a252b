/** The shape-matching stress game: click the shape shown; a hit scores and draws a new
    shape, and the third miss in a row ends the game. `Math.random` is a free choice. */
module ShapeGame {

  /** The ids of the five shapes the game draws from. */
  const Shapes: seq<string> := ["circle", "square", "triangle", "star", "heart"]

  /** The game's state: `score`, `gameActive`, `currentShape` and `userClicks` (misses). */
  datatype Game = Game(score: int, active: bool, shape: string, misses: int)

  /** `handleShapeClick(shapeId)`, where `drawn` is the shape a hit draws next. */
  function Click(g: Game, shapeId: string, drawn: string): (r: Game)
    ensures !g.active ==> r == g
    ensures g.active && shapeId == g.shape ==> r == Game(g.score + 1, true, drawn, 0)
    ensures g.active && shapeId != g.shape ==>
              r.score == g.score && r.shape == g.shape && r.misses == g.misses + 1
              && (r.active <==> g.misses < 2)
  {
    if !g.active then g
    else if shapeId == g.shape then Game(g.score + 1, true, drawn, 0)
    else Game(g.score, !(g.misses >= 2), g.shape, g.misses + 1)
  }

  /** One click of the player, with the shape that would be drawn if it is a hit. */
  datatype Press = Press(shapeId: string, drawn: string)

  /** The game after a sequence of clicks. */
  function Play(g: Game, presses: seq<Press>): Game
    decreases |presses|
  {
    if presses == [] then g else Play(Click(g, presses[0].shapeId, presses[0].drawn), presses[1..])
  }

  /** Once the game is over, clicks change nothing: the final score stays on screen. */
  lemma {:induction false} OverGameIgnoresClicks(g: Game, presses: seq<Press>)
    requires !g.active
    ensures Play(g, presses) == g
  {
    if presses != [] {
      OverGameIgnoresClicks(g, presses[1..]);
    }
  }

  /** The score never decreases, and grows by at most one per click. */
  lemma {:induction false} ScoreMonotone(g: Game, presses: seq<Press>)
    ensures g.score <= Play(g, presses).score <= g.score + |presses|
    decreases |presses|
  {
    if presses != [] {
      ScoreMonotone(Click(g, presses[0].shapeId, presses[0].drawn), presses[1..]);
    }
  }

  /** A run of wrong clicks leaves score and shape alone, counts the misses, and ends the
      game exactly when the misses reach three. */
  lemma {:induction false} MissesEndGameOnThird(g: Game, presses: seq<Press>)
    requires g.active && 0 <= g.misses <= 2 && g.misses + |presses| <= 3
    requires forall i :: 0 <= i < |presses| ==> presses[i].shapeId != g.shape
    ensures Play(g, presses).score == g.score && Play(g, presses).shape == g.shape
    ensures Play(g, presses).misses == g.misses + |presses|
    ensures Play(g, presses).active <==> g.misses + |presses| < 3
    decreases |presses|
  {
    if presses != [] {
      var h := Click(g, presses[0].shapeId, presses[0].drawn);
      if h.active {
        MissesEndGameOnThird(h, presses[1..]);
      } else {
        OverGameIgnoresClicks(h, presses[1..]);
      }
    }
  }

  /** If the shown shape and every drawn shape are shape ids, the shown shape stays one. */
  lemma {:induction false} ShapeStaysAShape(g: Game, presses: seq<Press>)
    requires g.shape in Shapes
    requires forall i :: 0 <= i < |presses| ==> presses[i].drawn in Shapes
    ensures Play(g, presses).shape in Shapes
    decreases |presses|
  {
    if presses != [] {
      ShapeStaysAShape(Click(g, presses[0].shapeId, presses[0].drawn), presses[1..]);
    }
  }

  /** The state of the shape-matching component. */
  class StressGames {
    var score: int
    var gameActive: bool
    var currentShape: string
    var userClicks: int

    /** A running game shows a shape and has missed at most twice in a row. */
    ghost predicate Valid()
      reads this
    {
      && 0 <= score && 0 <= userClicks
      && (currentShape == "" || currentShape in Shapes)
      && (gameActive ==> currentShape in Shapes && userClicks <= 2)
    }

    function State(): Game
      reads this
    {
      Game(score, gameActive, currentShape, userClicks)
    }

    constructor ()
      ensures Valid() && State() == Game(0, false, "", 0)
    {
      score, gameActive, currentShape, userClicks := 0, false, "", 0;
    }

    /** `nextShape`: show a randomly chosen shape. */
    method NextShape()
      modifies this`currentShape
      ensures currentShape in Shapes
    {
      var i :| 0 <= i < |Shapes|;
      currentShape := Shapes[i];
    }

    /** `startGame`: a fresh game with score 0, no misses and a random shape. */
    method StartGame()
      modifies this
      ensures Valid()
      ensures gameActive && score == 0 && userClicks == 0 && currentShape in Shapes
    {
      gameActive, score, userClicks := true, 0, 0;
      NextShape();
    }

    /** `handleShapeClick`: a hit scores one, clears the misses and draws a new shape;
        a miss counts and, when two misses preceded it, ends the game. */
    method HandleShapeClick(shapeId: string)
      requires Valid()
      modifies this
      ensures Valid()
      ensures State() == Click(old(State()), shapeId, currentShape)
      ensures !old(gameActive) ==> State() == old(State())
      ensures old(gameActive) && shapeId == old(currentShape) ==>
                score == old(score) + 1 && userClicks == 0 && gameActive && currentShape in Shapes
      ensures old(gameActive) && shapeId != old(currentShape) ==>
                score == old(score) && userClicks == old(userClicks) + 1
                && currentShape == old(currentShape) && (gameActive <==> old(userClicks) < 2)
      ensures old(gameActive) && !gameActive ==> shapeId != old(currentShape) && userClicks == 3
    {
      if !gameActive {
        return;
      }
      if shapeId == currentShape {
        score := score + 1;
        userClicks := 0;
        NextShape();
      } else {
        var missesBefore := userClicks;
        userClicks := missesBefore + 1;
        if missesBefore >= 2 {
          gameActive := false;
        }
      }
    }
  }
}
