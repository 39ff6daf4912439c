/** The snake: its body (head first), heading, pending growth and score, with
    the reset, move, grow and change-direction operations of snake_game.py. */
module SnakeState {
  import opened Grid

  /** Points awarded for one piece of food. */
  const FoodScore: nat := 10

  /** Growth owed to a freshly reset snake: it starts as one cell and reaches
      length 4 over its first three moves. */
  const InitialGrowth: nat := 3

  datatype Snake = Snake(body: seq<Cell>, direction: Direction, growPending: nat, score: nat)
  {
    /** The head cell (the body is never empty in a reachable state). */
    function Head(): Cell
      requires |body| >= 1
    {
      body[0]
    }
  }

  /** Outcome of one move: a blocked move changes nothing, so it carries no
      snake; an advanced move carries the moved snake. */
  datatype MoveResult = Blocked | Advanced(snake: Snake)

  /** Length plus pending growth is the initial length 1 + 3 plus one cell per
      10 points scored, and the score is a multiple of 10. */
  predicate Conserved(s: Snake)
  {
    && |s.body| + s.growPending == 1 + InitialGrowth + s.score / FoodScore
    && s.score % FoodScore == 0
  }

  /** What holds of the snake in every reachable state. */
  predicate ValidSnake(s: Snake)
  {
    && |s.body| >= 1
    && AllInBounds(s.body)
    && Distinct(s.body)
    && Conserved(s)
  }

  /** The snake of a fresh or restarted game: one cell at the grid's centre,
      heading right, owed three cells of growth, no score. */
  function Reset(): (s: Snake)
    ensures s.body == [Cell(15, 15)]
    ensures s.direction == Right && s.growPending == 3 && s.score == 0
    ensures ValidSnake(s)
  {
    Snake([Cell(GridWidth / 2, GridHeight / 2)], Right, InitialGrowth, 0)
  }

  /** Where the head goes on the next move. */
  function NextHead(s: Snake): Cell
    requires |s.body| >= 1
  {
    Neighbour(s.Head(), s.direction)
  }

  /** One move. The new head is refused if it leaves the grid or lands on any
      current body cell, including the tail cell that would vacate on this
      very move. Otherwise the head is prepended, and the tail is dropped
      unless growth is pending, in which case one unit of growth is used. */
  function Move(s: Snake): (r: MoveResult)
    requires |s.body| >= 1
    ensures r.Blocked? <==> !InBounds(NextHead(s)) || NextHead(s) in s.body
    ensures r.Advanced? ==>
              && r.snake.direction == s.direction
              && r.snake.score == s.score
              && |r.snake.body| >= 1 && r.snake.body[0] == NextHead(s)
    ensures r.Advanced? && s.growPending > 0 ==>
              && r.snake.body == [NextHead(s)] + s.body
              && r.snake.growPending == s.growPending - 1
    ensures r.Advanced? && s.growPending == 0 ==>
              && r.snake.body == [NextHead(s)] + s.body[..|s.body| - 1]
              && r.snake.growPending == 0
  {
    var h := NextHead(s);
    if h.x < 0 || h.x >= GridWidth || h.y < 0 || h.y >= GridHeight then
      Blocked
    else if h in s.body then
      Blocked
    else if s.growPending > 0 then
      Advanced(s.(body := [h] + s.body, growPending := s.growPending - 1))
    else
      Advanced(s.(body := [h] + s.body[..|s.body| - 1]))
  }

  /** Eating: one more cell of growth is owed and the score rises by 10; the
      body itself does not move. */
  function Grow(s: Snake): (r: Snake)
    ensures r.body == s.body && r.direction == s.direction
    ensures r.growPending == s.growPending + 1
    ensures r.score == s.score + FoodScore
  {
    s.(growPending := s.growPending + 1, score := s.score + FoodScore)
  }

  /** A heading request. It is ignored when it is the exact reverse of the
      current heading; otherwise it replaces the heading at once, with no
      queueing until the next move. */
  function ChangeDirection(s: Snake, d: Direction): (r: Snake)
    ensures d == Opposite(s.direction) ==> r == s
    ensures d != Opposite(s.direction) ==> r == s.(direction := d)
    ensures r.body == s.body && r.growPending == s.growPending && r.score == s.score
  {
    DeltaInjective(d, s.direction);
    if Negate(Delta(d)) != Delta(s.direction) then s.(direction := d) else s
  }

  /** A move keeps every body cell on the grid, keeps the cells pairwise
      distinct, keeps the body non-empty and keeps length, pending growth and
      score in balance. */
  lemma MovePreservesValid(s: Snake)
    requires ValidSnake(s)
    ensures Move(s).Advanced? ==> ValidSnake(Move(s).snake)
  {
  }

  /** Eating keeps the snake valid: the growth owed and the score rise
      together. */
  lemma GrowPreservesValid(s: Snake)
    requires ValidSnake(s)
    ensures ValidSnake(Grow(s))
  {
  }

  /** Heading changes never touch body, growth or score, so they keep the
      snake valid. */
  lemma ChangeDirectionPreservesValid(s: Snake, d: Direction)
    requires ValidSnake(s)
    ensures ValidSnake(ChangeDirection(s, d))
  {
  }

  /** A heading that points off the grid from the edge row or column it faces
      leaves the grid: the move is refused. */
  lemma EdgeBlocks(s: Snake)
    requires |s.body| >= 1
    ensures s.direction == Up && s.Head().y == 0 ==> Move(s).Blocked?
    ensures s.direction == Left && s.Head().x == 0 ==> Move(s).Blocked?
    ensures s.direction == Down && s.Head().y == GridHeight - 1 ==> Move(s).Blocked?
    ensures s.direction == Right && s.Head().x == GridWidth - 1 ==> Move(s).Blocked?
  {
  }

  /** The tail cell still blocks: a move onto the current last cell is
      refused even when no growth is pending and that cell would be vacated. */
  lemma TailCellBlocks(s: Snake)
    requires |s.body| >= 1
    requires NextHead(s) == s.body[|s.body| - 1]
    ensures Move(s).Blocked?
  {
  }
}
