/** The playing field of the snake game: a fixed grid of integer cells and the
    four unit directions the snake can travel in. */
module Grid {

  /** Window size in pixels and the pixel pitch of one cell. */
  const ScreenWidth: int := 600
  const ScreenHeight: int := 600
  const CellPitch: int := 20

  /** Number of cells along each axis (600 / 20 = 30). */
  const GridWidth: int := ScreenWidth / CellPitch
  const GridHeight: int := ScreenHeight / CellPitch

  /** A cell, or a displacement between cells, as an integer pair. */
  datatype Cell = Cell(x: int, y: int)

  /** The four headings; their unit displacements are given by Delta. */
  datatype Direction = Up | Down | Left | Right

  /** The displacement one move in direction d applies (y grows downwards). */
  function Delta(d: Direction): (v: Cell)
    ensures v.x * v.x + v.y * v.y == 1
  {
    match d
    case Up => Cell(0, -1)
    case Down => Cell(0, 1)
    case Left => Cell(-1, 0)
    case Right => Cell(1, 0)
  }

  /** The heading pointing the other way. */
  function Opposite(d: Direction): (o: Direction)
    ensures o != d
  {
    match d
    case Up => Down
    case Down => Up
    case Left => Right
    case Right => Left
  }

  /** Component-wise negation of a displacement. */
  function Negate(v: Cell): Cell
  {
    Cell(-v.x, -v.y)
  }

  /** Distinct headings have distinct displacements, and the negated
      displacement of d is the displacement of exactly one heading: its
      opposite. */
  lemma DeltaInjective(a: Direction, b: Direction)
    ensures Delta(a) == Delta(b) <==> a == b
    ensures Negate(Delta(a)) == Delta(b) <==> b == Opposite(a)
    ensures b == Opposite(a) <==> a == Opposite(b)
  {
  }

  /** The cell reached from c by one step in direction d. Rows grow
      downwards: Up lowers y and Down raises it. */
  function Neighbour(c: Cell, d: Direction): (n: Cell)
    ensures n != c
    ensures || (n.x == c.x && (n.y == c.y + 1 || n.y == c.y - 1))
            || (n.y == c.y && (n.x == c.x + 1 || n.x == c.x - 1))
    ensures d.Up? || d.Down? <==> n.x == c.x
    ensures d.Left? || d.Right? <==> n.y == c.y
    ensures d.Up? ==> n.y == c.y - 1
    ensures d.Down? ==> n.y == c.y + 1
    ensures d.Left? ==> n.x == c.x - 1
    ensures d.Right? ==> n.x == c.x + 1
  {
    Cell(c.x + Delta(d).x, c.y + Delta(d).y)
  }

  /** A step and then a step the opposite way come back to the start, and
      steps in different directions from the same cell land on different
      cells. */
  lemma NeighbourBack(c: Cell, d: Direction, e: Direction)
    ensures Neighbour(Neighbour(c, d), Opposite(d)) == c
    ensures Neighbour(c, d) == Neighbour(c, e) <==> d == e
  {
    DeltaInjective(d, e);
  }

  /** True iff c lies inside [0, GridWidth) x [0, GridHeight). */
  predicate InBounds(c: Cell)
  {
    0 <= c.x < GridWidth && 0 <= c.y < GridHeight
  }

  /** Every cell of s lies on the grid. */
  predicate AllInBounds(s: seq<Cell>)
  {
    forall i :: 0 <= i < |s| ==> InBounds(s[i])
  }

  /** No cell occurs twice in s. */
  predicate Distinct(s: seq<Cell>)
  {
    forall i, j :: 0 <= i < j < |s| ==> s[i] != s[j]
  }
}
