/** The food cell and its placement. The random number generator is replaced
    by an injected stream of draws: each call to the randomiser consumes the
    next cell of the stream. snake_game.py redraws until the food is off the
    body and never gives up; here a finite stream that runs out before a free
    cell turns up yields Exhausted, and nothing is claimed about termination
    of the unbounded loop itself. */
module FoodPlacement {
  import opened Grid

  datatype Food = Food(position: Cell)

  /** Result of placing food with a finite stream of draws: the food placed
      and how many draws were consumed, or Exhausted when every available
      draw landed on the body. */
  datatype Placement = Placed(food: Food, used: nat) | Exhausted

  /** The stream only yields cells on the grid, as the uniform draw over
      [0, GridWidth - 1] x [0, GridHeight - 1] does. */
  predicate ValidDraws(draws: seq<Cell>)
  {
    AllInBounds(draws)
  }

  /** A placement seen from k draws earlier in the stream. */
  function Shift(p: Placement, k: nat): Placement
  {
    match p
    case Exhausted => Exhausted
    case Placed(g, n) => Placed(g, n + k)
  }

  /** Does the food sit on one of the body cells? */
  function CheckCollision(f: Food, body: seq<Cell>): (r: bool)
    ensures r <==> exists i :: 0 <= i < |body| && body[i] == f.position
  {
    f.position in body
  }

  /** Keep drawing a fresh position from the stream for as long as the food
      is on the body. With no collision nothing is drawn; otherwise the food
      lands on the first draw that is off the body. */
  function EnsureFoodValid(f: Food, body: seq<Cell>, draws: seq<Cell>): (r: Placement)
    decreases |draws|
    ensures r.Placed? ==> r.used <= |draws| && !CheckCollision(r.food, body)
    ensures !CheckCollision(f, body) ==> r == Placed(f, 0)
    ensures r.Placed? && r.used == 0 ==> r.food == f
    ensures r.Placed? && r.used > 0 ==>
              && CheckCollision(f, body)
              && r.food.position == draws[r.used - 1]
              && forall j :: 0 <= j < r.used - 1 ==> draws[j] in body
    ensures r.Exhausted? <==>
              CheckCollision(f, body) && forall j :: 0 <= j < |draws| ==> draws[j] in body
  {
    if !CheckCollision(f, body) then
      Placed(f, 0)
    else if |draws| == 0 then
      Exhausted
    else
      Shift(EnsureFoodValid(Food(draws[0]), body, draws[1..]), 1)
  }

  /** randomize_position followed by ensure_food_valid: the food always takes
      one new draw, then redraws while it is on the body. The food ends on the
      first draw of the stream that is off the body. */
  function Redraw(body: seq<Cell>, draws: seq<Cell>): (r: Placement)
    ensures r.Placed? ==>
              && 1 <= r.used <= |draws|
              && r.food.position == draws[r.used - 1]
              && r.food.position !in body
              && forall j :: 0 <= j < r.used - 1 ==> draws[j] in body
    ensures r.Exhausted? <==> forall j :: 0 <= j < |draws| ==> draws[j] in body
  {
    if |draws| == 0 then
      Exhausted
    else
      Shift(EnsureFoodValid(Food(draws[0]), body, draws[1..]), 1)
  }

  /** Food placed from an on-grid stream is on the grid. */
  lemma RedrawInBounds(body: seq<Cell>, draws: seq<Cell>)
    requires ValidDraws(draws)
    ensures Redraw(body, draws).Placed? ==> InBounds(Redraw(body, draws).food.position)
  {
  }

  /** ensure_food_valid as the while loop of snake_game.py: redraw while the food is
      on the body, here also stopping when the stream runs dry. It agrees with
      the recursive definition and places the food on the first free cell. */
  method EnsureFoodValidLoop(f: Food, body: seq<Cell>, draws: seq<Cell>)
      returns (g: Food, used: nat, ok: bool)
    ensures used <= |draws|
    ensures ok ==> !CheckCollision(g, body)
    ensures ok && used == 0 ==> g == f
    ensures ok && used > 0 ==>
              && g.position == draws[used - 1]
              && f.position in body
              && forall j :: 0 <= j < used - 1 ==> draws[j] in body
    ensures !ok <==> f.position in body && forall j :: 0 <= j < |draws| ==> draws[j] in body
    ensures ok ==> EnsureFoodValid(f, body, draws) == Placed(g, used)
    ensures !ok ==> EnsureFoodValid(f, body, draws) == Exhausted
  {
    g := f;
    used := 0;
    assert draws[0..] == draws;
    while g.position in body && used < |draws|
      invariant used <= |draws|
      invariant used == 0 ==> g == f
      invariant used > 0 ==> g.position == draws[used - 1] && f.position in body
      invariant forall j :: 0 <= j < used - 1 ==> draws[j] in body
      invariant EnsureFoodValid(f, body, draws) == Shift(EnsureFoodValid(g, body, draws[used..]), used)
      decreases |draws| - used
    {
      assert draws[used..][1..] == draws[used + 1..];
      g := Food(draws[used]);
      used := used + 1;
    }
    ok := g.position !in body;
  }
}
