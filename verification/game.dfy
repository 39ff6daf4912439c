/** The game state machine: a snake, a food cell, the game-over flag and the
    cursor of the two-entry game-over menu, driven once per frame by the
    player's intents and then by one update. The random source is the stream
    `draws` of cells it will still produce. */
module GameMachine {
  import opened Optional
  import opened Grid
  import opened SnakeState
  import opened FoodPlacement

  /** Entries of the game-over menu: 0 is Restart, 1 is Quit. */
  const MenuSize: int := 2

  datatype Game = Game(snake: Snake, food: Food, gameOver: bool, selected: int, draws: seq<Cell>)

  /** What the player asked for, already stripped of physical key codes. */
  datatype Intent =
    | MoveUp | MoveDown | MoveLeft | MoveRight
    | MenuUp | MenuDown | Confirm | Restart | Quit

  /** A game after some intents were handled, and whether the frame loop
      keeps running. */
  datatype Step = Step(game: Game, running: bool)

  /** What holds in every reachable state: a valid snake, food on the grid
      and off the body, a cursor on one of the two menu entries that rests on
      Restart whenever the game is being played, and an on-grid stream. */
  predicate ValidGame(g: Game)
  {
    && ValidSnake(g.snake)
    && InBounds(g.food.position)
    && g.food.position !in g.snake.body
    && 0 <= g.selected < MenuSize
    && (!g.gameOver ==> g.selected == 0)
    && ValidDraws(g.draws)
  }

  /** The heading a movement intent asks for. */
  function TurnDirection(i: Intent): Direction
    requires i.MoveUp? || i.MoveDown? || i.MoveLeft? || i.MoveRight?
  {
    match i
    case MoveUp => Up
    case MoveDown => Down
    case MoveLeft => Left
    case MoveRight => Right
  }

  /** A game freshly set up on the stream `draws`: reset snake, food on the
      first draw that is off the snake, playing, cursor on Restart. None when
      the stream holds no free cell. */
  function NewGame(draws: seq<Cell>): (r: Option<Game>)
    requires ValidDraws(draws)
    ensures r.Some? ==> ValidGame(r.value) && !r.value.gameOver && r.value.snake == SnakeState.Reset()
    ensures r.Some? ==>
              var p := Redraw([Cell(15, 15)], draws);
              p.Placed? && r.value.food == p.food && r.value.draws == draws[p.used..]
    ensures r.None? <==> forall j :: 0 <= j < |draws| ==> draws[j] == Cell(15, 15)
  {
    var s := SnakeState.Reset();
    match Redraw(s.body, draws)
    case Exhausted => None
    case Placed(f, k) =>
      RedrawInBounds(s.body, draws);
      Some(Game(s, f, false, 0, draws[k..]))
  }

  /** restart_game: reset the snake, draw new food off its body, resume play
      and put the cursor back on Restart. Whatever the phase, the score,
      growth and cursor before it, only the random stream affects the result. */
  function RestartGame(g: Game): (r: Option<Game>)
    requires ValidDraws(g.draws)
    ensures r.Some? ==>
              && r.value.snake == SnakeState.Reset()
              && !r.value.gameOver && r.value.selected == 0
              && r.value.food.position !in r.value.snake.body
              && ValidGame(r.value)
    ensures r.Some? ==>
              var p := Redraw([Cell(15, 15)], g.draws);
              p.Placed? && r.value.food == p.food && r.value.draws == g.draws[p.used..]
    ensures r.None? <==> forall j :: 0 <= j < |g.draws| ==> g.draws[j] == Cell(15, 15)
  {
    var s := SnakeState.Reset();
    match Redraw(s.body, g.draws)
    case Exhausted => None
    case Placed(f, k) =>
      RedrawInBounds(s.body, g.draws);
      SuffixValidDraws(g.draws, k);
      Some(g.(snake := s, food := f, gameOver := false, selected := 0, draws := g.draws[k..]))
  }

  /** One frame's update. While the game is over nothing changes. Otherwise
      the snake moves; a blocked move ends the game and changes nothing else.
      When the new head is on the food the snake grows, scoring 10, and new
      food is drawn off the body. None only when the stream has no free cell
      left for the new food. */
  function Update(g: Game): (r: Option<Game>)
    requires |g.snake.body| >= 1
    ensures g.gameOver ==> r == Some(g)
    ensures !g.gameOver && Move(g.snake).Blocked? ==> r == Some(g.(gameOver := true))
    ensures !g.gameOver && Move(g.snake).Advanced? && NextHead(g.snake) != g.food.position ==>
              r == Some(g.(snake := Move(g.snake).snake))
    ensures !g.gameOver && Move(g.snake).Advanced? && NextHead(g.snake) == g.food.position && r.Some? ==>
              && r.value.snake.body == Move(g.snake).snake.body
              && r.value.snake.direction == g.snake.direction
              && r.value.snake.score == g.snake.score + 10
              && r.value.snake.growPending == Move(g.snake).snake.growPending + 1
              && r.value.food.position !in r.value.snake.body
              && !r.value.gameOver && r.value.selected == g.selected
              && var p := Redraw(Move(g.snake).snake.body, g.draws);
                 p.Placed? && r.value.food == p.food && r.value.draws == g.draws[p.used..]
    ensures r.None? <==>
              && !g.gameOver && Move(g.snake).Advanced? && NextHead(g.snake) == g.food.position
              && forall j :: 0 <= j < |g.draws| ==> g.draws[j] in Move(g.snake).snake.body
  {
    if g.gameOver then
      Some(g)
    else
      match Move(g.snake)
      case Blocked => Some(g.(gameOver := true))
      case Advanced(s) =>
        if s.Head() == g.food.position then
          var grown := Grow(s);
          match Redraw(grown.body, g.draws)
          case Exhausted => None
          case Placed(f, k) => Some(g.(snake := grown, food := f, draws := g.draws[k..]))
        else
          Some(g.(snake := s))
  }

  /** One intent, as handle_events treats the key behind it. Quit stops the
      loop in either phase and Restart restarts in either phase. In the
      game-over menu, up and down move the cursor modulo 2 (Python's `%`
      and Dafny's agree for a positive divisor) and Confirm restarts on entry
      0 and stops the loop on entry 1; movement intents are ignored there.
      While playing, a movement intent changes the heading at once, and menu
      intents are ignored. */
  function HandleIntent(g: Game, i: Intent): (r: Option<Step>)
    requires ValidDraws(g.draws)
    ensures i.Quit? ==> r == Some(Step(g, false))
    ensures r.Some? && !r.value.running ==>
              r.value.game == g && (i.Quit? || (i.Confirm? && g.gameOver && g.selected != 0))
    ensures i.Confirm? && g.gameOver && g.selected != 0 ==> r == Some(Step(g, false))
    ensures i.Restart? || (i.Confirm? && g.gameOver && g.selected == 0) ==>
              match RestartGame(g)
              case None => r.None?
              case Some(g') => r == Some(Step(g', true))
    ensures g.gameOver && (i.MenuUp? || i.MenuDown?) ==>
              r == Some(Step(g.(selected := (g.selected + (if i.MenuUp? then -1 else 1)) % MenuSize), true))
    ensures !g.gameOver && (i.MoveUp? || i.MoveDown? || i.MoveLeft? || i.MoveRight?) ==>
              r == Some(Step(g.(snake := ChangeDirection(g.snake, TurnDirection(i))), true))
    ensures (g.gameOver && (i.MoveUp? || i.MoveDown? || i.MoveLeft? || i.MoveRight?))
            || (!g.gameOver && (i.MenuUp? || i.MenuDown? || i.Confirm?)) ==>
              r == Some(Step(g, true))
  {
    match i
    case Quit => Some(Step(g, false))
    case Restart => Restarted(g)
    case MenuUp =>
      if g.gameOver then Some(Step(g.(selected := (g.selected - 1) % MenuSize), true))
      else Some(Step(g, true))
    case MenuDown =>
      if g.gameOver then Some(Step(g.(selected := (g.selected + 1) % MenuSize), true))
      else Some(Step(g, true))
    case Confirm =>
      if !g.gameOver then Some(Step(g, true))
      else if g.selected == 0 then Restarted(g)
      else Some(Step(g, false))
    case MoveUp => Turn(g, Up)
    case MoveDown => Turn(g, Down)
    case MoveLeft => Turn(g, Left)
    case MoveRight => Turn(g, Right)
  }

  /** A heading request: honoured only while playing. */
  function Turn(g: Game, d: Direction): Option<Step>
  {
    if g.gameOver then Some(Step(g, true))
    else Some(Step(g.(snake := ChangeDirection(g.snake, d)), true))
  }

  /** restart_game seen from the event loop, which keeps running. */
  function Restarted(g: Game): Option<Step>
    requires ValidDraws(g.draws)
  {
    match RestartGame(g)
    case None => None
    case Some(g') => Some(Step(g', true))
  }

  /** handle_events over one frame's intents: each is handled in order; the
      first one that stops the loop returns at once and the rest of the frame's
      intents are dropped. */
  function HandleEvents(g: Game, intents: seq<Intent>): (r: Option<Step>)
    requires ValidDraws(g.draws)
    decreases |intents|
    ensures |intents| == 0 ==> r == Some(Step(g, true))
    ensures |intents| > 0 && intents[0].Quit? ==> r == Some(Step(g, false))
    ensures |intents| > 0 && HandleIntent(g, intents[0]).Some? && !HandleIntent(g, intents[0]).value.running ==>
              r == HandleIntent(g, intents[0])
    ensures |intents| > 0 && HandleIntent(g, intents[0]).None? ==> r.None?
    ensures r.Some? && !r.value.running ==>
              exists k :: 0 <= k < |intents| && (intents[k].Quit? || intents[k].Confirm?)
  {
    if |intents| == 0 then
      Some(Step(g, true))
    else
      match HandleIntent(g, intents[0])
      case None => None
      case Some(st) =>
        if !st.running then Some(st)
        else
          assert ValidDraws(st.game.draws) by { HandleIntentKeepsDraws(g, intents[0]); }
          var rest := HandleEvents(st.game, intents[1..]);
          assert rest.Some? && !rest.value.running ==>
                   exists k :: 0 <= k < |intents| && (intents[k].Quit? || intents[k].Confirm?) by {
            if rest.Some? && !rest.value.running {
              var k :| 0 <= k < |intents[1..]| && (intents[1..][k].Quit? || intents[1..][k].Confirm?);
              assert intents[k + 1] == intents[1..][k];
            }
          }
          rest
  }

  /** One frame of the main loop: handle the frame's intents, then update,
      even when an intent has just asked the loop to stop. */
  function Tick(g: Game, intents: seq<Intent>): (r: Option<Step>)
    requires ValidGame(g)
    ensures HandleEvents(g, intents).Some? ==> ValidGame(HandleEvents(g, intents).value.game)
    ensures r.Some? ==> ValidGame(r.value.game)
    ensures r.Some? ==> HandleEvents(g, intents).Some? && r.value.running == HandleEvents(g, intents).value.running
    ensures r.Some? ==> Update(HandleEvents(g, intents).value.game) == Some(r.value.game)
    ensures r.None? ==> HandleEvents(g, intents).None? || Update(HandleEvents(g, intents).value.game).None?
  {
    HandleEventsPreservesValid(g, intents);
    match HandleEvents(g, intents)
    case None => None
    case Some(st) =>
      UpdatePreservesValid(st.game);
      match Update(st.game)
      case None => None
      case Some(g') => Some(Step(g', st.running))
  }

  /** The frame loop: one tick per frame until a frame's intents stop it.
      Every state it reaches is valid. */
  function Run(g: Game, frames: seq<seq<Intent>>): (r: Option<Step>)
    requires ValidGame(g)
    decreases |frames|
    ensures r.Some? ==> ValidGame(r.value.game)
    ensures |frames| == 0 ==> r == Some(Step(g, true))
    ensures |frames| > 0 && Tick(g, frames[0]).None? ==> r.None?
    ensures |frames| > 0 && Tick(g, frames[0]).Some? && !Tick(g, frames[0]).value.running ==>
              r == Tick(g, frames[0])
    ensures |frames| > 0 && Tick(g, frames[0]).Some? && Tick(g, frames[0]).value.running ==>
              r == Run(Tick(g, frames[0]).value.game, frames[1..])
  {
    if |frames| == 0 then
      Some(Step(g, true))
    else
      match Tick(g, frames[0])
      case None => None
      case Some(st) =>
        if !st.running then Some(st) else Run(st.game, frames[1..])
  }

  /** Once a frame has stopped the loop, later frames are never played:
      running on with more frames gives the same outcome. */
  lemma {:induction false} RunStopsEarly(g: Game, fs: seq<seq<Intent>>, more: seq<seq<Intent>>)
    requires ValidGame(g)
    requires Run(g, fs).Some? && !Run(g, fs).value.running
    ensures Run(g, fs + more) == Run(g, fs)
    decreases |fs|
  {
    var all := fs + more;
    assert |fs| > 0 && all[0] == fs[0] && all[1..] == fs[1..] + more;
    var t := Tick(g, fs[0]);
    if t.Some? && t.value.running {
      RunStopsEarly(t.value.game, fs[1..], more);
    }
  }

  /** Handling an intent keeps the random stream on the grid. */
  lemma HandleIntentKeepsDraws(g: Game, i: Intent)
    requires ValidDraws(g.draws)
    ensures HandleIntent(g, i).Some? ==> ValidDraws(HandleIntent(g, i).value.game.draws)
  {
  }

  /** A fresh game and a restart of any game on the same stream are the same
      game: restarting forgets everything but the random stream. */
  lemma RestartIsNewGame(g: Game)
    requires ValidDraws(g.draws)
    ensures RestartGame(g) == NewGame(g.draws)
  {
  }

  /** A suffix of an on-grid stream is on the grid. */
  lemma {:induction false} SuffixValidDraws(draws: seq<Cell>, k: nat)
    requires k <= |draws|
    requires ValidDraws(draws)
    ensures ValidDraws(draws[k..])
  {
  }

  /** An update keeps the game valid: the snake stays valid, the food stays
      on the grid and off the body, and the cursor is untouched. */
  lemma UpdatePreservesValid(g: Game)
    requires ValidGame(g)
    ensures Update(g).Some? ==> ValidGame(Update(g).value)
  {
    if !g.gameOver && Move(g.snake).Advanced? {
      MovePreservesValid(g.snake);
      var s := Move(g.snake).snake;
      if s.Head() == g.food.position {
        GrowPreservesValid(s);
        RedrawInBounds(Grow(s).body, g.draws);
        if Redraw(Grow(s).body, g.draws).Placed? {
          SuffixValidDraws(g.draws, Redraw(Grow(s).body, g.draws).used);
        }
      } else {
        FoodOffMovedBody(g.snake, g.food.position);
      }
    }
  }

  /** Food that was off the body and is not where the head moves stays off
      the body after the move. */
  lemma FoodOffMovedBody(s: Snake, food: Cell)
    requires |s.body| >= 1 && food !in s.body
    requires Move(s).Advanced? && NextHead(s) != food
    ensures food !in Move(s).snake.body
  {
  }

  /** Handling one intent keeps the game valid. */
  lemma HandleIntentPreservesValid(g: Game, i: Intent)
    requires ValidGame(g)
    ensures HandleIntent(g, i).Some? ==> ValidGame(HandleIntent(g, i).value.game)
  {
  }

  /** Handling a whole frame of intents keeps the game valid. */
  lemma {:induction false} HandleEventsPreservesValid(g: Game, intents: seq<Intent>)
    requires ValidGame(g)
    ensures HandleEvents(g, intents).Some? ==> ValidGame(HandleEvents(g, intents).value.game)
    decreases |intents|
  {
    if |intents| > 0 {
      HandleIntentPreservesValid(g, intents[0]);
      var r := HandleIntent(g, intents[0]);
      if r.Some? && r.value.running {
        HandleEventsPreservesValid(r.value.game, intents[1..]);
      }
    }
  }
}
