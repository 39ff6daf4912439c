# Snake game engine in Dafny

This project models the game-state engine of a single-player snake game, `snake_game.py`.
A snake moves on a 30×30 grid of cells. It grows by eating food and dies on hitting a wall or
itself. A two-entry menu (Restart, Quit) appears when the game is over. The display, fonts and
keyboard polling are left out.

Modules:

- `Grid` (`grid.dfy`) holds the grid constants. The window is 600×600 pixels with a cell pitch
  of 20, so the grid is 30×30. It also holds cells, the four headings and their unit
  displacements, bounds, and distinctness.
- `SnakeState` (`snake.dfy`) is the `Snake` class: `reset`, `move`, `grow` and
  `change_direction`, and the snake invariant `ValidSnake`. The invariant says:
  - the body is non-empty, on the grid and free of duplicates;
  - length plus pending growth equals 4 + score/10;
  - the score is a multiple of 10.
- `FoodPlacement` (`food.dfy`) is the `Food` class and `Game.ensure_food_valid`. It has a
  recursive definition, `EnsureFoodValid`, and the `while` loop of snake_game.py as a method,
  `EnsureFoodValidLoop`. A loop invariant ties the two together.
- `GameMachine` (`game.dfy`) is the `Game` class:
  - construction, `update` and `restart_game`;
  - the key handling of `handle_events`, written as a fold over an abstract `Intent`;
  - one frame of the main loop (`Tick`: handle events, then update) and the loop itself (`Run`);
  - the game invariant `ValidGame`, which is the snake invariant plus these facts: the food is
    on the grid and off the body, the cursor is 0 or 1, the cursor is 0 during play, and the
    random stream is on the grid.
- `GameProperties` (`properties.dfy`) holds lemmas that relate several operations. They cover
  the restart paths, menu cycling, heading requests within one frame, a wall hit, and the
  opening moves of a fresh game.

Randomness is injected. A game carries `draws`, the cells the random generator will still
produce. Each `randomize_position` consumes one cell from it. snake_game.py redraws food
without limit. In the model, a finite stream whose every remaining cell lies on the body yields
`None` (`Exhausted` inside `FoodPlacement`). This stands in for the game looping forever, and
nothing is claimed about how that loop terminates. `Option` lives in its own small module,
`Optional` (`optional.dfy`).

Two behaviours of the code are modelled exactly:

- A heading change takes effect at once, and every intent of a frame is handled before the
  frame's single move. So "up, then left" while heading right passes the reversal check twice.
  The snake then turns back onto its own neck and the game ends (`ReverseWithinOneFrame`).
- `update` does not touch the menu cursor when the game ends (snake_game.py:222-226). The
  cursor is 0 at that point anyway, because `ValidGame` keeps it at 0 throughout play
  (`GameOverEntryCursorIsRestart`).

Two further facts about snake_game.py shape the model:

- `ensure_food_valid` retries without bound (lines 181-182). The model bounds the retries only
  by the length of the injected stream.
- The same up and down arrow keys turn the snake during play and move the menu cursor once the
  game is over (lines 192-195, 207-210). The model's `Intent` keeps movement and menu intents
  apart, and each phase ignores the other kind (see Left out).

## Model

| member | source | states |
|---|---|---|
| Grid.DeltaInjective | snake_game.py:41-44 | The four direction vectors are distinct. The negated vector of a heading is the vector of its opposite heading and of no other heading. |
| Grid.Delta | snake_game.py:41-44 | Each of the four direction constants is a unit step along one axis. |
| Grid.Neighbour | snake_game.py:57-59 | The new head is a horizontal or vertical neighbour of the old head, one cell away. Up lowers y by 1 and Down raises it by 1 (rows grow downwards). Left lowers x by 1 and Right raises it by 1. Up and down keep the column, and left and right keep the row. |
| Grid.NeighbourBack | snake_game.py:57-59 | A step and then a step the opposite way return to the start, and steps in different directions land on different cells. |
| SnakeState.Reset | snake_game.py:50-54 | A reset snake is the single cell (15,15), heading right, with 3 growth pending and score 0, and it satisfies the snake invariant. |
| SnakeState.Move | snake_game.py:56-76 | The move is blocked exactly when the new head is off the grid or on any current body cell. When growth is pending, the new body is the new head followed by the whole old body and the pending growth drops by 1. Otherwise the new body is the new head followed by the old body minus its last cell. Heading and score are unchanged. |
| SnakeState.Grow | snake_game.py:78-80 | Pending growth rises by exactly 1 and score by exactly 10. Body and heading are unchanged. |
| SnakeState.ChangeDirection | snake_game.py:82-84 | A request for the exact reverse of the current heading changes nothing. Any other request becomes the heading at once, and nothing else changes. |
| SnakeState.MovePreservesValid | snake_game.py:56-76 | After a successful move the body is still non-empty, on the grid and free of duplicates, and length + growth = 4 + score/10 still holds. |
| SnakeState.GrowPreservesValid | snake_game.py:78-80 | Eating keeps the conservation law and the score a multiple of 10. |
| SnakeState.ChangeDirectionPreservesValid | snake_game.py:82-84 | Heading changes keep the snake invariant. |
| SnakeState.EdgeBlocks | snake_game.py:56-63 | Moving up from row 0, down from the last row, left from column 0, or right from the last column leaves the grid, so the move is refused. |
| SnakeState.TailCellBlocks | snake_game.py:66-67 | A move onto the current tail cell is refused, even when that cell would be vacated by this move. |
| FoodPlacement.CheckCollision | snake_game.py:95-96 | The food collides exactly when some body cell equals its position. |
| FoodPlacement.EnsureFoodValid | snake_game.py:180-182 | Food already off the body is kept without drawing (0 draws used), and no draw is used only in that case. Food on the body is redrawn: it lands on the first draw that is off the body, and every earlier draw was on the body. The stream is exhausted exactly when the food and every draw are on the body. |
| FoodPlacement.Redraw | snake_game.py:91-93 | A fresh draw followed by the redraw loop places the food on the first draw of the stream that is off the body. It fails exactly when every draw is on the body. |
| FoodPlacement.RedrawInBounds | snake_game.py:91-93 | Food drawn from an on-grid stream lies on the grid. |
| FoodPlacement.EnsureFoodValidLoop | snake_game.py:180-182 | The while loop ends with the food off the body on the first free draw, or reports that every draw was on the body. Its result agrees with the recursive definition. |
| GameMachine.NewGame | snake_game.py:118-125 | A new game has a reset snake, is playing, and satisfies the game invariant. Its food is the first draw of the stream that is off (15,15), and the stream continues after the draws used. It fails only if every draw is the centre cell. |
| GameMachine.RestartGame | snake_game.py:322-328 | Restart gives a reset snake, play resumed, and the cursor on Restart, all satisfying the game invariant. The new food is the first draw off (15,15), and the stream continues after the draws used. It fails only when every draw is the centre cell. |
| GameMachine.RestartIsNewGame | snake_game.py:322-328 | Restart, written as the steps of restart_game applied to the old game, gives exactly the state of a freshly built game on the same random stream. Nothing of the old game survives but the stream. |
| GameMachine.Update | snake_game.py:222-231 | While game over, nothing changes. A blocked move sets game over and changes nothing else. A plain move replaces the snake with the moved snake. On food, the body is the moved body and the heading is unchanged. The score rises by exactly 10 and growth by exactly 1 over the moved snake, and the cursor is unchanged. The new food is the first draw off the body, and the stream continues after the draws used. Food placement fails exactly when, on the eat path, every draw is on the moved body. |
| GameMachine.UpdatePreservesValid | snake_game.py:222-231 | An update keeps the game invariant, including food never on the body. |
| GameMachine.HandleIntent | snake_game.py:189-218 | Quit stops the loop in either phase and changes nothing. Restart restarts in either phase, and so does Confirm on the Restart menu entry. Confirm on the Quit entry stops the loop and changes nothing. In the menu, up and down move the cursor ±1 mod 2. During play, turns go through the reversal check. Ignored intents leave the game unchanged. The loop stops only for Quit or Confirm on the Quit entry. |
| GameMachine.HandleIntentPreservesValid | snake_game.py:189-218 | Handling one intent keeps the game invariant. |
| GameMachine.HandleEvents | snake_game.py:184-220 | An empty frame changes nothing. When the first intent stops the loop (Quit, or Confirm on the Quit entry), the frame ends at once with that intent's result. A frame whose first intent runs out of draws fails. The loop is stopped only if some intent of the frame was Quit or Confirm. |
| GameMachine.HandleEventsPreservesValid | snake_game.py:184-220 | Handling a frame of intents keeps the game invariant. |
| GameMachine.Tick | snake_game.py:339-342 | One frame handles the intents and then updates, even when an intent asked to stop. The result is exactly the update of the state the intents left, with the running flag from the intent handling. It fails only if the intents or the update run out of draws, and it keeps the game invariant. |
| GameMachine.Run | snake_game.py:330-350 | No frames leave the game as it is and running. Each frame is one tick. A failing tick fails the run. A tick that stops the loop is the run's result, and the later frames are not played. A tick that keeps running hands its game to the remaining frames. Every state reached satisfies the game invariant. |
| GameMachine.RunStopsEarly | snake_game.py:339-342 | Once a frame has stopped the loop, appending more frames does not change the outcome. |
| GameProperties.GameOverEntryCursorIsRestart | snake_game.py:222-226 | Although update does not touch the cursor when the game ends, the cursor is then on Restart (0). |
| GameProperties.RestartFromEitherPhase | snake_game.py:196-218 | Restart during play, restart in the menu, and Confirm on Restart all give the same state on the same random stream: body [(15,15)], heading right, growth 3, score 0, playing, cursor 0, and food not on (15,15). |
| GameProperties.MenuStepsToggle | snake_game.py:192-195 | In the game-over menu, up and down each move the cursor to the other of the two entries. |
| GameProperties.MenuDownCycle | snake_game.py:194-195 | From cursor 0, three downward steps give cursors 1, 0, 1. |
| GameProperties.TurnsOnlyChangeHeading | snake_game.py:207-214 | A frame of heading requests during play keeps the loop running and changes nothing but the heading. The final heading is the old one or one of those requested. |
| GameProperties.HandleEventsAppend | snake_game.py:185-220 | Handling intents xs then ys is handling xs + ys, stopping early if xs stopped the loop. |
| GameProperties.LastTurnWins | snake_game.py:207-214 | The last heading request of a frame sets the heading, unless it is the reverse of the heading the earlier requests left. There is no queue. |
| GameProperties.QuitStopsFrame | snake_game.py:185-187 | A Quit in the middle of a frame returns at once: the intents after it are dropped, the game is as the intents before it left it, and the loop stops. |
| GameProperties.TurnHandled | snake_game.py:207-214 | During play, a heading request goes straight to the snake's change_direction and keeps the loop running. |
| GameProperties.TwoTurns | snake_game.py:207-214 | During play, two heading requests, each not the reverse of the heading before it, leave the snake heading in the second direction. |
| GameProperties.HandleEventsCons | snake_game.py:185-220 | When the first intent of a frame keeps the loop running, the rest of the frame is handled from the state it left. |
| GameProperties.BlockedFrame | snake_game.py:341-342 | A frame whose intents keep the loop running and whose move is blocked ends the game and changes nothing else. |
| GameProperties.PlainFrame | snake_game.py:222-231 | A frame without input whose move is neither blocked nor onto the food just moves the snake. |
| GameProperties.PlainFrameTo | snake_game.py:222-231 | An input-free frame whose move is plain takes the snake to the moved snake and keeps the game invariant. |
| GameProperties.RunPlainFrame | snake_game.py:339-342 | The main loop over an input-free frame with a plain move keeps running and plays the remaining frames from the moved snake. |
| GameProperties.GrowingMove | snake_game.py:56-72 | A move onto a free on-grid cell while growth is owed keeps the whole old body behind the new head and uses one unit of growth. |
| GameProperties.OpeningSnakeMoves | snake_game.py:50-72 | A reset snake's first three moves go to (16,15), (17,15) and (18,15), keeping every earlier cell, and use up the three units of growth. |
| GameProperties.ReverseWithinOneFrame | snake_game.py:82-84 | With the neck directly behind the head, a sideways request and then a backwards request in one frame are both accepted. The frame's move hits the neck, the game ends, and the body is unchanged. |
| GameProperties.WallEndsGame | snake_game.py:222-226 | From head (0, y) heading left, the update ends the game and leaves everything else as it was. |
| GameProperties.OpeningMoves | snake_game.py:50-76 | A fresh game whose food is off the path, run for three frames of the main loop without input, keeps running. The body is [(18,15),(17,15),(16,15),(15,15)] heading right, with no growth pending and score 0. Nothing else changes: still playing, same food, same stream. |

## Left out

- Rendering is left out: `draw_game`, `draw_text_safe`, `draw_game_over_menu`, `draw`, the font fallbacks (`get_safe_font`, `create_fallback_font`) and the screen setup in `Game.__init__`. These are pixel output through a foreign library and do not affect game state.
- Physical key codes and `pygame.event.get` are left out. The model starts from abstract intents. In the code, the four arrow keys mean turns during play, and the up and down arrow keys move the cursor in the menu (left and right do nothing there); Enter and Space mean Confirm; Escape and the window's close event mean Quit; R means Restart. The mapping of a key to an intent depends on the phase at the moment the key is handled, and that mapping is not modelled.
- `random.randint` is replaced by the injected stream `draws`, assumed to produce only grid cells. Whether the draw is uniform cannot be stated here.
- The unbounded redraw loop is bounded only by the length of the injected stream. Whether the loop of snake_game.py terminates (it does not once the snake fills the grid) is not modelled.
- The frame rate (`clock.tick`) is left out because it is timing only.
- The catch-all exception handler of the main loop is left out. The modelled operations raise no exceptions on valid states.
- The start-up error screen, `sys.exit`, `input`, `resource_path` and the console messages are process-level I/O.
- Python integers are unbounded, like Dafny's, so no overflow is modelled.
