/** Properties of the game engine that relate several operations: the
    restart paths, the menu cursor, the heading requests of one frame, and the
    opening moves of a fresh game. */
module GameProperties {
  import opened Optional
  import opened Grid
  import opened SnakeState
  import opened FoodPlacement
  import opened GameMachine

  /** Is i one of the four heading requests? */
  predicate IsTurn(i: Intent)
  {
    i.MoveUp? || i.MoveDown? || i.MoveLeft? || i.MoveRight?
  }

  /** The heading request for d. */
  function TurnIntent(d: Direction): (i: Intent)
    ensures IsTurn(i) && TurnDirection(i) == d
  {
    match d
    case Up => MoveUp
    case Down => MoveDown
    case Left => MoveLeft
    case Right => MoveRight
  }

  /** Update does not reset the cursor when the game ends; the cursor is on
      Restart anyway, because it rests there throughout play. */
  lemma GameOverEntryCursorIsRestart(g: Game)
    requires ValidGame(g) && !g.gameOver
    ensures Update(g).Some? && Update(g).value.gameOver ==> Update(g).value.selected == 0
  {
  }

  /** Restart gives the same state from play and from the game-over menu
      whatever score, growth, heading or cursor came before, and confirming
      the Restart entry of the menu is the same as the restart key. */
  lemma RestartFromEitherPhase(g1: Game, g2: Game)
    requires ValidDraws(g1.draws) && g1.draws == g2.draws
    requires g1.gameOver && g1.selected == 0 && !g2.gameOver
    ensures HandleIntent(g1, Restart) == HandleIntent(g2, Restart)
    ensures HandleIntent(g1, Confirm) == HandleIntent(g2, Restart)
    ensures HandleIntent(g2, Restart).Some? ==>
              var h := HandleIntent(g2, Restart).value;
              && h.running && !h.game.gameOver && h.game.selected == 0
              && h.game.snake.body == [Cell(15, 15)] && h.game.snake.direction == Right
              && h.game.snake.growPending == 3 && h.game.snake.score == 0
              && h.game.food.position != Cell(15, 15)
  {
  }

  /** In the game-over menu up and down are inverse steps on the two
      entries, and each moves the cursor to the other entry. */
  lemma MenuStepsToggle(g: Game)
    requires ValidGame(g) && g.gameOver
    ensures HandleIntent(g, MenuDown) == Some(Step(g.(selected := 1 - g.selected), true))
    ensures HandleIntent(g, MenuUp) == Some(Step(g.(selected := 1 - g.selected), true))
  {
  }

  /** From the Restart entry, three downward steps visit Quit, Restart, Quit. */
  lemma MenuDownCycle(g: Game)
    requires ValidGame(g) && g.gameOver && g.selected == 0
    ensures HandleEvents(g, [MenuDown]).value.game.selected == 1
    ensures HandleEvents(g, [MenuDown, MenuDown]).value.game.selected == 0
    ensures HandleEvents(g, [MenuDown, MenuDown, MenuDown]) == Some(Step(g.(selected := 1), true))
  {
  }

  /** Heading requests during play change nothing but the heading, never stop
      the loop, and leave the snake heading either as before or in one of the
      requested directions. */
  lemma {:induction false} TurnsOnlyChangeHeading(g: Game, xs: seq<Intent>)
    requires ValidDraws(g.draws) && !g.gameOver
    requires forall k :: 0 <= k < |xs| ==> IsTurn(xs[k])
    ensures HandleEvents(g, xs).Some?
    ensures HandleEvents(g, xs).value.running
    ensures var h := HandleEvents(g, xs).value.game;
            h == g.(snake := g.snake.(direction := h.snake.direction))
    ensures var d := HandleEvents(g, xs).value.game.snake.direction;
            d == g.snake.direction || exists k :: 0 <= k < |xs| && IsTurn(xs[k]) && TurnDirection(xs[k]) == d
    decreases |xs|
  {
    if |xs| > 0 {
      var g' := g.(snake := ChangeDirection(g.snake, TurnDirection(xs[0])));
      assert HandleIntent(g, xs[0]) == Some(Step(g', true));
      var rest := xs[1..];
      assert forall k :: 0 <= k < |rest| ==> rest[k] == xs[k + 1];
      TurnsOnlyChangeHeading(g', rest);
      var d := HandleEvents(g', rest).value.game.snake.direction;
      if d != g'.snake.direction {
        var k :| 0 <= k < |rest| && IsTurn(rest[k]) && TurnDirection(rest[k]) == d;
        assert TurnDirection(xs[k + 1]) == d;
      } else if d != g.snake.direction {
        assert TurnDirection(xs[0]) == d;
      }
    }
  }

  /** Handling a frame of intents in two parts is handling them in one. */
  lemma {:induction false} HandleEventsAppend(g: Game, xs: seq<Intent>, ys: seq<Intent>)
    requires ValidGame(g)
    ensures HandleEvents(g, xs).Some? ==> ValidGame(HandleEvents(g, xs).value.game)
    ensures HandleEvents(g, xs + ys) ==
              match HandleEvents(g, xs)
              case None => None
              case Some(st) =>
                if !st.running then Some(st)
                else HandleEvents(st.game, ys)
    decreases |xs|
  {
    HandleEventsPreservesValid(g, xs);
    if |xs| == 0 {
      assert xs + ys == ys;
    } else {
      assert (xs + ys)[0] == xs[0];
      assert (xs + ys)[1..] == xs[1..] + ys;
      HandleIntentPreservesValid(g, xs[0]);
      var r := HandleIntent(g, xs[0]);
      if r.Some? && r.value.running {
        HandleEventsAppend(r.value.game, xs[1..], ys);
      }
    }
  }

  /** Only the last heading request of a frame decides the heading the next
      move uses, provided it is not the reverse of the heading the earlier
      requests left behind; there is no queue of requests. */
  lemma LastTurnWins(g: Game, xs: seq<Intent>, d: Direction)
    requires ValidGame(g) && !g.gameOver
    requires forall k :: 0 <= k < |xs| ==> IsTurn(xs[k])
    requires HandleEvents(g, xs).Some?
    requires d != Opposite(HandleEvents(g, xs).value.game.snake.direction)
    ensures HandleEvents(g, xs + [TurnIntent(d)]).Some?
    ensures HandleEvents(g, xs + [TurnIntent(d)]).value.game.snake.direction == d
  {
    TurnsOnlyChangeHeading(g, xs);
    HandleEventsAppend(g, xs, [TurnIntent(d)]);
    var h := HandleEvents(g, xs).value.game;
    assert HandleEvents(h, [TurnIntent(d)]) == HandleIntent(h, TurnIntent(d));
  }

  /** Quit returns at once: whatever intents follow it in the same frame are
      dropped, and the game is left as the intents before it made it. */
  lemma QuitStopsFrame(g: Game, xs: seq<Intent>, ys: seq<Intent>)
    requires ValidGame(g)
    requires HandleEvents(g, xs).Some? && HandleEvents(g, xs).value.running
    ensures HandleEvents(g, xs + [Quit] + ys) == Some(Step(HandleEvents(g, xs).value.game, false))
  {
    HandleEventsAppend(g, xs, [Quit] + ys);
    assert xs + [Quit] + ys == xs + ([Quit] + ys);
    assert ([Quit] + ys)[0] == Quit;
  }

  /** During play a heading request goes straight to the snake. */
  lemma TurnHandled(g: Game, d: Direction)
    requires ValidDraws(g.draws) && !g.gameOver
    ensures HandleIntent(g, TurnIntent(d)) == Some(Step(g.(snake := ChangeDirection(g.snake, d)), true))
  {
  }

  /** Two heading requests during play, the second not the reverse of the
      first and the first not the reverse of the current heading, leave the
      snake heading in the second direction. */
  lemma TwoTurns(g: Game, a: Direction, b: Direction)
    requires ValidDraws(g.draws) && !g.gameOver
    requires a != Opposite(g.snake.direction) && b != Opposite(a)
    ensures HandleEvents(g, [TurnIntent(a), TurnIntent(b)])
              == Some(Step(g.(snake := g.snake.(direction := b)), true))
  {
    var g1 := g.(snake := g.snake.(direction := a));
    var g2 := g.(snake := g.snake.(direction := b));
    assert g1.(snake := g1.snake.(direction := b)) == g2;
    TurnHandled(g, a);
    TurnHandled(g1, b);
    HandleEventsCons(g, TurnIntent(a), [TurnIntent(b)], g1);
    HandleEventsCons(g1, TurnIntent(b), [], g2);
  }

  /** Handling a frame whose first intent keeps the loop running is handling
      the rest of the frame from the state that intent left. */
  lemma HandleEventsCons(g: Game, i: Intent, rest: seq<Intent>, h: Game)
    requires ValidDraws(g.draws) && ValidDraws(h.draws)
    requires HandleIntent(g, i) == Some(Step(h, true))
    ensures HandleEvents(g, [i] + rest) == HandleEvents(h, rest)
  {
    assert ([i] + rest)[1..] == rest;
  }

  /** A frame whose intents keep the loop running and whose move is blocked
      ends the game and changes nothing else. */
  lemma BlockedFrame(g: Game, xs: seq<Intent>, h: Game)
    requires ValidGame(g)
    requires HandleEvents(g, xs) == Some(Step(h, true))
    requires !h.gameOver && |h.snake.body| >= 1 && Move(h.snake).Blocked?
    ensures Tick(g, xs) == Some(Step(h.(gameOver := true), true))
  {
  }

  /** Two heading requests in one frame, first sideways and then backwards,
      are both honoured because each is checked only against the heading
      the previous one set. The snake then turns back onto its own neck and
      the frame's update ends the game, with the body left as it was. */
  lemma ReverseWithinOneFrame(g: Game, side: Direction)
    requires ValidGame(g) && !g.gameOver
    requires |g.snake.body| >= 2
    requires g.snake.body[1] == Neighbour(g.snake.body[0], Opposite(g.snake.direction))
    requires side != g.snake.direction && side != Opposite(g.snake.direction)
    ensures var r := Tick(g, [TurnIntent(side), TurnIntent(Opposite(g.snake.direction))]);
            && r.Some? && r.value.running
            && r.value.game.gameOver
            && r.value.game.snake.body == g.snake.body
            && r.value.game.snake.direction == Opposite(g.snake.direction)
  {
    var back := Opposite(g.snake.direction);
    DeltaInjective(g.snake.direction, side);
    DeltaInjective(side, back);
    TwoTurns(g, side, back);
    var h := g.(snake := g.snake.(direction := back));
    assert NextHead(h.snake) == h.snake.body[1];
    BlockedFrame(g, [TurnIntent(side), TurnIntent(back)], h);
  }

  /** A move into the wall ends the game and leaves the body as it was. */
  lemma WallEndsGame(g: Game, y: int)
    requires ValidGame(g) && !g.gameOver
    requires g.snake.body[0] == Cell(0, y) && g.snake.direction == Left
    ensures Update(g) == Some(g.(gameOver := true))
  {
  }

  /** A frame without input whose move neither is blocked nor reaches the
      food just moves the snake. */
  lemma PlainFrame(g: Game)
    requires ValidGame(g) && !g.gameOver
    requires Move(g.snake).Advanced? && NextHead(g.snake) != g.food.position
    ensures Tick(g, []) == Some(Step(g.(snake := Move(g.snake).snake), true))
  {
  }

  /** One input-free frame of a plain move, seen as a step to a known snake:
      the frame moves the snake there and the game stays valid. */
  lemma PlainFrameTo(g: Game, next: Snake)
    requires ValidGame(g) && !g.gameOver
    requires Move(g.snake) == Advanced(next) && NextHead(g.snake) != g.food.position
    ensures Tick(g, []) == Some(Step(g.(snake := next), true))
    ensures ValidGame(g.(snake := next))
  {
    PlainFrame(g);
  }

  /** The main loop over an input-free frame with a plain move: the loop
      keeps running and plays the remaining frames from the moved snake. */
  lemma RunPlainFrame(g: Game, next: Snake, rest: seq<seq<Intent>>)
    requires ValidGame(g) && !g.gameOver
    requires Move(g.snake) == Advanced(next) && NextHead(g.snake) != g.food.position
    ensures ValidGame(g.(snake := next))
    ensures Run(g, [[]] + rest) == Run(g.(snake := next), rest)
  {
    PlainFrameTo(g, next);
    assert ([[]] + rest)[0] == [] && ([[]] + rest)[1..] == rest;
  }

  /** A move onto a free cell on the grid while growth is owed prepends the
      new head, keeps the whole old body and uses one unit of growth. */
  lemma GrowingMove(s: Snake)
    requires |s.body| >= 1 && s.growPending > 0
    requires InBounds(NextHead(s)) && NextHead(s) !in s.body
    ensures Move(s) == Advanced(s.(body := [NextHead(s)] + s.body, growPending := s.growPending - 1))
  {
  }

  /** The first three moves of a reset snake heading right: each lands on a
      fresh cell and uses one unit of the growth owed. */
  lemma OpeningSnakeMoves()
    ensures Move(SnakeState.Reset()) == Advanced(Snake([Cell(16, 15), Cell(15, 15)], Right, 2, 0))
    ensures Move(Snake([Cell(16, 15), Cell(15, 15)], Right, 2, 0))
              == Advanced(Snake([Cell(17, 15), Cell(16, 15), Cell(15, 15)], Right, 1, 0))
    ensures Move(Snake([Cell(17, 15), Cell(16, 15), Cell(15, 15)], Right, 1, 0))
              == Advanced(Snake([Cell(18, 15), Cell(17, 15), Cell(16, 15), Cell(15, 15)], Right, 0, 0))
  {
    var s0 := SnakeState.Reset();
    var s1 := Snake([Cell(16, 15), Cell(15, 15)], Right, 2, 0);
    var s2 := Snake([Cell(17, 15), Cell(16, 15), Cell(15, 15)], Right, 1, 0);
    assert NextHead(s0) == Cell(16, 15);
    GrowingMove(s0);
    assert [Cell(16, 15)] + s0.body == s1.body;
    assert NextHead(s1) == Cell(17, 15);
    GrowingMove(s1);
    assert [Cell(17, 15)] + s1.body == s2.body;
    assert NextHead(s2) == Cell(18, 15);
    GrowingMove(s2);
    assert [Cell(18, 15)] + s2.body == [Cell(18, 15), Cell(17, 15), Cell(16, 15), Cell(15, 15)];
  }

  /** A fresh game moves right three times without input, growing by one cell
      each time, to a four-cell snake with its head at (18, 15), no growth
      owed and no score, still playing and still running, with the food where
      it was, provided the food is not in its path. */
  lemma OpeningMoves(g: Game)
    requires ValidGame(g) && !g.gameOver && g.snake == SnakeState.Reset()
    requires g.food.position !in {Cell(16, 15), Cell(17, 15), Cell(18, 15)}
    ensures Run(g, [[], [], []]) ==
              Some(Step(g.(snake := Snake([Cell(18, 15), Cell(17, 15), Cell(16, 15), Cell(15, 15)], Right, 0, 0)), true))
  {
    var s1 := Snake([Cell(16, 15), Cell(15, 15)], Right, 2, 0);
    var s2 := Snake([Cell(17, 15), Cell(16, 15), Cell(15, 15)], Right, 1, 0);
    var s3 := Snake([Cell(18, 15), Cell(17, 15), Cell(16, 15), Cell(15, 15)], Right, 0, 0);
    var e: seq<Intent> := [];
    var none: seq<seq<Intent>> := [];
    OpeningSnakeMoves();
    RunPlainFrame(g, s1, [e, e]);
    RunPlainFrame(g.(snake := s1), s2, [e]);
    RunPlainFrame(g.(snake := s2), s3, none);
    assert [e] + [e, e] == [e, e, e] && [e] + [e] == [e, e] && [e] + none == [e];
  }
}
