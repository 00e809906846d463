/** The `Game` class (src/game.py): the title, game and result screens, whose turn it is, the
    count of consecutive passes, and the end of the game after two passes with the winner
    decided by the scores and a komi of 3.5 for White. Mouse clicks arrive as abstract events
    naming the button or board point they hit. */
module GoGame {
  import opened Cells
  import opened Moves
  import opened GoBoard
  import opened GoAI

  /** `STATE_TITLE`, `STATE_GAME` and `STATE_RESULT`. */
  datatype Screen = Title | Play | Result

  /** What a mouse click hit, as the hit tests of the interface report it. */
  datatype Target =
    | BoardPoint(p: Pos)
    | PassButton
    | ResignButton
    | BlackButton
    | PlayAgainButton
    | BackToTitleButton
    | Elsewhere

  /** A `MOUSEBUTTONDOWN` event, or any other event. */
  datatype Event = Click(target: Target) | Other

  /** `black_score > white_score + 3.5`, counted in half points so that it stays in the
      integers. */
  predicate BlackWins(black: nat, white: nat) {
    2 * black > 2 * white + 7
  }

  /** With whole-point scores Black needs four points more than White; there is no draw. */
  lemma BlackWinsByFour(black: nat, white: nat)
    ensures BlackWins(black, white) <==> black >= white + 4
    ensures !BlackWins(black, white) ==> 2 * white + 7 > 2 * black
  {
  }

  /** The game's own fields: the screen, whether the player is to move, the player's
      colour, the count of consecutive passes, and whether the AI is thinking. */
  datatype Status = Status(screen: Screen, playerTurn: bool, playerIsBlack: bool, passes: nat, aiThinking: bool)

  /** A player's score, as `calculate_score`: captures plus owned points. */
  ghost function Score(b: Board, c: Cell): nat
    reads b
    requires IsGrid(b.cells) && IsStone(c)
  {
    if c == Black then b.blackCaptures + |OwnedPoints(b.cells, Black)|
    else b.whiteCaptures + |OwnedPoints(b.cells, White)|
  }

  /** The winner `check_game_end` declares on the board `b`. */
  ghost function Winner(b: Board): Cell
    reads b
    requires IsGrid(b.cells)
  {
    if BlackWins(Score(b, Black), Score(b, White)) then Black else White
  }

  class Game {
    var screen: Screen
    var playerTurn: bool
    var playerIsBlack: bool
    var consecutivePasses: nat
    var aiThinking: bool
    const board: Board
    const ai: AI

    /** The analyser works on the game's board, the board is consistent, and the result
        screen always has a winner to show. */
    ghost predicate Valid()
      reads this, board, board.grid, board.previewBoard
    {
      && ai.board == board
      && board.Valid()
      && (screen == Result ==> board.winner.Some?)
    }

    /** The game's fields as a value. */
    ghost function Progress(): Status
      reads this
    {
      Status(screen, playerTurn, playerIsBlack, consecutivePasses, aiThinking)
    }

    /** `__init__` without the window: the title screen, a 9x9 board, the player to move
        with Black, no passes, and the AI idle. */
    constructor()
      ensures Valid() && fresh(board) && fresh(ai)
      ensures board.size == 9 && board.Snapshot() == State(EmptyGrid(9), 0, 0, None)
      ensures Progress() == Status(Title, true, true, 0, false) && board.winner == None
    {
      var b := new Board(9);
      board := b;
      ai := new AI(b);
      screen := Title;
      playerTurn := true;
      playerIsBlack := true;
      consecutivePasses := 0;
      aiThinking := false;
    }

    /** The game is over: the result screen, nobody to move, and the winner decided by
        score and komi. */
    ghost predicate Over()
      reads this, board
    {
      && screen == Result && !playerTurn && !aiThinking
      && IsGrid(board.cells) && board.winner == Some(Winner(board))
    }

    /** The stones, captures and ko point of the board are as they were. */
    twostate predicate SameBoard()
      reads this, board
    {
      board.grid == old(board.grid) && board.Snapshot() == old(board.Snapshot())
    }

    /** Nothing of the game or its board has changed. */
    twostate predicate Unchanged()
      reads this, board
    {
      Progress() == old(Progress()) && SameBoard() && board.winner == old(board.winner)
    }

    /** The body of `check_game_end()` once two passes have been counted. */
    method EndGame()
      requires Valid()
      modifies this, board
      ensures Valid() && Over() && SameBoard()
      ensures Progress() == old(Progress()).(screen := Result, playerTurn := false, aiThinking := false)
    {
      screen := Result;
      playerTurn := false;
      aiThinking := false;
      var blackScore := board.CalculateScore(Black);
      var whiteScore := board.CalculateScore(White);
      board.SetWinner(if BlackWins(blackScore, whiteScore) then Black else White);
    }

    /** `check_game_end()`: after two consecutive passes the result screen, the winner by
        score and komi, and nobody to move; otherwise nothing changes. The board itself is
        never touched, only its winner. */
    method CheckGameEnd() returns (ended: bool)
      requires Valid()
      modifies this, board
      ensures Valid() && SameBoard()
      ensures ended <==> old(consecutivePasses) >= 2
      ensures ended ==> Over() && Progress() == old(Progress()).(screen := Result, playerTurn := false, aiThinking := false)
      ensures !ended ==> Unchanged()
    {
      if consecutivePasses >= 2 {
        EndGame();
        return true;
      }
      return false;
    }

    /** The first half of `ai_move()`: White plays the move the AI chooses, which clears
        the pass count, or passes, which adds one to it. */
    method AiPlay(score: Pos -> int, pick: nat)
      requires Valid()
      modifies this, board, board.grid
      ensures Valid() && board.grid == old(board.grid)
      ensures var m := ChosenMove(old(board.Snapshot()), score, pick);
        && board.Snapshot() == (if m.Some? then Moves.PlaceStone(old(board.Snapshot()), m.value, White).0 else old(board.Snapshot()))
        && Progress() == old(Progress()).(passes := if m.Some? then 0 else old(consecutivePasses) + 1)
      ensures board.winner == old(board.winner)
    {
      var move := ai.GetMove(score, pick);
      if move.Some? {
        consecutivePasses := 0;
        var _ := board.PlaceStone(move.value, White);
      } else {
        consecutivePasses := consecutivePasses + 1;
      }
    }

    /** `ai_move()`, with the AI's evaluation as `score` and its random tie-break as `pick`:
        the chosen move is played for White and clears the pass count, a pass adds one, and
        unless that ends the game the player is to move. */
    method AiMove(score: Pos -> int, pick: nat)
      requires Valid()
      modifies this, board, board.grid
      ensures Valid() && board.grid == old(board.grid)
      ensures var m := ChosenMove(old(board.Snapshot()), score, pick);
        && board.Snapshot() == (if m.Some? then Moves.PlaceStone(old(board.Snapshot()), m.value, White).0 else old(board.Snapshot()))
        && consecutivePasses == (if m.Some? then 0 else old(consecutivePasses) + 1)
      ensures consecutivePasses >= 2 ==> Over()
      ensures consecutivePasses < 2 ==> Progress() == old(Progress()).(playerTurn := true, passes := consecutivePasses)
      ensures consecutivePasses < 2 ==> board.winner == old(board.winner)
      ensures playerIsBlack == old(playerIsBlack)
    {
      AiPlay(score, pick);
      var ended := CheckGameEnd();
      if ended {
        return;
      }
      playerTurn := true;
    }

    /** `reset_game()`: a new empty board, the player to move with Black, no passes. */
    method ResetGame()
      requires ai.board == board
      modifies this, board
      ensures ai.board == board && board.Valid() && fresh(board.grid)
      ensures screen != Result ==> Valid()
      ensures board.Snapshot() == State(EmptyGrid(board.size), 0, 0, None) && board.winner == None
      ensures Progress() == old(Progress()).(playerTurn := true, playerIsBlack := true, passes := 0)
    {
      board.Reset();
      playerTurn := true;
      playerIsBlack := true;
      consecutivePasses := 0;
    }

    /** `handle_title_event(event)`: the Black button starts a game on a fresh board. */
    method HandleTitleEvent(e: Event)
      requires Valid()
      modifies this, board
      ensures Valid()
      ensures e == Click(BlackButton) ==> (Progress() == old(Progress()).(screen := Play, playerTurn := true, playerIsBlack := true, passes := 0)
        && fresh(board.grid) && board.Snapshot() == State(EmptyGrid(board.size), 0, 0, None) && board.winner == None)
      ensures e != Click(BlackButton) ==> Unchanged()
    {
      if e == Click(BlackButton) {
        screen := Play;
        playerIsBlack := true;
        playerTurn := true;
        ResetGame();
      }
    }

    /** A click on the board point `p` while the player is to move: a valid point gets a
        Black stone and the turn goes to the AI; any other point changes nothing. */
    method ClickPoint(p: Pos)
      requires Valid()
      modifies this, board, board.grid
      ensures Valid() && board.grid == old(board.grid)
      ensures old(board.IsValidMove(p)) ==>
        && board.Snapshot() == Moves.PlaceStone(old(board.Snapshot()), p, Black).0
        && Progress() == old(Progress()).(playerTurn := false, passes := 0, aiThinking := true)
        && board.winner == old(board.winner)
      ensures !old(board.IsValidMove(p)) ==> Unchanged()
    {
      if board.IsValidMove(p) {
        consecutivePasses := 0;
        playerTurn := false;
        aiThinking := true;
        var _ := board.PlaceStone(p, Black);
      }
    }

    /** The player passes: one more pass, and either the game ends or the AI is to move. */
    method PlayerPass()
      requires Valid()
      modifies this, board
      ensures Valid() && SameBoard()
      ensures consecutivePasses == old(consecutivePasses) + 1 && playerIsBlack == old(playerIsBlack)
      ensures consecutivePasses >= 2 ==> Over()
      ensures consecutivePasses < 2 ==> Progress() == old(Progress()).(playerTurn := false, passes := consecutivePasses, aiThinking := true)
      ensures consecutivePasses < 2 ==> board.winner == old(board.winner)
    {
      consecutivePasses := consecutivePasses + 1;
      var ended := CheckGameEnd();
      if ended {
        return;
      }
      playerTurn := false;
      aiThinking := true;
    }

    /** The player resigns: the result screen with the AI's colour as winner. */
    method Resign()
      requires Valid()
      modifies this, board
      ensures Valid() && SameBoard()
      ensures board.winner == Some(if playerIsBlack then White else Black)
      ensures Progress() == old(Progress()).(screen := Result)
    {
      screen := Result;
      board.SetWinner(if playerIsBlack then White else Black);
    }

    /** `handle_game_event(event)`. Ignored unless the player is to move and the AI idle. A
        click on a valid point plays Black there and hands the turn to the AI; a click on any
        other point changes nothing. A pass adds one to the count and either ends the game
        or hands the turn to the AI. Resigning shows the result with the AI as winner. */
    method HandleGameEvent(e: Event)
      requires Valid()
      modifies this, board, board.grid
      ensures Valid() && board.grid == old(board.grid)
      ensures !old(playerTurn) || old(aiThinking) ==> Unchanged()
      ensures old(playerTurn) && !old(aiThinking) ==> match e
        case Click(BoardPoint(p)) =>
          if old(board.IsValidMove(p)) then
            && board.Snapshot() == Moves.PlaceStone(old(board.Snapshot()), p, Black).0
            && Progress() == old(Progress()).(playerTurn := false, passes := 0, aiThinking := true)
            && board.winner == old(board.winner)
          else Unchanged()
        case Click(PassButton) =>
          && consecutivePasses == old(consecutivePasses) + 1
          && board.Snapshot() == old(board.Snapshot())
          && (consecutivePasses >= 2 ==> Over())
          && (consecutivePasses < 2 ==> Progress() == old(Progress()).(playerTurn := false, passes := consecutivePasses, aiThinking := true))
          && (consecutivePasses < 2 ==> board.winner == old(board.winner))
        case Click(ResignButton) =>
          && board.Snapshot() == old(board.Snapshot())
          && board.winner == Some(if playerIsBlack then White else Black)
          && Progress() == old(Progress()).(screen := Result)
        case _ => Unchanged()
    {
      if !playerTurn || aiThinking {
        return;
      }
      match e
      case Click(BoardPoint(p)) => ClickPoint(p);
      case Click(PassButton) => PlayerPass();
      case Click(ResignButton) => Resign();
      case _ =>
    }

    /** `handle_result_event(event)`: "play again" starts a new game, "back" returns to the
        title screen. */
    method HandleResultEvent(e: Event)
      requires Valid()
      modifies this, board
      ensures Valid()
      ensures e == Click(PlayAgainButton) ==> (Progress() == old(Progress()).(screen := Play, playerTurn := true, playerIsBlack := true, passes := 0)
        && fresh(board.grid) && board.Snapshot() == State(EmptyGrid(board.size), 0, 0, None) && board.winner == None)
      ensures e == Click(BackToTitleButton) ==> Progress() == old(Progress()).(screen := Title) && SameBoard() && board.winner == old(board.winner)
      ensures e != Click(PlayAgainButton) && e != Click(BackToTitleButton) ==> Unchanged()
    {
      if e == Click(PlayAgainButton) {
        screen := Play;
        ResetGame();
      } else if e == Click(BackToTitleButton) {
        screen := Title;
      }
    }

    /** `handle_event(event)`: the handler of the current screen. */
    method HandleEvent(e: Event)
      requires Valid()
      modifies this, board, board.grid
      ensures Valid()
      ensures old(screen) == Title ==> screen in {Title, Play}
      ensures old(screen) == Result ==> screen != Result ==> e in {Click(PlayAgainButton), Click(BackToTitleButton)}
    {
      match screen
      case Title => HandleTitleEvent(e);
      case Play => HandleGameEvent(e);
      case Result => HandleResultEvent(e);
    }
  }
}
