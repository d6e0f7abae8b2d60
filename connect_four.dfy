/** The Connect Four game object (class `ConnectFour` in ConnectFour.kt): the board, whose turn
    it is, who starts, whether a game is running and the scores are fields that the methods
    update in place. Console input is replaced by parameters: a move is a `TurnInput`, a board
    size answer a `DimensionsInput`; the printing is not modelled. */
module ConnectFour {
  import opened Grids
  import opened ConnectFourRules

  /** One answer to "<player>'s turn:": "end" in any case, something that is not a number, or
      a number. */
  datatype TurnInput = End | NotANumber | Column(column: int)

  class Game {
    var height: int
    var width: int
    var firstPlayersTurn: bool
    var firstPlayersStarts: bool
    var board: array2<char>
    var running: bool
    var gamesToRun: int
    var currentGame: int
    var firstPlayerScore: int
    var secondPlayerScore: int

    /** The board size is one the size prompt accepts. */
    predicate DimensionsAllowed()
      reads this
    {
      MinDim <= height <= MaxDim && MinDim <= width <= MaxDim
    }

    /** The board as a value: Board()[y][x] is the cell in row y, column x. */
    ghost function Board(): seq<seq<char>>
      reads this`board, board
    {
      Cells(board)
    }

    /** The board array has the current size: h + 1 rows of w + 1 cells. */
    predicate Shaped()
      reads this`height, this`width, this`board
    {
      height >= 0 && width >= 0 && board.Length0 == height + 1 && board.Length1 == width + 1
    }

    /** The board has the current size and empty padding. */
    ghost predicate Valid()
      reads this`height, this`width, this`board, board
    {
      Shaped() && IsBoard(Board(), height, width) && PaddingEmpty(Board(), height, width)
    }

    /** The initial field values: a 6 x 7 board not yet built, the first player to start. */
    constructor ()
      ensures height == 6 && width == 7 && DimensionsAllowed()
      ensures firstPlayersTurn && firstPlayersStarts && board.Length0 == 0 && board.Length1 == 0 && !running
      ensures gamesToRun == -1 && currentGame == 1 && firstPlayerScore == 0 && secondPlayerScore == 0
    {
      height := 6;
      width := 7;
      firstPlayersTurn := true;
      firstPlayersStarts := true;
      board := new char[0, 0];
      running := false;
      gamesToRun := -1;
      currentGame := 1;
      firstPlayerScore := 0;
      secondPlayerScore := 0;
    }

    /** `defineBoard`: prompt until an answer is acceptable. The first acceptable answer sets
        the size; the answers before it change nothing. */
    method DefineBoard(answers: seq<DimensionsInput>) returns (used: nat, found: bool)
      modifies this`height, this`width
      ensures used <= |answers|
      ensures forall i :: 0 <= i < used - 1 ==> !Acceptable(answers[i])
      ensures found ==> used >= 1 && Acceptable(answers[used - 1]) && (height, width) == Chosen(answers[used - 1])
      ensures !found ==> used == |answers| && (used == 0 || !Acceptable(answers[used - 1]))
      ensures !found ==> height == old(height) && width == old(width)
      ensures found ==> DimensionsAllowed()
    {
      used := 0;
      found := false;
      while !found && used < |answers|
        invariant used <= |answers|
        invariant forall i :: 0 <= i < used - 1 ==> !Acceptable(answers[i])
        invariant found ==> used >= 1 && Acceptable(answers[used - 1]) && (height, width) == Chosen(answers[used - 1])
        invariant !found ==> (used == 0 || !Acceptable(answers[used - 1]))
        invariant !found ==> height == old(height) && width == old(width)
        decreases |answers| - used, !found
      {
        var answer := answers[used];
        used := used + 1;
        match answer
        case Blank =>
          width := 7;
          height := 6;
          found := true;
        case Malformed =>
        case Dimensions(heightInput, widthInput) =>
          if !(MinDim <= widthInput <= MaxDim) {
          } else if !(MinDim <= heightInput <= MaxDim) {
          } else {
            width := widthInput;
            height := heightInput;
            found := true;
          }
      }
    }

    /** `clearBoard`: a fresh board of height + 1 rows of width + 1 empty cells. */
    method ClearBoard()
      requires height >= 0 && width >= 0
      modifies this`board
      ensures fresh(board) && Valid()
      ensures forall y, x :: 0 <= y <= height && 0 <= x <= width ==> board[y, x] == ' '
    {
      var cells := new char[height + 1, width + 1];
      for y := 0 to height + 1
        invariant forall i, x :: 0 <= i < y && 0 <= x <= width ==> cells[i, x] == ' '
      {
        for x := 0 to width + 1
          invariant forall i, j :: 0 <= i <= height && 0 <= j <= width && (i < y || (i == y && j < x)) ==> cells[i, j] == ' '
        {
          cells[y, x] := ' ';
        }
      }
      board := cells;
    }

    /** `getColumnTopPosition`: scan down the column for the first occupied cell. */
    method GetColumnTopPosition(column: int) returns (top: int)
      requires Shaped() && 0 <= column <= width
      ensures top == ColumnTop(Board(), height, width, column)
    {
      var y := 0;
      while y <= height
        invariant 0 <= y <= height + 1
        invariant TopFrom(Board(), height, width, column, y) == ColumnTop(Board(), height, width, column)
        decreases height - y
      {
        if board[y, column] != ' ' {
          return y - 1;
        }
        y := y + 1;
      }
      return height;
    }

    /** `checkForWinInDirection`: scan lines range1start..range1end of the direction; at the
        first run of four pieces stop the game and give its owner 2 points. The result is the
        scan's winner as ScanFrom defines it. */
    method CheckForWinInDirection(range1start: int, range1end: int, range2end: int, direction: Direction) returns (won: bool)
      requires Shaped() && ScanFits(direction, range1start, range1end, range2end, height, width)
      modifies this`running, this`firstPlayerScore, this`secondPlayerScore
      ensures var o := ScanFrom(Board(), height, width, direction, range1start, range1end, range2end);
              var v := if o.Some? then Won(o.value) else Undecided;
              && won == o.Some?
              && running == RunningAfter(v, old(running))
              && (firstPlayerScore, secondPlayerScore) == ScoreAfter(v, old(firstPlayerScore), old(secondPlayerScore))
    {
      ghost var cells := Board();
      ghost var scan := ScanFrom(cells, height, width, direction, range1start, range1end, range2end);
      var range1i := range1start;
      while range1i <= range1end
        invariant range1start <= range1i && ScanFits(direction, range1i, range1end, range2end, height, width)
        invariant scan == ScanFrom(cells, height, width, direction, range1i, range1end, range2end)
        invariant running == old(running)
        invariant firstPlayerScore == old(firstPlayerScore) && secondPlayerScore == old(secondPlayerScore)
        decreases range1end - range1i
      {
        var runChar := ScanLine(range1i, range2end, direction);
        if runChar.Some? {
          AwardWin(runChar.value);
          return true;
        }
        range1i := range1i + 1;
      }
      return false;
    }

    /** A winner was found: the game stops and the winner ('o' is the first player) gets 2
        points. */
    method AwardWin(piece: char)
      modifies this`running, this`firstPlayerScore, this`secondPlayerScore
      ensures running == RunningAfter(Won(piece), old(running))
      ensures (firstPlayerScore, secondPlayerScore) == ScoreAfter(Won(piece), old(firstPlayerScore), old(secondPlayerScore))
    {
      running := false;
      if piece == 'o' {
        firstPlayerScore := firstPlayerScore + 2;
      } else {
        secondPlayerScore := secondPlayerScore + 2;
      }
    }

    /** The inner loop of `checkForWinInDirection` on line range1i: count the run of equal
        cells and report the piece of the first run of four, if any. */
    method ScanLine(range1i: int, range2end: int, direction: Direction) returns (winner: Option<char>)
      requires Shaped() && LineFits(direction, range1i, range2end, height, width)
      ensures winner == LineWinner(Line(Board(), height, width, direction, range1i, range2end))
    {
      ghost var cells := Board();
      ghost var line := Line(cells, height, width, direction, range1i, range2end);
      var runLength := 0;
      var runChar := ' ';
      var range2i := 1;
      ghost var prev, next := -1, 0;
      while range2i <= range2end
        invariant 1 <= range2i <= |line| + 1 && range2i == next + 1 && prev + 1 == next
        invariant prev < 0 ==> runLength == 0 && runChar == ' '
        invariant prev >= 0 ==> runLength == RunLength(line, prev) && runChar == line[prev]
        invariant LineWinner(line) == FirstRunFrom(line, next)
        decreases range2end - range2i
      {
        if !Guarded(direction, range1i, range2i, height, width) {
          break;
        }
        ReachAtLeast(direction, range1i, range2end, height, width, range2i);
        LineAt(cells, height, width, direction, range1i, range2end, next + 1);
        CounterStep(line, prev, next, runLength, runChar);
        var curV := board[RowOf(direction, range1i, range2i, height), ColOf(direction, range1i, range2i)];
        if curV == runChar {
          runLength := runLength + 1;
        } else {
          runChar := curV;
          runLength := 1;
        }
        if runLength >= 4 && runChar != ' ' {
          return Some(runChar);
        }
        prev, next := next, next + 1;
        range2i := range2i + 1;
      }
      return None;
    }

    /** `checkWinCondition`: the six scans in order, then the draw test on a full board. */
    method CheckWinCondition()
      requires Shaped()
      modifies this`running, this`firstPlayerScore, this`secondPlayerScore
      ensures running == RunningAfter(Judge(Board(), height, width), old(running))
      ensures (firstPlayerScore, secondPlayerScore) == ScoreAfter(Judge(Board(), height, width), old(firstPlayerScore), old(secondPlayerScore))
    {
      var won := CheckScans();
      if won {
        return;
      }
      CheckDraw();
    }

    /** The six scans of `checkWinCondition`, stopping at the first that finds a winner. */
    method CheckScans() returns (won: bool)
      requires Shaped()
      modifies this`running, this`firstPlayerScore, this`secondPlayerScore
      ensures won == ScanVerdict(Board(), height, width).Won?
      ensures running == RunningAfter(ScanVerdict(Board(), height, width), old(running))
      ensures (firstPlayerScore, secondPlayerScore) == ScoreAfter(ScanVerdict(Board(), height, width), old(firstPlayerScore), old(secondPlayerScore))
    {
      won := CheckForWinInDirection(1, height, width, Horizontal);
      if won {
        return;
      }
      won := CheckForWinInDirection(1, width, height, Vertical);
      if won {
        return;
      }
      won := CheckForWinInDirection(1, height - 3, width, DiagonalDown1);
      if won {
        return;
      }
      won := CheckForWinInDirection(2, width - 3, height, DiagonalDown2);
      if won {
        return;
      }
      won := CheckForWinInDirection(4, height, width, DiagonalUp1);
      if won {
        return;
      }
      won := CheckForWinInDirection(2, width - 3, height, DiagonalUp2);
    }

    /** The draw test of `checkWinCondition`: when no column has room left, stop the game and
        give each player 1 point. */
    method CheckDraw()
      requires Shaped()
      modifies this`running, this`firstPlayerScore, this`secondPlayerScore
      ensures var v := if Full(Board(), height, width) then Draw else Undecided;
              && running == RunningAfter(v, old(running))
              && (firstPlayerScore, secondPlayerScore) == ScoreAfter(v, old(firstPlayerScore), old(secondPlayerScore))
    {
      for i := 1 to width + 1
        invariant forall c :: 1 <= c < i ==> ColumnTop(Board(), height, width, c) == 0
        invariant running == old(running)
        invariant firstPlayerScore == old(firstPlayerScore) && secondPlayerScore == old(secondPlayerScore)
      {
        var top := GetColumnTopPosition(i);
        if top != 0 {
          return;
        }
      }
      running := false;
      firstPlayerScore := firstPlayerScore + 1;
      secondPlayerScore := secondPlayerScore + 1;
    }

    /** The move part of `handleTurn`: "end" stops the series; input that is not a number, a
        column out of range or a full column changes nothing; otherwise the piece of the player
        to move drops into the column, the turn passes and the board is judged. */
    method HandleTurn(input: TurnInput)
      requires Valid()
      modifies board, this`firstPlayersTurn, this`running, this`gamesToRun, this`firstPlayerScore, this`secondPlayerScore
      ensures Valid()
      ensures firstPlayerScore >= old(firstPlayerScore) && secondPlayerScore >= old(secondPlayerScore)
      ensures input.End? ==> !running && gamesToRun == -1 && Board() == old(Board()) && firstPlayersTurn == old(firstPlayersTurn)
      ensures input.End? ==> firstPlayerScore == old(firstPlayerScore) && secondPlayerScore == old(secondPlayerScore)
      ensures (input.NotANumber? || (input.Column? && !Legal(old(Board()), height, width, input.column))) ==>
                && Board() == old(Board()) && firstPlayersTurn == old(firstPlayersTurn) && running == old(running)
                && gamesToRun == old(gamesToRun)
                && firstPlayerScore == old(firstPlayerScore) && secondPlayerScore == old(secondPlayerScore)
      ensures input.Column? && Legal(old(Board()), height, width, input.column) ==>
                && Board() == Place(old(Board()), height, width, ColumnTop(old(Board()), height, width, input.column),
                                    input.column, Piece(old(firstPlayersTurn)))
                && firstPlayersTurn == !old(firstPlayersTurn) && gamesToRun == old(gamesToRun)
                && running == RunningAfter(Judge(Board(), height, width), old(running))
                && (firstPlayerScore, secondPlayerScore) == ScoreAfter(Judge(Board(), height, width), old(firstPlayerScore), old(secondPlayerScore))
    {
      match input
      case End =>
        gamesToRun := -1;
        running := false;
      case NotANumber =>
      case Column(column) =>
        if !(1 <= column <= width) {
          return;
        }
        var topPosition := GetColumnTopPosition(column);
        if topPosition == 0 {
          return;
        }
        PlayMove(column, topPosition);
    }

    /** The legal move of `handleTurn`: the piece of the player to move lands at the top of the
        column, the turn passes and the board is judged. */
    method PlayMove(column: int, topPosition: int)
      requires Valid() && 1 <= column <= width && topPosition == ColumnTop(Board(), height, width, column) != 0
      modifies board, this`firstPlayersTurn, this`running, this`firstPlayerScore, this`secondPlayerScore
      ensures Valid()
      ensures Board() == Place(old(Board()), height, width, topPosition, column, Piece(old(firstPlayersTurn)))
      ensures ColumnTop(Board(), height, width, column) == topPosition - 1
      ensures firstPlayersTurn == !old(firstPlayersTurn)
      ensures running == RunningAfter(Judge(Board(), height, width), old(running))
      ensures (firstPlayerScore, secondPlayerScore) == ScoreAfter(Judge(Board(), height, width), old(firstPlayerScore), old(secondPlayerScore))
    {
      DropDisc(column, topPosition, Piece(firstPlayersTurn));
      ghost var placed := Board();
      firstPlayersTurn := !firstPlayersTurn;
      CheckWinCondition();
      assert Board() == placed;
    }

    /** `board[topPosition][column] = piece` on a legal move. */
    method DropDisc(column: int, topPosition: int, piece: char)
      requires Valid() && 1 <= column <= width && topPosition == ColumnTop(Board(), height, width, column) != 0
      requires piece != ' '
      modifies board
      ensures Valid()
      ensures Board() == Place(old(Board()), height, width, topPosition, column, piece)
      ensures ColumnTop(Board(), height, width, column) == topPosition - 1
    {
      ghost var before := Board();
      ghost var after := Place(before, height, width, topPosition, column, piece);
      DropLands(before, height, width, column, piece);
      board[topPosition, column] := piece;
      GridExt(Board(), after, height + 1, width + 1);
    }

    /** The start of a game in `startGame`: a clear board, the starting player to move, and the
        game running. */
    method StartRound()
      requires DimensionsAllowed()
      modifies this`board, this`firstPlayersTurn, this`running
      ensures fresh(board) && Valid() && running && firstPlayersTurn == firstPlayersStarts
      ensures forall y, x :: 0 <= y <= height && 0 <= x <= width ==> board[y, x] == ' '
    {
      ClearBoard();
      firstPlayersTurn := firstPlayersStarts;
      running := true;
    }

    /** One pass of the game loop of `startGame`: play the moves of one game until it stops (or
        the moves run out), then hand the start to the other player and count the game. The
        result says whether the loop goes on. */
    method PlayRound(turns: seq<TurnInput>) returns (again: bool)
      requires DimensionsAllowed()
      modifies this`board, this`firstPlayersTurn, this`running, this`gamesToRun, this`firstPlayerScore,
               this`secondPlayerScore, this`firstPlayersStarts, this`currentGame
      ensures fresh(board) && Valid()
      ensures firstPlayersStarts == !old(firstPlayersStarts)
      ensures currentGame == old(currentGame) + 1
      ensures again == (old(currentGame) < gamesToRun)
      ensures firstPlayerScore >= old(firstPlayerScore) && secondPlayerScore >= old(secondPlayerScore)
    {
      StartRound();
      var i := 0;
      while i < |turns| && running
        invariant fresh(board) && Valid() && 0 <= i <= |turns|
        invariant firstPlayersStarts == old(firstPlayersStarts) && currentGame == old(currentGame)
        invariant firstPlayerScore >= old(firstPlayerScore) && secondPlayerScore >= old(secondPlayerScore)
      {
        HandleTurn(turns[i]);
        i := i + 1;
      }
      firstPlayersStarts := !firstPlayersStarts;
      again := currentGame < gamesToRun;
      currentGame := currentGame + 1;
    }

    /** The game loop of `startGame`: play games while the counter says so (or until the moves
        run out); when it stops early, the counter has passed the number of games to run. The
        players take turns at starting: after an even number of games the original starter
        starts again. */
    method PlayGames(games: seq<seq<TurnInput>>) returns (played: nat)
      requires DimensionsAllowed()
      modifies this`board, this`firstPlayersTurn, this`running, this`gamesToRun, this`firstPlayerScore,
               this`secondPlayerScore, this`firstPlayersStarts, this`currentGame
      ensures played <= |games| && (|games| >= 1 ==> played >= 1)
      ensures currentGame == old(currentGame) + played
      ensures firstPlayersStarts == (old(firstPlayersStarts) == (played % 2 == 0))
      ensures firstPlayerScore >= old(firstPlayerScore) && secondPlayerScore >= old(secondPlayerScore)
      ensures played == |games| || currentGame > gamesToRun
    {
      played := 0;
      var again := true;
      while again && played < |games|
        invariant played <= |games| && (played == 0 ==> again)
        invariant currentGame == old(currentGame) + played
        invariant firstPlayersStarts == (old(firstPlayersStarts) == (played % 2 == 0))
        invariant firstPlayerScore >= old(firstPlayerScore) && secondPlayerScore >= old(secondPlayerScore)
        invariant DimensionsAllowed()
        invariant !again ==> currentGame > gamesToRun
        decreases |games| - played
      {
        again := PlayRound(games[played]);
        played := played + 1;
      }
    }
  }
}
