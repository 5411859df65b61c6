/**
 * The page's controller: the board the moves are written into, the side to
 * move, the selected square, the move history and the game-over flag, and
 * the operations that change them.
 */
module Controller {
  import opened Position
  import opened Rules
  import opened Scans
  import opened Apply

  class Game {
    var board: array2<char>
    var currentPlayer: Player
    var selectedSquare: Option<(int, int)>
    var moveHistory: seq<Move>
    var gameOver: bool

    ghost predicate BoardShape()
      reads this`board
    {
      board.Length0 == 8 && board.Length1 == 8
    }

    ghost predicate Valid()
      reads this`board, this`selectedSquare
    {
      BoardShape() && (selectedSquare.Some? ==> InBoard(selectedSquare.value.0, selectedSquare.value.1))
    }

    /** The cells of the board as a grid value. */
    function Grid(): (g: Board)
      reads this`board, board
      requires BoardShape()
      ensures forall r, c :: InBoard(r, c) ==> g[r][c] == board[r, c]
    {
      var a := board;
      seq(8, r requires 0 <= r < 8 reads a => seq(8, c requires 0 <= c < 8 reads a => a[r, c]))
    }

    /** What the rules read: the live grid, the side to move and the history. */
    function Pos(): (pos: Position)
      reads this`board, board, this`currentPlayer, this`moveHistory
      requires BoardShape()
      ensures pos.board == Grid() && pos.current == currentPlayer && pos.history == moveHistory
    {
      Position(Grid(), currentPlayer, moveHistory)
    }

    lemma GridIs(g: Board)
      requires BoardShape() && Holds(g)
      ensures Grid() == g
    {
      var h := Grid();
      forall r | 0 <= r < 8 ensures h[r] == g[r] {
        assert forall c :: 0 <= c < 8 ==> h[r][c] == g[r][c];
      }
    }

    /** The page's initial state: the starting grid, white to move, nothing selected. */
    constructor ()
      ensures Valid() && fresh(board)
      ensures Grid() == InitialBoard && currentPlayer == White
      ensures selectedSquare == None && moveHistory == [] && !gameOver
    {
      board := new char[8, 8]((r, c) requires InBoard(r, c) => InitialBoard[r][c]);
      currentPlayer := White;
      selectedSquare := None;
      moveHistory := [];
      gameOver := false;
      new;
      GridIs(InitialBoard);
    }

    /** Restart: a fresh copy of the starting grid and the initial state. */
    method StartGame()
      modifies this
      ensures Valid() && fresh(board)
      ensures Grid() == InitialBoard && currentPlayer == White
      ensures selectedSquare == None && moveHistory == [] && !gameOver
    {
      board := new char[8, 8]((r, c) requires InBoard(r, c) => InitialBoard[r][c]);
      currentPlayer := White;
      selectedSquare := None;
      moveHistory := [];
      gameOver := false;
      GridIs(InitialBoard);
    }

    /**
     * The move applier: records the move, then writes the board in place.
     * Only the board's cells and the history change.
     */
    method MakeMove(fromRow: int, fromCol: int, toRow: int, toCol: int)
      requires Valid() && InBoard(fromRow, fromCol) && InBoard(toRow, toCol)
      modifies this`moveHistory, board
      ensures BoardShape()
      ensures moveHistory == old(moveHistory) + [Move(old(board[fromRow, fromCol]), fromRow, fromCol, toRow, toCol)]
      ensures Grid() == Applied(old(Grid()), currentPlayer, fromRow, fromCol, toRow, toCol)
    {
      ghost var g := Grid();
      ghost var cells := g;
      var piece := board[fromRow, fromCol];
      var isEnPassant := ToLower(piece) == 'p' && Abs(toCol - fromCol) == 1 && board[toRow, toCol] == ' ';
      var isCastling := ToLower(piece) == 'k' && Abs(toCol - fromCol) == 2;

      moveHistory := moveHistory + [Move(piece, fromRow, fromCol, toRow, toCol)];

      if isEnPassant {
        cells := SetCell(cells, fromRow, toCol, ' ');
      }
      ghost var g1 := cells;

      if isCastling {
        var isKingSide := toCol == 6;
        var rookFromCol := if isKingSide then 7 else 0;
        var rookToCol := if isKingSide then 5 else 3;
        var row := fromRow;
        cells := SetCell(cells, row, rookToCol, board[row, rookFromCol]);
        cells := SetCell(cells, row, rookFromCol, ' ');
      }
      ghost var g2 := cells;

      cells := SetCell(cells, toRow, toCol, board[fromRow, fromCol]);
      cells := SetCell(cells, fromRow, fromCol, ' ');
      ghost var g3 := cells;

      if ToLower(piece) == 'p' && (toRow == 0 || toRow == 7) {
        cells := SetCell(cells, toRow, toCol, if currentPlayer == White then 'Q' else 'q');
      }
      assert cells == Applied(g, currentPlayer, fromRow, fromCol, toRow, toCol);
      GridIs(cells);
    }

    /** The board's cells are those of the grid `g`. */
    ghost predicate Holds(g: Board)
      reads this`board, board
      requires BoardShape()
    {
      forall r, c :: InBoard(r, c) ==> board[r, c] == g[r][c]
    }

    /** One in-place write of a board cell, with the grid it leaves. */
    method SetCell(ghost g: Board, r: int, c: int, v: char) returns (ghost g': Board)
      requires BoardShape() && InBoard(r, c) && Holds(g)
      modifies board
      ensures Holds(g') && g' == Set(g, r, c, v)
    {
      board[r, c] := v;
      g' := Set(g, r, c, v);
    }

    /**
     * The end-of-move check: classifies the position for the side that is
     * not to move and ends the game on checkmate or stalemate.
     */
    method CheckGameState() returns (status: Status)
      requires Valid()
      modifies this`gameOver
      ensures status == Classify(Pos())
      ensures gameOver == (old(gameOver) || status == Checkmate || status == Stalemate)
    {
      status := CheckGameStateScan(Pos());
      if status == Checkmate || status == Stalemate {
        gameOver := true;
      }
    }

    /**
     * The accepted-move half of a click: when the move passes the legality
     * filter it is applied, the turn passes and the game state is checked,
     * which always ends the game; otherwise nothing changes.
     */
    method PlayMove(fromRow: int, fromCol: int, toRow: int, toCol: int) returns (accepted: bool)
      requires Valid() && InBoard(fromRow, fromCol) && InBoard(toRow, toCol) && !gameOver
      modifies this`currentPlayer, this`moveHistory, this`gameOver, board
      ensures Valid()
      ensures accepted == ValidMove(old(Pos()), fromRow, fromCol, toRow, toCol)
      ensures accepted ==>
        && Grid() == Applied(old(Grid()), old(currentPlayer), fromRow, fromCol, toRow, toCol)
        && moveHistory == old(moveHistory) + [Move(old(Grid())[fromRow][fromCol], fromRow, fromCol, toRow, toCol)]
        && currentPlayer == Other(old(currentPlayer))
        && (gameOver <==> Classify(Pos()) == Checkmate || Classify(Pos()) == Stalemate)
        && gameOver
      ensures !accepted ==>
        && Grid() == old(Grid()) && moveHistory == old(moveHistory)
        && currentPlayer == old(currentPlayer) && !gameOver
    {
      accepted := IsValidMove(Pos(), fromRow, fromCol, toRow, toCol);
      if accepted {
        MakeMove(fromRow, fromCol, toRow, toCol);
        ghost var g1 := Grid();
        assert Holds(g1);
        PassTurn();
        GridIs(g1);
      }
    }

    /**
     * After an applied move: the turn passes and the game state is checked.
     * The check examines the side that has just moved, so the game ends.
     */
    method PassTurn()
      requires Valid() && !gameOver
      modifies this`currentPlayer, this`gameOver
      ensures currentPlayer == Other(old(currentPlayer))
      ensures gameOver <==> Classify(Pos()) == Checkmate || Classify(Pos()) == Stalemate
      ensures gameOver
    {
      currentPlayer := if currentPlayer == White then Black else White;
      var status := CheckGameState();
      ClassifyAlwaysEnds(Pos());
    }

    /**
     * A click on (row, col). Nothing happens once the game is over. With no
     * square selected, a non-empty cell of the mover's case becomes selected.
     * With a square selected, the selection is dropped and, when the move
     * from it to (row, col) passes the legality filter, the move is applied,
     * the turn passes and the game state is checked.
     */
    method HandleSquareClick(row: int, col: int)
      requires Valid() && InBoard(row, col)
      modifies this`selectedSquare, this`currentPlayer, this`moveHistory, this`gameOver, board
      ensures Valid()
      ensures old(gameOver) ==>
        Grid() == old(Grid()) && moveHistory == old(moveHistory) && currentPlayer == old(currentPlayer)
        && selectedSquare == old(selectedSquare) && gameOver
      ensures !old(gameOver) && old(selectedSquare).None? ==>
        Grid() == old(Grid()) && moveHistory == old(moveHistory) && currentPlayer == old(currentPlayer)
        && !gameOver
        && selectedSquare == (if old(Grid())[row][col] != ' ' && OfColour(old(Grid())[row][col], old(currentPlayer))
                              then Some((row, col)) else None)
      ensures !old(gameOver) && old(selectedSquare).Some? ==>
        var (sr, sc) := old(selectedSquare).value;
        selectedSquare == None
        && if ValidMove(old(Pos()), sr, sc, row, col) then
             && Grid() == Applied(old(Grid()), old(currentPlayer), sr, sc, row, col)
             && moveHistory == old(moveHistory) + [Move(old(Grid())[sr][sc], sr, sc, row, col)]
             && currentPlayer == Other(old(currentPlayer))
             && gameOver
           else
             && Grid() == old(Grid()) && moveHistory == old(moveHistory)
             && currentPlayer == old(currentPlayer) && !gameOver
    {
      if gameOver {
        return;
      }
      if selectedSquare.Some? {
        var selectedRow, selectedCol := selectedSquare.value.0, selectedSquare.value.1;
        var accepted := PlayMove(selectedRow, selectedCol, row, col);
        selectedSquare := None;
      } else {
        if board[row, col] != ' ' && IsPlayerPiece(Pos(), row, col) {
          selectedSquare := Some((row, col));
        }
      }
    }
  }
}
