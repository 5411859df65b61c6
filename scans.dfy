/**
 * The rule engine's loops, written as the page writes them and each proved
 * to answer what the matching function of Rules states.
 */
module Scans {
  import opened Position
  import opened Rules

  /** The path walk: unit steps from the source until the destination. */
  method IsPathClear(b: Board, fr: int, fc: int, tr: int, tc: int) returns (clear: bool)
    requires InBoard(fr, fc) && InBoard(tr, tc) && Aligned(fr, fc, tr, tc)
    ensures clear == PathClear(b, fr, fc, tr, tc)
  {
    var rowStep := if tr == fr then 0 else if tr > fr then 1 else -1;
    var colStep := if tc == fc then 0 else if tc > fc then 1 else -1;
    var row := fr + rowStep;
    var col := fc + colStep;
    ghost var i := 1;
    while row != tr || col != tc
      invariant row == Toward(fr, tr, i) && col == Toward(fc, tc, i)
      invariant 1 <= i <= Dist(fr, fc, tr, tc) || (Dist(fr, fc, tr, tc) == 0 && i == 1)
      invariant forall j :: 0 < j < i ==> PathSquare(b, fr, fc, tr, tc, j) == ' '
      decreases Dist(fr, fc, tr, tc) - i
    {
      assert PathSquare(b, fr, fc, tr, tc, i) == b[row][col];
      if b[row][col] != ' ' {
        return false;
      }
      row := row + rowStep;
      col := col + colStep;
      i := i + 1;
    }
    return true;
  }

  /** The rook test: a shared row or column, then the path walk. */
  method IsValidRookMove(b: Board, fr: int, fc: int, tr: int, tc: int) returns (ok: bool)
    requires InBoard(fr, fc) && InBoard(tr, tc)
    ensures ok == RookMove(b, fr, fc, tr, tc)
  {
    if fr != tr && fc != tc {
      return false;
    }
    ok := IsPathClear(b, fr, fc, tr, tc);
  }

  /** The bishop test: equal row and column deltas, then the path walk. */
  method IsValidBishopMove(b: Board, fr: int, fc: int, tr: int, tc: int) returns (ok: bool)
    requires InBoard(fr, fc) && InBoard(tr, tc)
    ensures ok == BishopMove(b, fr, fc, tr, tc)
  {
    if Abs(tr - fr) != Abs(tc - fc) {
      return false;
    }
    ok := IsPathClear(b, fr, fc, tr, tc);
  }

  /** The queen test: the rook test, or else the bishop test. */
  method IsValidQueenMove(b: Board, fr: int, fc: int, tr: int, tc: int) returns (ok: bool)
    requires InBoard(fr, fc) && InBoard(tr, tc)
    ensures ok == QueenMove(b, fr, fc, tr, tc)
  {
    ok := IsValidRookMove(b, fr, fc, tr, tc);
    if !ok {
      ok := IsValidBishopMove(b, fr, fc, tr, tc);
    }
  }

  /** The king search: every row overwrites the answer and breaks at its first match. */
  method FindKing(b: Board, k: char) returns (loc: Option<(int, int)>)
    ensures loc == LocateKing(b, k)
  {
    loc := None;
    var row := 0;
    while row < 8
      invariant 0 <= row <= 8
      invariant loc == LocateUpTo(b, k, row)
    {
      var col := 0;
      while col < 8
        invariant 0 <= col <= 8
        invariant loc == LocateUpTo(b, k, row)
        invariant forall j :: 0 <= j < col ==> b[row][j] != k
      {
        if b[row][col] == k {
          loc := Some((row, col));
          break;
        }
        col := col + 1;
      }
      assert loc == LocateUpTo(b, k, row + 1);
      row := row + 1;
    }
  }

  /** Some cell of `row` holds an attacker of the king cell (kr, kc). */
  ghost predicate RowHasAttacker(state: Board, live: Board, p: Player, row: int, kr: int, kc: int)
    requires 0 <= row < 8 && InBoard(kr, kc)
  {
    exists c :: 0 <= c < 8 && Attacker(state, live, p, row, c, kr, kc)
  }

  /** The check test: find the king, then scan every cell for an attacker. */
  method IsKingInCheck(state: Board, live: Board, p: Player) returns (check: bool)
    ensures check == KingInCheck(state, live, p)
  {
    var loc := FindKing(state, KingChar(p));
    if loc.None? {
      return false;
    }
    var kr, kc := loc.value.0, loc.value.1;
    for row := 0 to 8
      invariant forall r :: 0 <= r < row ==> !RowHasAttacker(state, live, p, r, kr, kc)
    {
      var found := AttackerInRow(state, live, p, row, kr, kc);
      if found {
        ghost var c :| 0 <= c < 8 && Attacker(state, live, p, row, c, kr, kc);
        return true;
      }
    }
    assert forall r, c :: 0 <= r < 8 && 0 <= c < 8 ==> !Attacker(state, live, p, r, c, kr, kc) by {
      forall r, c | 0 <= r < 8 && 0 <= c < 8 ensures !Attacker(state, live, p, r, c, kr, kc) {
        assert !RowHasAttacker(state, live, p, r, kr, kc);
      }
    }
    return false;
  }

  /** The inner loop of the check test: one row of candidate attackers. */
  method AttackerInRow(state: Board, live: Board, p: Player, row: int, kr: int, kc: int)
    returns (found: bool)
    requires 0 <= row < 8 && InBoard(kr, kc)
    ensures found == RowHasAttacker(state, live, p, row, kr, kc)
  {
    for col := 0 to 8
      invariant forall c :: 0 <= c < col ==> !Attacker(state, live, p, row, c, kr, kc)
    {
      var piece := state[row][col];
      if piece == ' ' || OfColour(piece, p) {
        continue;
      }
      if CanPieceAttack(state, live, row, col, kr, kc) {
        assert Attacker(state, live, p, row, col, kr, kc);
        return true;
      }
    }
    return false;
  }

  /** The castling test with its loop over the columns the king crosses. */
  method IsValidCastling(pos: Position, fr: int, fc: int, tr: int, tc: int) returns (ok: bool)
    requires InBoard(fr, fc) && InBoard(tr, tc)
    ensures ok == Castling(pos, fr, fc, tr, tc)
  {
    var b := pos.board;
    var p := pos.current;
    if fr != tr || Abs(tc - fc) != 2 {
      return false;
    }
    var inCheck := IsKingInCheck(b, b, p);
    if inCheck {
      return false;
    }
    var row := HomeRow(p);
    if fr != row || b[row][4] != KingChar(p) {
      return false;
    }
    var isKingSide := tc == 6;
    var rookCol := if isKingSide then 7 else 0;
    if b[row][rookCol] != RookChar(p) {
      return false;
    }
    if HasMoved(pos.history, KingChar(p), RookChar(p), row, rookCol) {
      return false;
    }
    var colStart := if isKingSide then 5 else 3;
    var colEnd := if isKingSide then 6 else 2;
    var step := if isKingSide then 1 else -1;
    var col := colStart;
    while col != colEnd + step
      invariant col == colStart || col == colEnd || col == colEnd + step
      invariant col != colStart ==> CastleSquareSafe(b, p, row, colStart)
      invariant col == colEnd + step ==> CastleSquareSafe(b, p, row, colEnd)
      decreases Abs(colEnd + step - col)
    {
      if b[row][col] != ' ' {
        return false;
      }
      var tempBoard := KingShift(b, row, col);
      var attacked := IsKingInCheck(tempBoard, b, p);
      if attacked {
        return false;
      }
      col := col + step;
    }
    return true;
  }

  /** The legality filter, calling the castling and check loops. */
  method IsValidMove(pos: Position, fr: int, fc: int, tr: int, tc: int) returns (ok: bool)
    requires InBoard(fr, fc) && InBoard(tr, tc)
    ensures ok == ValidMove(pos, fr, fc, tr, tc)
  {
    var b := pos.board;
    var piece := b[fr][fc];
    var target := b[tr][tc];
    var isWhitePiece := piece == ToUpper(piece);
    if (isWhitePiece && pos.current != White) || (!isWhitePiece && pos.current != Black) {
      return false;
    }
    if target != ' ' && IsPlayerPiece(pos, tr, tc) {
      return false;
    }
    var pieceType := ToLower(piece);
    var isValid := false;
    if pieceType == 'p' {
      isValid := PawnMove(pos, fr, fc, tr, tc);
    } else if pieceType == 'r' {
      isValid := IsValidRookMove(b, fr, fc, tr, tc);
    } else if pieceType == 'n' {
      isValid := KnightMove(fr, fc, tr, tc);
    } else if pieceType == 'b' {
      isValid := IsValidBishopMove(b, fr, fc, tr, tc);
    } else if pieceType == 'q' {
      isValid := IsValidQueenMove(b, fr, fc, tr, tc);
    } else if pieceType == 'k' {
      isValid := Adjacent(fr, fc, tr, tc);
      if !isValid {
        isValid := IsValidCastling(pos, fr, fc, tr, tc);
      }
    }
    if !isValid {
      return false;
    }
    var tempBoard := Scratch(b, fr, fc, tr, tc);
    var check := IsKingInCheck(tempBoard, b, pos.current);
    if check {
      return false;
    }
    return true;
  }

  /** The checkmate scan over every candidate source and every destination. */
  method IsCheckmate(pos: Position, player: Player) returns (mated: bool)
    ensures mated == NoValidMove(pos, player)
  {
    var b := pos.board;
    for fromRow := 0 to 8
      invariant forall fr, fc :: 0 <= fr < fromRow && 0 <= fc < 8 && Candidate(pos, player, fr, fc) ==> NoMoveFrom(pos, fr, fc)
    {
      for fromCol := 0 to 8
        invariant forall fr, fc :: 0 <= fr < fromRow && 0 <= fc < 8 && Candidate(pos, player, fr, fc) ==> NoMoveFrom(pos, fr, fc)
        invariant forall fc :: 0 <= fc < fromCol && Candidate(pos, player, fromRow, fc) ==> NoMoveFrom(pos, fromRow, fc)
      {
        var piece := b[fromRow][fromCol];
        if !IsPlayerPiece(pos, fromRow, fromCol) || (player == White && piece != ToUpper(piece))
          || (player == Black && piece != ToLower(piece)) {
          continue;
        }
        var moves := HasMoveFrom(pos, fromRow, fromCol);
        if moves {
          return false;
        }
      }
    }
    return true;
  }

  /** The inner two loops of the checkmate scan: every destination for one source. */
  method HasMoveFrom(pos: Position, fromRow: int, fromCol: int) returns (moves: bool)
    requires InBoard(fromRow, fromCol)
    ensures moves == !NoMoveFrom(pos, fromRow, fromCol)
  {
    for toRow := 0 to 8
      invariant forall tr, tc :: 0 <= tr < toRow && 0 <= tc < 8 ==> !ValidMove(pos, fromRow, fromCol, tr, tc)
    {
      var found := HasMoveInRow(pos, fromRow, fromCol, toRow);
      if found {
        return true;
      }
    }
    return false;
  }

  /** The innermost loop of the checkmate scan: one destination row. */
  method HasMoveInRow(pos: Position, fromRow: int, fromCol: int, toRow: int) returns (found: bool)
    requires InBoard(fromRow, fromCol) && 0 <= toRow < 8
    ensures found == exists tc :: 0 <= tc < 8 && ValidMove(pos, fromRow, fromCol, toRow, tc)
  {
    for toCol := 0 to 8
      invariant forall tc :: 0 <= tc < toCol ==> !ValidMove(pos, fromRow, fromCol, toRow, tc)
    {
      var valid := IsValidMove(pos, fromRow, fromCol, toRow, toCol);
      if valid {
        return true;
      }
    }
    return false;
  }

  /** The stalemate test: not in check, and the checkmate scan finds nothing. */
  method IsStalemate(pos: Position, player: Player) returns (stale: bool)
    ensures stale == Stalemated(pos, player)
  {
    var check := IsKingInCheck(pos.board, pos.board, player);
    if check {
      return false;
    }
    stale := IsCheckmate(pos, player);
  }

  /**
   * The end-of-move classification: checks the side that is not to move,
   * then runs the checkmate or the stalemate scan for it.
   */
  method CheckGameStateScan(pos: Position) returns (status: Status)
    ensures status == Classify(pos)
  {
    var opponent := if pos.current == White then Black else White;
    var inCheck := IsKingInCheck(pos.board, pos.board, opponent);
    if inCheck {
      var mated := IsCheckmate(pos, opponent);
      if mated {
        status := Checkmate;
      } else {
        status := Check;
      }
    } else {
      var stale := IsStalemate(pos, opponent);
      if stale {
        status := Stalemate;
      } else {
        status := ToMove;
      }
    }
  }
}
