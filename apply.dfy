/**
 * The effect of the page's move applier on the grid, as a function of the
 * grid before the move. The applier itself, which writes the cells of the
 * board in place, is Controller.Game.MakeMove.
 */
module Apply {
  import opened Position
  import opened Rules

  /** A pawn stepping diagonally onto an empty cell is taken as en passant. */
  predicate IsEnPassantCapture(b: Board, fr: int, fc: int, tr: int, tc: int)
    requires InBoard(fr, fc) && InBoard(tr, tc)
  {
    ToLower(b[fr][fc]) == 'p' && Abs(tc - fc) == 1 && b[tr][tc] == ' '
  }

  /** A `k`/`K` moving two columns is taken as castling. */
  predicate IsCastlingMove(b: Board, fr: int, fc: int, tc: int)
    requires InBoard(fr, fc)
  {
    ToLower(b[fr][fc]) == 'k' && Abs(tc - fc) == 2
  }

  /** A pawn reaching row 0 or row 7 is promoted. */
  predicate IsPromotion(b: Board, fr: int, fc: int, tr: int)
    requires InBoard(fr, fc)
  {
    ToLower(b[fr][fc]) == 'p' && (tr == 0 || tr == 7)
  }

  /** Where the castling rook lands: column 5 on the king side, 3 otherwise. */
  function CastleRookTarget(tc: int): (col: int) { if tc == 6 then 5 else 3 }

  /** The promoted queen takes the colour of the side to move. */
  function QueenChar(p: Player): (q: char) { if p == White then 'Q' else 'q' }

  /**
   * The grid after the applier, in its order of writes: clear the en passant
   * victim, move the castling rook, copy the piece to the destination and
   * clear the source, then promote.
   */
  function Applied(b: Board, p: Player, fr: int, fc: int, tr: int, tc: int): (b2: Board)
    requires InBoard(fr, fc) && InBoard(tr, tc)
  {
    var b1 := if IsEnPassantCapture(b, fr, fc, tr, tc) then Set(b, fr, tc, ' ') else b;
    var rookFrom := CastleRookCol(tc);
    var rookTo := CastleRookTarget(tc);
    var b2 := if IsCastlingMove(b, fr, fc, tc)
      then Set(Set(b1, fr, rookTo, b1[fr][rookFrom]), fr, rookFrom, ' ')
      else b1;
    var b3 := Set(Set(b2, tr, tc, b2[fr][fc]), fr, fc, ' ');
    if IsPromotion(b, fr, fc, tr) then Set(b3, tr, tc, QueenChar(p)) else b3
  }

  /**
   * Cell by cell: the source is emptied; the destination holds the piece or,
   * for a pawn on row 0 or 7, the mover's queen; an en passant capture
   * empties (fr, tc); castling moves the rook from column 7 to 5 or from 0
   * to 3; every other cell keeps its content.
   */
  lemma AppliedCell(b: Board, p: Player, fr: int, fc: int, tr: int, tc: int, r: int, c: int)
    requires InBoard(fr, fc) && InBoard(tr, tc) && InBoard(r, c)
    requires (fr, fc) != (tr, tc)
    requires IsCastlingMove(b, fr, fc, tc) ==> fc != CastleRookCol(tc) && fc != CastleRookTarget(tc)
    ensures Applied(b, p, fr, fc, tr, tc)[r][c] ==
      if (r, c) == (fr, fc) then ' '
      else if (r, c) == (tr, tc) then (if IsPromotion(b, fr, fc, tr) then QueenChar(p) else b[fr][fc])
      else if IsEnPassantCapture(b, fr, fc, tr, tc) && (r, c) == (fr, tc) then ' '
      else if IsCastlingMove(b, fr, fc, tc) && (r, c) == (fr, CastleRookTarget(tc)) then b[fr][CastleRookCol(tc)]
      else if IsCastlingMove(b, fr, fc, tc) && (r, c) == (fr, CastleRookCol(tc)) then ' '
      else b[r][c]
  {
  }

  /**
   * Every move the legality filter accepts meets the side conditions of
   * AppliedCell: source and destination differ, and a castling king does
   * not start on either rook square.
   */
  lemma {:induction false} ValidMoveFitsApplied(pos: Position, fr: int, fc: int, tr: int, tc: int)
    requires InBoard(fr, fc) && InBoard(tr, tc) && ValidMove(pos, fr, fc, tr, tc)
    ensures (fr, fc) != (tr, tc)
    ensures IsCastlingMove(pos.board, fr, fc, tc) ==>
      fr == tr && fc != CastleRookCol(tc) && fc != CastleRookTarget(tc)
  {
    ValidMoveMovesOwnLetter(pos, fr, fc, tr, tc);
    var b := pos.board;
    if IsCastlingMove(b, fr, fc, tc) {
      assert KingMove(pos, fr, fc, tr, tc);
      assert Castling(pos, fr, fc, tr, tc);
      CastlingConditions(pos, fr, fc, tr, tc);
      assert ToLower(RookChar(pos.current)) == 'r';
    }
  }

  /**
   * A valid en passant capture removes the piece that made the last move: the
   * last move was a pawn's that landed on (fr, tc), and the applier empties
   * that cell and puts the capturing pawn on the destination.
   */
  lemma {:induction false} EnPassantTakesLastMover(pos: Position, fr: int, fc: int, tr: int, tc: int)
    requires InBoard(fr, fc) && InBoard(tr, tc) && ValidMove(pos, fr, fc, tr, tc)
    requires IsEnPassantCapture(pos.board, fr, fc, tr, tc)
    ensures |pos.history| > 0
    ensures var last := pos.history[|pos.history| - 1];
      last.toRow == fr && last.toCol == tc && ToLower(last.piece) == 'p'
    ensures Applied(pos.board, pos.current, fr, fc, tr, tc)[fr][tc] == ' '
    ensures Applied(pos.board, pos.current, fr, fc, tr, tc)[tr][tc] == pos.board[fr][fc]
  {
    var b := pos.board;
    assert PawnMove(pos, fr, fc, tr, tc);
    assert EnPassant(pos, fr, fc, tr, tc);
    ValidMoveFitsApplied(pos, fr, fc, tr, tc);
    AppliedCell(b, pos.current, fr, fc, tr, tc, fr, tc);
    AppliedCell(b, pos.current, fr, fc, tr, tc, tr, tc);
  }
}
