/**
 * Concrete positions. The opening pawn move from (6, 4) to (4, 4) on the
 * starting grid, and what the page's end-of-move classification makes of it:
 * the move is accepted, and the classification, which examines white,
 * declares stalemate although black has a valid answer. Then two castling
 * positions that show what the castling test does not look at.
 */
module Scenarios {
  import opened Position
  import opened Rules
  import opened Apply

  const Start: Position := Position(InitialBoard, White, [])

  /** The grid after the opening move. */
  const OpenedBoard: Board := [
    "rkbq+bkr",
    "pppppppp",
    "        ",
    "        ",
    "    P   ",
    "        ",
    "PPPP PPP",
    "RKBQ*BKR"
  ]

  /** The position after the opening move, black to move. */
  function AfterOpening(): (pos: Position)
    ensures pos.current == Black && pos.history == [Move('P', 6, 4, 4, 4)]
    ensures pos.board == OpenedBoard
  {
    var b := Applied(InitialBoard, White, 6, 4, 4, 4);
    assert b[4] == OpenedBoard[4] && b[6] == OpenedBoard[6];
    assert b == OpenedBoard;
    Position(b, Black, [Move('P', 6, 4, 4, 4)])
  }

  /** The legality filter accepts the white pawn's double step from the start. */
  lemma OpeningMoveAccepted()
    ensures ValidMove(Start, 6, 4, 4, 4)
  {
    var b := InitialBoard;
    var s := Scratch(b, 6, 4, 4, 4);
    LocateKingAt(s, 'K', 7, 1);
    forall r, c | 0 <= r < 8 && 0 <= c < 8 ensures !Attacker(s, b, White, r, c, 7, 1) {
      if r >= 2 {
        assert s[r][c] == ' ' || OfColour(s[r][c], White);
      }
    }
  }

  /** White, which has just moved, is not in check after the opening move. */
  lemma WhiteSafeAfterOpening()
    ensures !KingInCheck(AfterOpening().board, AfterOpening().board, White)
  {
    var b := OpenedBoard;
    LocateKingAt(b, 'K', 7, 1);
    forall r, c | 0 <= r < 8 && 0 <= c < 8 ensures !Attacker(b, b, White, r, c, 7, 1) {
      if r >= 2 {
        assert b[r][c] == ' ' || OfColour(b[r][c], White);
      }
    }
  }

  /** The page's classification declares stalemate after the opening move. */
  lemma OpeningMoveEndsGame()
    ensures Classify(AfterOpening()) == Stalemate
  {
    WhiteSafeAfterOpening();
    ClassifyAlwaysEnds(AfterOpening());
  }

  /** Black, to move, is not in check after the opening move. */
  lemma BlackSafeAfterOpening()
    ensures !KingInCheck(AfterOpening().board, AfterOpening().board, Black)
  {
    var b := OpenedBoard;
    LocateKingAt(b, 'k', 0, 1);
    forall r, c | 0 <= r < 8 && 0 <= c < 8 ensures !Attacker(b, b, Black, r, c, 0, 1) {
      if r < 4 {
        assert b[r][c] == ' ' || OfColour(b[r][c], Black);
      }
    }
  }

  /** Black may answer with its own double step. */
  lemma BlackCanAnswer()
    ensures ValidMove(AfterOpening(), 1, 4, 3, 4)
  {
    var b := OpenedBoard;
    var s := Scratch(b, 1, 4, 3, 4);
    LocateKingAt(s, 'k', 0, 1);
    forall r, c | 0 <= r < 8 && 0 <= c < 8 ensures !Attacker(s, b, Black, r, c, 0, 1) {
      if r < 4 {
        assert s[r][c] == ' ' || OfColour(s[r][c], Black);
      }
    }
  }

  /** The reference classification of the side to move lets the game go on. */
  lemma OpeningMoveContinues()
    ensures ClassifyToMove(AfterOpening()) == ToMove
  {
    var pos := AfterOpening();
    BlackSafeAfterOpening();
    BlackCanAnswer();
    ValidMoveIsCandidate(pos, 1, 4, 3, 4);
    assert !NoMoveFrom(pos, 1, 4);
  }

  // ---------------------------------------------------------------------
  // Castling: what the test does not look at

  /** The only cell not of white's case is a black king on (0, 4). */
  ghost predicate OnlyFarBlackKing(s: Board)
  {
    s[0][4] == 'k'
    && forall r, c :: 0 <= r < 8 && 0 <= c < 8 && (r, c) != (0, 4) ==> OfColour(s[r][c], White)
  }

  /** Writing a white-case character on the last row keeps that property. */
  lemma SetKeepsFarBlackKing(s: Board, c: int, v: char)
    requires OnlyFarBlackKing(s) && 0 <= c < 8 && OfColour(v, White)
    ensures OnlyFarBlackKing(Set(s, 7, c, v))
  {
  }

  /** White is not in check there when the first 'K' of the last row is at (7, kc). */
  lemma WhiteSafeFromFarKing(s: Board, live: Board, kc: int)
    requires OnlyFarBlackKing(s)
    requires 0 <= kc < 8 && s[7][kc] == 'K'
    requires forall c :: 0 <= c < kc ==> s[7][c] != 'K'
    ensures !KingInCheck(s, live, White)
  {
    LocateKingAt(s, 'K', 7, kc);
  }

  /** Moving white's characters along the last row keeps white safe from that king. */
  lemma WhiteSafeAfterShift(b: Board, fc: int, tc: int, kc: int)
    requires OnlyFarBlackKing(b) && 0 <= fc < 8 && 0 <= tc < 8
    requires var s := Set(Set(b, 7, tc, b[7][fc]), 7, fc, ' ');
      0 <= kc < 8 && s[7][kc] == 'K' && forall c :: 0 <= c < kc ==> s[7][c] != 'K'
    ensures !KingInCheck(Set(Set(b, 7, tc, b[7][fc]), 7, fc, ' '), b, White)
  {
    SetKeepsFarBlackKing(b, tc, b[7][fc]);
    SetKeepsFarBlackKing(Set(b, 7, tc, b[7][fc]), fc, ' ');
    WhiteSafeFromFarKing(Set(Set(b, 7, tc, b[7][fc]), 7, fc, ' '), b, kc);
  }

  /** A white knight on (7, 1) between the queen-side rook and the king. */
  const QueenSideBoard: Board := [
    "    k   ",
    "        ",
    "        ",
    "        ",
    "        ",
    "        ",
    "        ",
    "RN  K  R"
  ]

  /**
   * Queen-side castling is accepted with (7, 1) occupied, since only columns
   * 3 and 2 are checked, and the applier then moves the rook from (7, 0) over
   * the knight to (7, 3).
   */
  lemma QueenSideIgnoresColumnOne()
    ensures QueenSideBoard[7][1] != ' '
    ensures ValidMove(Position(QueenSideBoard, White, []), 7, 4, 7, 2)
    ensures Applied(QueenSideBoard, White, 7, 4, 7, 2)[7] == " NKR   R"
  {
    QueenSideSafe();
    var pos := Position(QueenSideBoard, White, []);
    assert Castling(pos, 7, 4, 7, 2);
    assert PieceMove(pos, 7, 4, 7, 2);
    QueenSideApplied();
  }

  /** The applier's writes on that grid, one after another. */
  lemma QueenSideApplied()
    ensures Applied(QueenSideBoard, White, 7, 4, 7, 2)[7] == " NKR   R"
  {
    var b := QueenSideBoard;
    var b2 := Set(Set(b, 7, 3, 'R'), 7, 0, ' ');
    var b3 := Set(Set(b2, 7, 2, 'K'), 7, 4, ' ');
    assert Applied(b, White, 7, 4, 7, 2) == b3;
  }

  /** White is safe on that grid, with the king on (7, 4), (7, 3) or (7, 2). */
  lemma QueenSideSafe()
    ensures var b := QueenSideBoard;
      && !KingInCheck(b, b, White)
      && !KingInCheck(KingShift(b, 7, 3), b, White)
      && !KingInCheck(KingShift(b, 7, 2), b, White)
      && !KingInCheck(Scratch(b, 7, 4, 7, 2), b, White)
  {
    var b := QueenSideBoard;
    assert OnlyFarBlackKing(b);
    WhiteSafeFromFarKing(b, b, 4);
    WhiteSafeAfterShift(b, 4, 3, 3);
    WhiteSafeAfterShift(b, 4, 2, 2);
  }

  /** A second 'K' on (7, 5), beside the king on (7, 4). */
  const SecondKingBoard: Board := [
    "    k   ",
    "        ",
    "        ",
    "        ",
    "        ",
    "        ",
    "        ",
    "R   KK  "
  ]

  /**
   * The castling test does not compare the source column with 4: the 'K' on
   * (7, 5) castles to (7, 3). The applier moves the rook to (7, 3) and the
   * 'K' onto it, so the rook is gone from the grid.
   */
  lemma CastlingFromOtherColumn()
    ensures ValidMove(Position(SecondKingBoard, White, []), 7, 5, 7, 3)
    ensures Applied(SecondKingBoard, White, 7, 5, 7, 3)[7] == "   KK   "
  {
    SecondKingSafe();
    var pos := Position(SecondKingBoard, White, []);
    assert Castling(pos, 7, 5, 7, 3);
    assert PieceMove(pos, 7, 5, 7, 3);
    SecondKingApplied();
  }

  /** The applier's writes on that grid, one after another. */
  lemma SecondKingApplied()
    ensures Applied(SecondKingBoard, White, 7, 5, 7, 3)[7] == "   KK   "
  {
    var b := SecondKingBoard;
    var b2 := Set(Set(b, 7, 3, 'R'), 7, 0, ' ');
    var b3 := Set(Set(b2, 7, 3, 'K'), 7, 5, ' ');
    assert Applied(b, White, 7, 5, 7, 3) == b3;
  }

  /** White is safe on that grid, also after the king or the second 'K' shifts. */
  lemma SecondKingSafe()
    ensures var b := SecondKingBoard;
      && !KingInCheck(b, b, White)
      && !KingInCheck(KingShift(b, 7, 3), b, White)
      && !KingInCheck(KingShift(b, 7, 2), b, White)
      && !KingInCheck(Scratch(b, 7, 5, 7, 3), b, White)
  {
    var b := SecondKingBoard;
    assert OnlyFarBlackKing(b);
    WhiteSafeFromFarKing(b, b, 4);
    WhiteSafeAfterShift(b, 4, 3, 3);
    WhiteSafeAfterShift(b, 4, 2, 2);
    WhiteSafeAfterShift(b, 5, 3, 3);
  }
}
