/**
 * The rule engine of the chess page as pure functions over a Position:
 * the geometric move tests, attack and check detection, the legality
 * filter, the "no valid move" scan behind checkmate and stalemate, and the
 * classification the controller makes after each move.
 *
 * The page's path test reads the live grid even when it is reached from the
 * attack test on a scratch grid; every function that runs a path test
 * therefore takes the grid it reads paths from as its own parameter.
 */
module Rules {
  import opened Position

  // ---------------------------------------------------------------------
  // Lines and the path test

  /** Source and destination share a rank, a file or a diagonal. */
  predicate Aligned(fr: int, fc: int, tr: int, tc: int)
  {
    fr == tr || fc == tc || Abs(tr - fr) == Abs(tc - fc)
  }

  /** Chebyshev distance: the number of unit steps along an aligned line. */
  function Dist(fr: int, fc: int, tr: int, tc: int): (n: nat)
  {
    if Abs(tr - fr) >= Abs(tc - fc) then Abs(tr - fr) else Abs(tc - fc)
  }

  /** One coordinate after `i` unit steps from `from` towards `to`. */
  function Toward(from: int, to: int, i: int): (x: int)
  {
    if to == from then from else if to > from then from + i else from - i
  }

  /** The cell `i` unit steps along the line from the source. */
  function PathSquare(b: Board, fr: int, fc: int, tr: int, tc: int, i: int): (cell: char)
    requires InBoard(fr, fc) && InBoard(tr, tc) && Aligned(fr, fc, tr, tc)
    requires 0 <= i <= Dist(fr, fc, tr, tc)
  {
    b[Toward(fr, tr, i)][Toward(fc, tc, i)]
  }

  /** Every cell met strictly between source and destination is empty. */
  predicate PathClear(b: Board, fr: int, fc: int, tr: int, tc: int)
    requires InBoard(fr, fc) && InBoard(tr, tc) && Aligned(fr, fc, tr, tc)
  {
    forall i :: 0 < i < Dist(fr, fc, tr, tc) ==> PathSquare(b, fr, fc, tr, tc, i) == ' '
  }

  predicate StrictlyBetween(a: int, x: int, b: int)
  {
    (a < x < b) || (b < x < a)
  }

  /**
   * Geometric reference for "strictly between": (r, c) lies on the open
   * segment from the source to the destination of an aligned move.
   */
  predicate OnSegment(fr: int, fc: int, tr: int, tc: int, r: int, c: int)
  {
    if fr == tr then r == fr && StrictlyBetween(fc, c, tc)
    else if fc == tc then c == fc && StrictlyBetween(fr, r, tr)
    else StrictlyBetween(fr, r, tr) && StrictlyBetween(fc, c, tc) && Abs(r - fr) == Abs(c - fc)
  }

  /** Every cell on the open segment is empty; the endpoints are not read. */
  ghost predicate SegmentEmpty(b: Board, fr: int, fc: int, tr: int, tc: int)
  {
    forall r, c :: InBoard(r, c) && OnSegment(fr, fc, tr, tc, r, c) ==> b[r][c] == ' '
  }

  /** The walk of the path test passes exactly over the open segment. */
  lemma {:induction false} PathClearIffSegmentEmpty(b: Board, fr: int, fc: int, tr: int, tc: int)
    requires InBoard(fr, fc) && InBoard(tr, tc) && Aligned(fr, fc, tr, tc)
    ensures PathClear(b, fr, fc, tr, tc) <==> SegmentEmpty(b, fr, fc, tr, tc)
  {
    var d := Dist(fr, fc, tr, tc);
    if PathClear(b, fr, fc, tr, tc) {
      forall r, c | InBoard(r, c) && OnSegment(fr, fc, tr, tc, r, c)
        ensures b[r][c] == ' '
      {
        var i := if fr == tr then Abs(c - fc) else Abs(r - fr);
        assert 0 < i < d;
        assert Toward(fr, tr, i) == r && Toward(fc, tc, i) == c;
        assert PathSquare(b, fr, fc, tr, tc, i) == ' ';
      }
    }
    if SegmentEmpty(b, fr, fc, tr, tc) {
      forall i | 0 < i < d
        ensures PathSquare(b, fr, fc, tr, tc, i) == ' '
      {
        var r, c := Toward(fr, tr, i), Toward(fc, tc, i);
        assert InBoard(r, c) && OnSegment(fr, fc, tr, tc, r, c);
      }
    }
  }

  /** The path test never reads the source or the destination cell. */
  lemma PathClearIgnoresEndpoints(b: Board, fr: int, fc: int, tr: int, tc: int, v: char, w: char)
    requires InBoard(fr, fc) && InBoard(tr, tc) && Aligned(fr, fc, tr, tc)
    ensures PathClear(Set(Set(b, fr, fc, v), tr, tc, w), fr, fc, tr, tc) == PathClear(b, fr, fc, tr, tc)
  {
    var b' := Set(Set(b, fr, fc, v), tr, tc, w);
    PathClearIffSegmentEmpty(b, fr, fc, tr, tc);
    PathClearIffSegmentEmpty(b', fr, fc, tr, tc);
    assert forall r, c :: InBoard(r, c) && OnSegment(fr, fc, tr, tc, r, c) ==> b'[r][c] == b[r][c];
  }

  // ---------------------------------------------------------------------
  // Piece shapes (the path tests read `b`)

  /** Knight: an L of two and one; it jumps, so no path is read. */
  predicate KnightMove(fr: int, fc: int, tr: int, tc: int)
    ensures KnightMove(fr, fc, tr, tc) ==> !Aligned(fr, fc, tr, tc) && Dist(fr, fc, tr, tc) == 2
  {
    (Abs(tr - fr) == 2 && Abs(tc - fc) == 1) || (Abs(tr - fr) == 1 && Abs(tc - fc) == 2)
  }

  /** Rook: same row or column with an empty open segment. */
  predicate RookMove(b: Board, fr: int, fc: int, tr: int, tc: int)
    requires InBoard(fr, fc) && InBoard(tr, tc)
    ensures RookMove(b, fr, fc, tr, tc) <==> (fr == tr || fc == tc) && SegmentEmpty(b, fr, fc, tr, tc)
  {
    if fr != tr && fc != tc then false
    else
      PathClearIffSegmentEmpty(b, fr, fc, tr, tc);
      PathClear(b, fr, fc, tr, tc)
  }

  /** Bishop: equal row and column distance with an empty open segment. */
  predicate BishopMove(b: Board, fr: int, fc: int, tr: int, tc: int)
    requires InBoard(fr, fc) && InBoard(tr, tc)
    ensures BishopMove(b, fr, fc, tr, tc) <==> Abs(tr - fr) == Abs(tc - fc) && SegmentEmpty(b, fr, fc, tr, tc)
  {
    if Abs(tr - fr) != Abs(tc - fc) then false
    else
      PathClearIffSegmentEmpty(b, fr, fc, tr, tc);
      PathClear(b, fr, fc, tr, tc)
  }

  /** Queen: a rook move or a bishop move. */
  predicate QueenMove(b: Board, fr: int, fc: int, tr: int, tc: int)
    requires InBoard(fr, fc) && InBoard(tr, tc)
    ensures QueenMove(b, fr, fc, tr, tc) <==> Aligned(fr, fc, tr, tc) && SegmentEmpty(b, fr, fc, tr, tc)
  {
    RookMove(b, fr, fc, tr, tc) || BishopMove(b, fr, fc, tr, tc)
  }

  /** At most one square in each direction (the source square included). */
  predicate Adjacent(fr: int, fc: int, tr: int, tc: int)
  {
    Abs(tr - fr) <= 1 && Abs(tc - fc) <= 1
  }

  /**
   * The mover's colour test on the live grid. A letter belongs to the side of
   * its case; a non-letter (an empty cell or a sigil) counts as the mover's.
   */
  predicate IsPlayerPiece(pos: Position, r: int, c: int)
    requires InBoard(r, c)
    ensures 'A' <= pos.board[r][c] <= 'Z' ==> (IsPlayerPiece(pos, r, c) <==> pos.current == White)
    ensures 'a' <= pos.board[r][c] <= 'z' ==> (IsPlayerPiece(pos, r, c) <==> pos.current == Black)
    ensures !('A' <= pos.board[r][c] <= 'Z' || 'a' <= pos.board[r][c] <= 'z') ==> IsPlayerPiece(pos, r, c)
  {
    OfColour(pos.board[r][c], pos.current)
  }

  /** Pawn direction and start row follow the side to move, not the piece. */
  function Forward(p: Player): (dir: int) { if p == White then -1 else 1 }

  function PawnStartRow(p: Player): (row: int) { if p == White then 6 else 1 }

  function EnPassantRow(p: Player): (row: int) { if p == White then 3 else 4 }

  /**
   * The en passant test: the last move was a two-row move of a character
   * that lower-cases to `p` and landed beside the mover, on its row and in
   * the destination column. The last mover's colour is not examined.
   */
  predicate EnPassant(pos: Position, fr: int, fc: int, tr: int, tc: int)
    ensures EnPassant(pos, fr, fc, tr, tc) ==>
      |pos.history| > 0 && fr == EnPassantRow(pos.current)
      && pos.history[|pos.history| - 1].toRow == fr
      && pos.history[|pos.history| - 1].toCol == tc
      && Abs(pos.history[|pos.history| - 1].fromRow - fr) == 2
      && ToLower(pos.history[|pos.history| - 1].piece) == 'p'
  {
    if |pos.history| == 0 then false
    else
      var last := pos.history[|pos.history| - 1];
      fr == EnPassantRow(pos.current)
      && ToLower(last.piece) == 'p'
      && Abs(last.fromRow - last.toRow) == 2
      && last.toCol == tc && last.toRow == fr
  }

  /**
   * The conditions above are also sufficient, whatever the colour of the
   * last mover: a two-row move of the mover's own pawn qualifies as well.
   */
  lemma EnPassantIgnoresColour(pos: Position, fr: int, fc: int, tr: int, tc: int)
    requires |pos.history| > 0 && fr == EnPassantRow(pos.current)
    requires var last := pos.history[|pos.history| - 1];
      (last.piece == 'p' || last.piece == 'P')
      && Abs(last.fromRow - last.toRow) == 2 && last.toCol == tc && last.toRow == fr
    ensures EnPassant(pos, fr, fc, tr, tc)
  {
  }

  /** Pawn: straight onto an empty cell, or one step diagonally. */
  predicate PawnMove(pos: Position, fr: int, fc: int, tr: int, tc: int)
    requires InBoard(fr, fc) && InBoard(tr, tc)
  {
    var b := pos.board;
    var dir := Forward(pos.current);
    var target := b[tr][tc];
    (fc == tc && target == ' '
      && (tr == fr + dir
          || (fr == PawnStartRow(pos.current) && tr == fr + 2 * dir && b[fr + dir][fc] == ' ')))
    || (Abs(tc - fc) == 1 && tr == fr + dir
        && ((target != ' ' && !IsPlayerPiece(pos, tr, tc))
            || (target == ' ' && EnPassant(pos, fr, fc, tr, tc))))
  }

  /** What a pawn move can be: its possible shapes and destinations. */
  lemma PawnMoveShape(pos: Position, fr: int, fc: int, tr: int, tc: int)
    requires InBoard(fr, fc) && InBoard(tr, tc) && PawnMove(pos, fr, fc, tr, tc)
    ensures var dir := Forward(pos.current);
      var target := pos.board[tr][tc];
      || (fc == tc && target == ' ' && tr == fr + dir)
      || (fc == tc && target == ' ' && tr == fr + 2 * dir && fr == PawnStartRow(pos.current)
          && pos.board[fr + dir][fc] == ' ')
      || (Abs(tc - fc) == 1 && tr == fr + dir && target != ' ' && !OfColour(target, pos.current))
      || (Abs(tc - fc) == 1 && tr == fr + dir && target == ' ' && EnPassant(pos, fr, fc, tr, tc))
  {
  }

  /** A pawn never moves backwards or sideways, and never more than two rows. */
  lemma {:induction false} PawnMovesForward(pos: Position, fr: int, fc: int, tr: int, tc: int)
    requires InBoard(fr, fc) && InBoard(tr, tc) && PawnMove(pos, fr, fc, tr, tc)
    ensures pos.current == White ==> tr < fr && fr - tr <= 2
    ensures pos.current == Black ==> tr > fr && tr - fr <= 2
    ensures Abs(tc - fc) <= 1
    ensures pos.board[tr][tc] == ' ' || !OfColour(pos.board[tr][tc], pos.current)
  {
    PawnMoveShape(pos, fr, fc, tr, tc);
  }

  // ---------------------------------------------------------------------
  // Attack and check detection

  /** The index of the first occurrence of `k` in a row. */
  function FirstIndex(s: seq<char>, k: char): (i: nat)
    requires k in s
    ensures i < |s| && s[i] == k && forall j :: 0 <= j < i ==> s[j] != k
  {
    if s[0] == k then 0 else 1 + FirstIndex(s[1..], k)
  }

  /**
   * The king locator over rows 0 .. n-1: the scan replaces its answer in every
   * row that holds `k` and stops each row at its first `k`, so it keeps the
   * first match of the last such row.
   */
  function LocateUpTo(b: Board, k: char, n: int): (loc: Option<(int, int)>)
    requires 0 <= n <= 8
    ensures loc.Some? ==> 0 <= loc.value.0 < n && 0 <= loc.value.1 < 8
    decreases n
  {
    if n == 0 then None
    else if k in b[n - 1] then Some((n - 1, FirstIndex(b[n - 1], k)))
    else LocateUpTo(b, k, n - 1)
  }

  function LocateKing(b: Board, k: char): (loc: Option<(int, int)>)
    ensures loc.Some? ==> InBoard(loc.value.0, loc.value.1)
  {
    LocateUpTo(b, k, 8)
  }

  lemma {:induction false} LocateUpToSpec(b: Board, k: char, n: int)
    requires 0 <= n <= 8
    ensures LocateUpTo(b, k, n).None? <==> forall r, c :: 0 <= r < n && 0 <= c < 8 ==> b[r][c] != k
    ensures LocateUpTo(b, k, n).Some? ==>
      var (kr, kc) := LocateUpTo(b, k, n).value;
      b[kr][kc] == k
      && (forall r, c :: kr < r < n && 0 <= c < 8 ==> b[r][c] != k)
      && (forall c :: 0 <= c < kc ==> b[kr][c] != k)
    decreases n
  {
    if n > 0 {
      LocateUpToSpec(b, k, n - 1);
      if k !in b[n - 1] {
        var row := b[n - 1];
        forall c | 0 <= c < 8 ensures row[c] != k {
          assert row[c] in row;
        }
      } else {
        var c :| 0 <= c < 8 && b[n - 1][c] == k;
      }
    }
  }

  /**
   * The located king square is the first cell holding `k` in the last row
   * that holds it; there is none exactly when no cell holds `k`.
   */
  lemma LocateKingSpec(b: Board, k: char)
    ensures LocateKing(b, k).None? <==> forall r, c :: InBoard(r, c) ==> b[r][c] != k
    ensures LocateKing(b, k).Some? ==>
      var (kr, kc) := LocateKing(b, k).value;
      b[kr][kc] == k
      && (forall r, c :: InBoard(r, c) && r > kr ==> b[r][c] != k)
      && (forall c :: 0 <= c < kc ==> b[kr][c] != k)
  {
    LocateUpToSpec(b, k, 8);
  }

  /** The converse of LocateKingSpec: the last row's first match is the answer. */
  lemma LocateKingAt(b: Board, k: char, kr: int, kc: int)
    requires InBoard(kr, kc) && b[kr][kc] == k
    requires forall r, c :: InBoard(r, c) && r > kr ==> b[r][c] != k
    requires forall c :: 0 <= c < kc ==> b[kr][c] != k
    ensures LocateKing(b, k) == Some((kr, kc))
  {
    LocateKingSpec(b, k);
    var (lr, lc) := LocateKing(b, k).value;
    assert lr == kr;
  }

  /**
   * Whether the piece on `state` at the source attacks the destination.
   * Line pieces read their path from `live`.
   */
  predicate CanPieceAttack(state: Board, live: Board, fr: int, fc: int, tr: int, tc: int)
    requires InBoard(fr, fc) && InBoard(tr, tc)
    ensures CanPieceAttack(state, live, fr, fc, tr, tc) ==> ToLower(state[fr][fc]) in "pnbrqk"
    ensures CanPieceAttack(state, live, fr, fc, tr, tc) && ToLower(state[fr][fc]) == 'p' ==>
      Abs(tc - fc) == 1 && tr == fr + (if OfColour(state[fr][fc], White) then -1 else 1)
    ensures CanPieceAttack(state, live, fr, fc, tr, tc) && ToLower(state[fr][fc]) == 'k' ==>
      Dist(fr, fc, tr, tc) <= 1
    ensures CanPieceAttack(state, live, fr, fc, tr, tc) && ToLower(state[fr][fc]) in "brq" ==>
      Aligned(fr, fc, tr, tc) && SegmentEmpty(live, fr, fc, tr, tc)
  {
    var piece := state[fr][fc];
    var kind := ToLower(piece);
    if kind == 'p' then
      var dir := if piece == ToUpper(piece) then -1 else 1;
      Abs(tc - fc) == 1 && tr == fr + dir
    else if kind == 'n' then KnightMove(fr, fc, tr, tc)
    else if kind == 'b' then BishopMove(live, fr, fc, tr, tc)
    else if kind == 'r' then RookMove(live, fr, fc, tr, tc)
    else if kind == 'q' then QueenMove(live, fr, fc, tr, tc)
    else if kind == 'k' then Adjacent(fr, fc, tr, tc)
    else false
  }

  /** A cell that the check scan of `p` counts as an attacker of (kr, kc). */
  predicate Attacker(state: Board, live: Board, p: Player, r: int, c: int, kr: int, kc: int)
    requires InBoard(r, c) && InBoard(kr, kc)
  {
    var piece := state[r][c];
    !(piece == ' ' || OfColour(piece, p)) && CanPieceAttack(state, live, r, c, kr, kc)
  }

  /**
   * Whether `p`'s king is attacked on `state`: the located king square is
   * attacked by some letter of the other case. With no king on `state` the
   * page compares against undefined coordinates and every attack test fails.
   */
  predicate KingInCheck(state: Board, live: Board, p: Player)
  {
    match LocateKing(state, KingChar(p))
    case None => false
    case Some((kr, kc)) =>
      exists r, c :: 0 <= r < 8 && 0 <= c < 8 && Attacker(state, live, p, r, c, kr, kc)
  }

  /** Attackers are letters of the other case; a side's own pieces never give check. */
  lemma {:induction false} AttackersAreEnemyLetters(state: Board, live: Board, p: Player)
    requires KingInCheck(state, live, p)
    ensures exists r, c ::
      (InBoard(r, c) && !OfColour(state[r][c], p) && OfColour(state[r][c], Other(p))
       && ToLower(state[r][c]) in "pnbrqk")
  {
    var (kr, kc) := LocateKing(state, KingChar(p)).value;
    var r, c :| 0 <= r < 8 && 0 <= c < 8 && Attacker(state, live, p, r, c, kr, kc);
    OfColourCases(state[r][c]);
  }

  // ---------------------------------------------------------------------
  // Castling

  /** A history entry that moved `piece` away from (row, col). */
  predicate StartedFrom(m: Move, piece: char, row: int, col: int)
  {
    m.piece == piece && m.fromRow == row && m.fromCol == col
  }

  predicate HasMoved(history: seq<Move>, king: char, rook: char, row: int, rookCol: int)
  {
    exists i :: 0 <= i < |history| && (StartedFrom(history[i], king, row, 4) || StartedFrom(history[i], rook, row, rookCol))
  }

  /** The grid with the home-row king cell (row, 4) moved to (row, col). */
  function KingShift(b: Board, row: int, col: int): (b2: Board)
    requires 0 <= row < 8 && 0 <= col < 8
  {
    Set(Set(b, row, col, b[row][4]), row, 4, ' ')
  }

  /** A castling column: empty, and the king put there would not be attacked. */
  predicate CastleSquareSafe(b: Board, p: Player, row: int, col: int)
    requires 0 <= row < 8 && 0 <= col < 8
  {
    b[row][col] == ' ' && !KingInCheck(KingShift(b, row, col), b, p)
  }

  /** King side when the destination column is 6, queen side otherwise. */
  function CastleRookCol(tc: int): (col: int) { if tc == 6 then 7 else 0 }

  function CastleFirstCol(tc: int): (col: int) { if tc == 6 then 5 else 3 }

  function CastleLastCol(tc: int): (col: int) { if tc == 6 then 6 else 2 }

  /**
   * The castling test. The king cell is (home row, 4), but the source column
   * is not compared with 4; the queen side looks at columns 3 and 2 only.
   */
  predicate Castling(pos: Position, fr: int, fc: int, tr: int, tc: int)
    requires InBoard(fr, fc) && InBoard(tr, tc)
  {
    var b := pos.board;
    var p := pos.current;
    var row := HomeRow(p);
    var rookCol := CastleRookCol(tc);
    fr == tr && Abs(tc - fc) == 2
    && !KingInCheck(b, b, p)
    && fr == row && b[row][4] == KingChar(p)
    && b[row][rookCol] == RookChar(p)
    && !HasMoved(pos.history, KingChar(p), RookChar(p), row, rookCol)
    && CastleSquareSafe(b, p, row, CastleFirstCol(tc))
    && CastleSquareSafe(b, p, row, CastleLastCol(tc))
  }

  /** Everything a castling move needs, spelled out cell by cell. */
  lemma CastlingConditions(pos: Position, fr: int, fc: int, tr: int, tc: int)
    requires InBoard(fr, fc) && InBoard(tr, tc) && Castling(pos, fr, fc, tr, tc)
    ensures var b := pos.board;
      var p := pos.current;
      && fr == tr == HomeRow(p) && Abs(tc - fc) == 2
      && !KingInCheck(b, b, p)
      && b[fr][4] == KingChar(p)
      && (tc == 6 ==> b[fr][7] == RookChar(p) && b[fr][5] == ' ' && b[fr][6] == ' ')
      && (tc != 6 ==> b[fr][0] == RookChar(p) && b[fr][3] == ' ' && b[fr][2] == ' ')
      && (forall i :: 0 <= i < |pos.history| ==>
            !StartedFrom(pos.history[i], KingChar(p), fr, 4)
            && !StartedFrom(pos.history[i], RookChar(p), fr, CastleRookCol(tc)))
      && !KingInCheck(KingShift(b, fr, CastleFirstCol(tc)), b, p)
      && !KingInCheck(KingShift(b, fr, CastleLastCol(tc)), b, p)
  {
  }

  // ---------------------------------------------------------------------
  // The legality filter

  /** King: one square in any direction, or else a castling move. */
  predicate KingMove(pos: Position, fr: int, fc: int, tr: int, tc: int)
    requires InBoard(fr, fc) && InBoard(tr, tc)
    ensures Dist(fr, fc, tr, tc) <= 1 ==> KingMove(pos, fr, fc, tr, tc)
    ensures KingMove(pos, fr, fc, tr, tc) ==>
      Dist(fr, fc, tr, tc) <= 1 || (fr == tr && Abs(tc - fc) == 2)
  {
    Adjacent(fr, fc, tr, tc) || Castling(pos, fr, fc, tr, tc)
  }

  /**
   * The piece dispatch on the lower-cased source cell. `k` goes to the king
   * test; there is no branch for `+` or `*`.
   */
  predicate PieceMove(pos: Position, fr: int, fc: int, tr: int, tc: int)
    requires InBoard(fr, fc) && InBoard(tr, tc)
  {
    var b := pos.board;
    var kind := ToLower(b[fr][fc]);
    if kind == 'p' then PawnMove(pos, fr, fc, tr, tc)
    else if kind == 'r' then RookMove(b, fr, fc, tr, tc)
    else if kind == 'n' then KnightMove(fr, fc, tr, tc)
    else if kind == 'b' then BishopMove(b, fr, fc, tr, tc)
    else if kind == 'q' then QueenMove(b, fr, fc, tr, tc)
    else if kind == 'k' then KingMove(pos, fr, fc, tr, tc)
    else false
  }

  /** The scratch grid of the legality filter: a plain copy from source to destination. */
  function Scratch(b: Board, fr: int, fc: int, tr: int, tc: int): (s: Board)
    requires InBoard(fr, fc) && InBoard(tr, tc)
  {
    Set(Set(b, tr, tc, b[fr][fc]), fr, fc, ' ')
  }

  /** The case test of the legality filter: a non-letter passes as white. */
  predicate MoverCaseMatches(pos: Position, piece: char)
  {
    var isWhitePiece := piece == ToUpper(piece);
    !((isWhitePiece && pos.current != White) || (!isWhitePiece && pos.current != Black))
  }

  /** The legality filter. */
  predicate ValidMove(pos: Position, fr: int, fc: int, tr: int, tc: int)
    requires InBoard(fr, fc) && InBoard(tr, tc)
  {
    var b := pos.board;
    var target := b[tr][tc];
    if !MoverCaseMatches(pos, b[fr][fc]) then false
    else if target != ' ' && IsPlayerPiece(pos, tr, tc) then false
    else if !PieceMove(pos, fr, fc, tr, tc) then false
    else !KingInCheck(Scratch(b, fr, fc, tr, tc), b, pos.current)
  }

  /** Each of the four ways the filter rejects a move, and nothing else. */
  lemma ValidMoveIff(pos: Position, fr: int, fc: int, tr: int, tc: int)
    requires InBoard(fr, fc) && InBoard(tr, tc)
    ensures ValidMove(pos, fr, fc, tr, tc) <==>
      && (if ToUpper(pos.board[fr][fc]) == pos.board[fr][fc] then pos.current == White else pos.current == Black)
      && (pos.board[tr][tc] == ' ' || !OfColour(pos.board[tr][tc], pos.current))
      && PieceMove(pos, fr, fc, tr, tc)
      && !KingInCheck(Scratch(pos.board, fr, fc, tr, tc), pos.board, pos.current)
  {
  }

  /** A valid move starts from a letter of the mover's case and goes somewhere else. */
  lemma {:induction false} ValidMoveMovesOwnLetter(pos: Position, fr: int, fc: int, tr: int, tc: int)
    requires InBoard(fr, fc) && InBoard(tr, tc) && ValidMove(pos, fr, fc, tr, tc)
    ensures ToLower(pos.board[fr][fc]) in "prnbqk"
    ensures OfColour(pos.board[fr][fc], pos.current) && !OfColour(pos.board[fr][fc], Other(pos.current))
    ensures (fr, fc) != (tr, tc)
    ensures pos.board[tr][tc] == ' ' || !OfColour(pos.board[tr][tc], pos.current)
  {
    var piece := pos.board[fr][fc];
    assert ToLower(piece) in "prnbqk";
    OfColourCases(piece);
  }

  /** A cell whose lower-cased character has no branch (' ', '+', '*', ...) never moves. */
  lemma InertNeverMoves(pos: Position, fr: int, fc: int, tr: int, tc: int)
    requires InBoard(fr, fc) && InBoard(tr, tc)
    requires ToLower(pos.board[fr][fc]) !in "prnbqk"
    ensures !ValidMove(pos, fr, fc, tr, tc)
  {
  }

  // ---------------------------------------------------------------------
  // Checkmate, stalemate and the classification after a move

  /**
   * The cells the checkmate scan tries: of the mover's case (the live colour
   * test) and also of `player`'s case.
   */
  predicate Candidate(pos: Position, player: Player, fr: int, fc: int)
    requires InBoard(fr, fc)
  {
    IsPlayerPiece(pos, fr, fc) && OfColour(pos.board[fr][fc], player)
  }

  predicate NoMoveFrom(pos: Position, fr: int, fc: int)
    requires InBoard(fr, fc)
  {
    forall tr, tc :: 0 <= tr < 8 && 0 <= tc < 8 ==> !ValidMove(pos, fr, fc, tr, tc)
  }

  /** What the checkmate scan answers: no candidate cell has a valid move. */
  predicate NoValidMove(pos: Position, player: Player)
  {
    forall fr, fc :: 0 <= fr < 8 && 0 <= fc < 8 && Candidate(pos, player, fr, fc) ==> NoMoveFrom(pos, fr, fc)
  }

  /** What the stalemate test answers. */
  predicate Stalemated(pos: Position, player: Player)
  {
    !KingInCheck(pos.board, pos.board, player) && NoValidMove(pos, player)
  }

  datatype Status = Checkmate | Check | Stalemate | ToMove

  /**
   * The classification made after the turn has passed: it examines the side
   * that has just moved (the one that is not to move), in the order
   * check-and-no-move, check, no-check-and-no-move, otherwise.
   */
  function Classify(pos: Position): (st: Status)
  {
    var opponent := Other(pos.current);
    if KingInCheck(pos.board, pos.board, opponent) then
      if NoValidMove(pos, opponent) then Checkmate else Check
    else if Stalemated(pos, opponent) then Stalemate
    else ToMove
  }

  /**
   * When `player` is not the side to move the checkmate scan tries only
   * cells that are of both cases (non-letters), none of which can move, so
   * it always answers that there is no valid move.
   */
  lemma {:induction false} NoValidMoveOffTurn(pos: Position, player: Player)
    requires player != pos.current
    ensures NoValidMove(pos, player)
  {
    forall fr, fc | InBoard(fr, fc) && Candidate(pos, player, fr, fc)
      ensures NoMoveFrom(pos, fr, fc)
    {
      var piece := pos.board[fr][fc];
      assert OfColour(piece, White) && OfColour(piece, Black);
      OfColourCases(piece);
      assert ToLower(piece) !in "prnbqk";
      forall tr, tc | InBoard(tr, tc) ensures !ValidMove(pos, fr, fc, tr, tc) {
        InertNeverMoves(pos, fr, fc, tr, tc);
      }
    }
  }

  /**
   * The classification never lets the game go on: it is checkmate when the
   * side that has just moved is attacked, and stalemate otherwise.
   */
  lemma {:induction false} ClassifyAlwaysEnds(pos: Position)
    ensures Classify(pos) == (if KingInCheck(pos.board, pos.board, Other(pos.current)) then Checkmate else Stalemate)
    ensures Classify(pos) != Check && Classify(pos) != ToMove
  {
    NoValidMoveOffTurn(pos, Other(pos.current));
  }

  /**
   * A reference classification that runs the same tests for the side that
   * is to move, the side the legality filter and the checkmate scan's
   * own-piece test are written for. The page does not use it; it serves to
   * contrast what the page's Classify answers.
   */
  function ClassifyToMove(pos: Position): (st: Status)
  {
    var player := pos.current;
    if KingInCheck(pos.board, pos.board, player) then
      if NoValidMove(pos, player) then Checkmate else Check
    else if Stalemated(pos, player) then Stalemate
    else ToMove
  }

  /** No move on the board passes the legality filter. */
  predicate Stuck(pos: Position)
  {
    forall fr, fc, tr, tc :: 0 <= fr < 8 && 0 <= fc < 8 && 0 <= tr < 8 && 0 <= tc < 8 ==> !ValidMove(pos, fr, fc, tr, tc)
  }

  /** A move from a cell that the checkmate scan skips is never valid. */
  lemma ValidMoveIsCandidate(pos: Position, fr: int, fc: int, tr: int, tc: int)
    requires InBoard(fr, fc) && InBoard(tr, tc) && ValidMove(pos, fr, fc, tr, tc)
    ensures Candidate(pos, pos.current, fr, fc)
  {
    ValidMoveMovesOwnLetter(pos, fr, fc, tr, tc);
  }

  /**
   * For the side to move, the checkmate scan answers exactly whether no move
   * on the board passes the legality filter.
   */
  lemma {:induction false} NoValidMoveToMove(pos: Position)
    ensures NoValidMove(pos, pos.current) <==>
      Stuck(pos)
  {
    if NoValidMove(pos, pos.current) {
      forall fr, fc, tr, tc | InBoard(fr, fc) && InBoard(tr, tc)
        ensures !ValidMove(pos, fr, fc, tr, tc)
      {
        if ValidMove(pos, fr, fc, tr, tc) {
          ValidMoveIsCandidate(pos, fr, fc, tr, tc);
        }
      }
    }
  }

  /**
   * The reference classification ends the game exactly when the side to move
   * has no valid move: checkmate when it is in check, stalemate otherwise.
   */
  lemma {:induction false} ClassifyToMoveEnds(pos: Position)
    ensures (ClassifyToMove(pos) == Checkmate || ClassifyToMove(pos) == Stalemate) <==>
      Stuck(pos)
    ensures ClassifyToMove(pos) == Checkmate ==> KingInCheck(pos.board, pos.board, pos.current)
    ensures ClassifyToMove(pos) == Stalemate ==> !KingInCheck(pos.board, pos.board, pos.current)
  {
    NoValidMoveToMove(pos);
  }
}
