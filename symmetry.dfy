/**
 * Colour symmetry of check detection: turning the grid upside down and
 * swapping the case of every letter exchanges the roles of white and black.
 * Pawn direction follows the case of the pawn, so it flips with the rows.
 * The king locator keeps the last row holding the king character, and that
 * row becomes the first under the flip; the symmetry therefore needs the
 * king character to sit in a single row.
 */
module Symmetry {
  import opened Position
  import opened Rules

  /** Swap the case of an ASCII letter; keep every other char. */
  function SwapCase(c: char): (s: char)
  {
    if 'a' <= c <= 'z' then ToUpper(c) else if 'A' <= c <= 'Z' then ToLower(c) else c
  }

  /** The grid seen from the other side: rows reversed, cases swapped. */
  function Mirror(b: Board): (m: Board)
    ensures forall r, c :: InBoard(r, c) ==> m[r][c] == SwapCase(b[7 - r][c])
  {
    seq(8, r requires 0 <= r < 8 => seq(8, c requires 0 <= c < 8 => SwapCase(b[7 - r][c])))
  }

  lemma SwapCaseFacts(c: char, d: char, p: Player)
    ensures SwapCase(c) == ' ' <==> c == ' '
    ensures OfColour(SwapCase(c), Other(p)) == OfColour(c, p)
    ensures ToLower(SwapCase(c)) == ToLower(c)
    ensures SwapCase(c) == ToUpper(SwapCase(c)) <==> !(c == ToUpper(c)) || !('a' <= c <= 'z' || 'A' <= c <= 'Z')
    ensures SwapCase(c) == SwapCase(d) ==> c == d
    ensures SwapCase(KingChar(p)) == KingChar(Other(p))
  {
  }

  /** The king character occupies at most one row. */
  ghost predicate KingInOneRow(b: Board, k: char)
  {
    forall r1, c1, r2, c2 ::
      InBoard(r1, c1) && InBoard(r2, c2) && b[r1][c1] == k && b[r2][c2] == k ==> r1 == r2
  }

  /** The i-th path cell on the mirrored grid is the swapped i-th path cell. */
  lemma PathSquareMirror(l: Board, fr: int, fc: int, tr: int, tc: int, i: int)
    requires InBoard(fr, fc) && InBoard(tr, tc) && Aligned(fr, fc, tr, tc)
    requires 0 < i < Dist(fr, fc, tr, tc)
    ensures Aligned(7 - fr, fc, 7 - tr, tc) && Dist(7 - fr, fc, 7 - tr, tc) == Dist(fr, fc, tr, tc)
    ensures PathSquare(Mirror(l), 7 - fr, fc, 7 - tr, tc, i) == ' ' <==> PathSquare(l, fr, fc, tr, tc, i) == ' '
  {
    assert Toward(7 - fr, 7 - tr, i) == 7 - Toward(fr, tr, i);
    SwapCaseFacts(PathSquare(l, fr, fc, tr, tc, i), ' ', White);
  }

  lemma {:induction false} PathClearMirror(l: Board, fr: int, fc: int, tr: int, tc: int)
    requires InBoard(fr, fc) && InBoard(tr, tc) && Aligned(fr, fc, tr, tc)
    ensures Aligned(7 - fr, fc, 7 - tr, tc)
    ensures PathClear(Mirror(l), 7 - fr, fc, 7 - tr, tc) == PathClear(l, fr, fc, tr, tc)
  {
    var m := Mirror(l);
    var mfr, mtr := 7 - fr, 7 - tr;
    var d := Dist(fr, fc, tr, tc);
    assert Dist(mfr, fc, mtr, tc) == d;
    if PathClear(l, fr, fc, tr, tc) {
      forall i | 0 < i < d ensures PathSquare(m, mfr, fc, mtr, tc, i) == ' ' {
        PathSquareMirror(l, fr, fc, tr, tc, i);
      }
    }
    if PathClear(m, mfr, fc, mtr, tc) {
      forall i | 0 < i < d ensures PathSquare(l, fr, fc, tr, tc, i) == ' ' {
        PathSquareMirror(l, fr, fc, tr, tc, i);
      }
    }
  }

  lemma LineMovesMirror(l: Board, fr: int, fc: int, tr: int, tc: int)
    requires InBoard(fr, fc) && InBoard(tr, tc)
    ensures RookMove(Mirror(l), 7 - fr, fc, 7 - tr, tc) == RookMove(l, fr, fc, tr, tc)
    ensures BishopMove(Mirror(l), 7 - fr, fc, 7 - tr, tc) == BishopMove(l, fr, fc, tr, tc)
    ensures QueenMove(Mirror(l), 7 - fr, fc, 7 - tr, tc) == QueenMove(l, fr, fc, tr, tc)
  {
    if Aligned(fr, fc, tr, tc) {
      PathClearMirror(l, fr, fc, tr, tc);
    }
  }

  lemma {:induction false} CanPieceAttackMirror(s: Board, l: Board, fr: int, fc: int, tr: int, tc: int)
    requires InBoard(fr, fc) && InBoard(tr, tc)
    ensures CanPieceAttack(Mirror(s), Mirror(l), 7 - fr, fc, 7 - tr, tc) == CanPieceAttack(s, l, fr, fc, tr, tc)
  {
    var piece := s[fr][fc];
    SwapCaseFacts(piece, piece, White);
    assert Mirror(s)[7 - fr][fc] == SwapCase(piece);
    LineMovesMirror(l, fr, fc, tr, tc);
  }

  lemma {:induction false} AttackerMirror(s: Board, l: Board, p: Player, r: int, c: int, kr: int, kc: int)
    requires InBoard(r, c) && InBoard(kr, kc)
    ensures Attacker(Mirror(s), Mirror(l), Other(p), 7 - r, c, 7 - kr, kc) == Attacker(s, l, p, r, c, kr, kc)
  {
    SwapCaseFacts(s[r][c], s[r][c], p);
    assert Mirror(s)[7 - r][c] == SwapCase(s[r][c]);
    CanPieceAttackMirror(s, l, r, c, kr, kc);
  }

  /** A cell of the mirrored grid holds the swapped `k` exactly when its mirror cell holds `k`. */
  lemma MirrorCells(b: Board, k: char)
    ensures forall r, c :: InBoard(r, c) ==> (Mirror(b)[r][c] == SwapCase(k) <==> b[7 - r][c] == k)
  {
    forall r, c | InBoard(r, c) ensures Mirror(b)[r][c] == SwapCase(k) <==> b[7 - r][c] == k {
      SwapCaseFacts(b[7 - r][c], k, White);
    }
  }

  lemma {:induction false} LocateKingMirror(b: Board, k: char)
    requires KingInOneRow(b, k)
    ensures LocateKing(b, k).None? ==> LocateKing(Mirror(b), SwapCase(k)).None?
    ensures LocateKing(b, k).Some? ==>
      LocateKing(Mirror(b), SwapCase(k)) == Some((7 - LocateKing(b, k).value.0, LocateKing(b, k).value.1))
  {
    var m := Mirror(b);
    var k' := SwapCase(k);
    LocateKingSpec(b, k);
    MirrorCells(b, k);
    match LocateKing(b, k)
    case None =>
      LocateKingSpec(m, k');
      forall r, c | InBoard(r, c) ensures m[r][c] != k' {
        assert b[7 - r][c] != k;
      }
    case Some((kr, kc)) =>
      var mr := 7 - kr;
      forall r, c | InBoard(r, c) && r > mr ensures m[r][c] != k' {
        var br := 7 - r;
        assert m[r][c] == SwapCase(b[br][c]) && b[kr][kc] == k && br < kr;
      }
      forall c | 0 <= c < kc ensures m[mr][c] != k' {
        assert b[kr][c] != k;
      }
      LocateKingAt(m, k', mr, kc);
  }

  /**
   * Check detection does not favour a colour: `p`'s king is attacked on a
   * grid exactly when the other side's king is attacked on the mirrored
   * grid, provided `p`'s king character occupies a single row.
   */
  lemma {:induction false} KingInCheckMirror(state: Board, live: Board, p: Player)
    requires KingInOneRow(state, KingChar(p))
    ensures KingInCheck(Mirror(state), Mirror(live), Other(p)) == KingInCheck(state, live, p)
  {
    var k := KingChar(p);
    SwapCaseFacts(k, k, p);
    LocateKingMirror(state, k);
    match LocateKing(state, k)
    case None =>
    case Some((kr, kc)) =>
      var ms, ml := Mirror(state), Mirror(live);
      if KingInCheck(state, live, p) {
        var r, c :| 0 <= r < 8 && 0 <= c < 8 && Attacker(state, live, p, r, c, kr, kc);
        AttackerMirror(state, live, p, r, c, kr, kc);
        assert Attacker(ms, ml, Other(p), 7 - r, c, 7 - kr, kc);
      }
      if KingInCheck(ms, ml, Other(p)) {
        var r, c :| 0 <= r < 8 && 0 <= c < 8 && Attacker(ms, ml, Other(p), r, c, 7 - kr, kc);
        AttackerMirror(state, live, p, 7 - r, c, kr, kc);
        assert Attacker(state, live, p, 7 - r, c, kr, kc);
      }
  }
}
