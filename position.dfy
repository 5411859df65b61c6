/**
 * The game position of the chess page: an 8x8 grid of one-character cells,
 * the side to move and the list of moves played so far.
 *
 * Cells hold the characters the page uses: ' ' for an empty square and a
 * letter (upper case for white, lower case for black) or a sigil for a piece.
 * The page's own starting grid places `k`/`K` on the knight squares and
 * `+`/`*` on the king squares; the rules dispatch on the lower-cased letter,
 * so `k`/`K` behave as kings and `+`/`*` have no moves at all.
 */
module Position {

  datatype Option<T> = None | Some(value: T)

  datatype Player = White | Black

  /** The side that does not move now. */
  function Other(p: Player): (q: Player)
    ensures q != p
  {
    if p == White then Black else White
  }

  /** Upper-casing restricted to ASCII letters; every other char is kept. */
  function ToUpper(c: char): (u: char)
  {
    if 'a' <= c <= 'z' then (c as int - 32) as char else c
  }

  /** Lower-casing restricted to ASCII letters; every other char is kept. */
  function ToLower(c: char): (l: char)
  {
    if 'A' <= c <= 'Z' then (c as int + 32) as char else c
  }

  /**
   * The page's colour test: a cell belongs to white when upper-casing leaves
   * it unchanged and to black when lower-casing does. A non-letter (the empty
   * square ' ', '+', '*') therefore belongs to both sides.
   */
  predicate OfColour(c: char, p: Player)
  {
    if p == White then c == ToUpper(c) else c == ToLower(c)
  }

  lemma OfColourCases(c: char)
    ensures OfColour(c, White) <==> !('a' <= c <= 'z')
    ensures OfColour(c, Black) <==> !('A' <= c <= 'Z')
    ensures OfColour(c, White) || OfColour(c, Black)
  {
  }

  /** The characters that the rules look for as a side's king and rook. */
  function KingChar(p: Player): (k: char) { if p == White then 'K' else 'k' }

  function RookChar(p: Player): (k: char) { if p == White then 'R' else 'r' }

  /** The back rank a side castles on and promotes towards the opposite of. */
  function HomeRow(p: Player): (row: int) { if p == White then 7 else 0 }

  predicate InBoard(r: int, c: int)
  {
    0 <= r < 8 && 0 <= c < 8
  }

  function Abs(d: int): (a: nat)
  {
    if d < 0 then -d else d
  }

  /** A grid of eight rows of eight cells. */
  type Board = g: seq<seq<char>> | |g| == 8 && forall r :: 0 <= r < 8 ==> |g[r]| == 8
    witness seq(8, _ => "        ")

  /** The grid `b` with the cell at (r, c) replaced by `v`. */
  function Set(b: Board, r: int, c: int, v: char): (b': Board)
    requires InBoard(r, c)
  {
    b[r := b[r][c := v]]
  }

  /** One entry of the move history: the moving character and its squares. */
  datatype Move = Move(piece: char, fromRow: int, fromCol: int, toRow: int, toCol: int)

  /** Everything the rules read: the live grid, the side to move, the history. */
  datatype Position = Position(board: Board, current: Player, history: seq<Move>)

  /** The page's starting grid, with its own piece letters. */
  const InitialBoard: Board := [
    "rkbq+bkr",
    "pppppppp",
    "        ",
    "        ",
    "        ",
    "        ",
    "PPPPPPPP",
    "RKBQ*BKR"
  ]
}
