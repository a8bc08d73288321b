/** Pieces, squares and the 8x8 board value of the chess engine.
    A board cell holds either nothing ("--" in the engine) or a coloured piece
    ("wP", "bK", ...). Row 0 is black's back rank and row 7 white's. */
module Pieces {

  datatype Option<T> = None | Some(value: T)

  datatype Color = White | Black

  datatype Kind = Pawn | Knight | Bishop | Rook | Queen | King

  datatype Piece = Empty | Pc(color: Color, kind: Kind)

  datatype Square = Square(row: int, col: int)

  /** The colour whose turn it is, given the engine's `white_to_move` flag. */
  function Mover(whiteToMove: bool): Color {
    if whiteToMove then White else Black
  }

  function Opponent(c: Color): (o: Color)
    ensures o != c
  {
    if c == White then Black else White
  }

  predicate HasColor(p: Piece, c: Color) {
    p.Pc? && p.color == c
  }

  predicate IsPawn(p: Piece) {
    p.Pc? && p.kind == Pawn
  }

  predicate OnBoard(r: int, c: int) {
    0 <= r < 8 && 0 <= c < 8
  }

  predicate InBounds(s: Square) {
    OnBoard(s.row, s.col)
  }

  /** An 8x8 grid of cells, indexed board[row][col]. */
  type Board = b: seq<seq<Piece>> | |b| == 8 && forall i :: 0 <= i < |b| ==> |b[i]| == 8
    witness EmptyBoard()

  function EmptyBoard(): seq<seq<Piece>> {
    seq(8, i => seq(8, j => Empty))
  }

  /** The board with cell (r, c) overwritten by p: one `board[r][c] = p`. */
  function Set(b: Board, r: int, c: int, p: Piece): (b': Board)
    requires OnBoard(r, c)
    ensures forall i, j :: OnBoard(i, j) ==> b'[i][j] == if i == r && j == c then p else b[i][j]
  {
    b[r := b[r][c := p]]
  }

  /** Two boards that agree on every cell are the same board. */
  lemma BoardExt(a: Board, b: Board)
    requires forall i, j :: OnBoard(i, j) ==> a[i][j] == b[i][j]
    ensures a == b
  {
    forall i | 0 <= i < 8
      ensures a[i] == b[i]
    {
      assert forall j :: 0 <= j < 8 ==> a[i][j] == b[i][j];
    }
  }

  /** No pawn stands on row 0 or row 7: every pawn reaching either end row is
      promoted on the spot, so the pawn generator can always look one row ahead. */
  ghost predicate PawnsInside(b: Board) {
    forall i, j :: OnBoard(i, j) && IsPawn(b[i][j]) ==> 1 <= i <= 6
  }

  /** Overwriting one cell keeps the pawns off the back ranks as long as the new
      piece is not a pawn on a back rank. */
  lemma SetKeepsPawnsInside(b: Board, r: int, c: int, p: Piece)
    requires OnBoard(r, c) && PawnsInside(b)
    requires IsPawn(p) ==> 1 <= r <= 6
    ensures PawnsInside(Set(b, r, c, p))
  {
  }

  /** The standard starting position (engine lines 3-12). */
  function InitialBoard(): (b: Board)
    ensures PawnsInside(b)
    ensures b[7][4] == Pc(White, King) && b[0][4] == Pc(Black, King)
  {
    var back := [Rook, Knight, Bishop, Queen, King, Bishop, Knight, Rook];
    [ seq(8, j requires 0 <= j < 8 => Pc(Black, back[j])),
      seq(8, j => Pc(Black, Pawn)),
      seq(8, j => Empty), seq(8, j => Empty), seq(8, j => Empty), seq(8, j => Empty),
      seq(8, j => Pc(White, Pawn)),
      seq(8, j requires 0 <= j < 8 => Pc(White, back[j])) ]
  }
}
