/** The move record of the engine (class `Move`): one ply, with the piece it
    moves, the piece it takes and three flags, all derived from the board
    at the moment the record is built. */
module Moves {
  import opened Pieces

  datatype Move = Move(startRow: int, startCol: int, endRow: int, endCol: int,
                       pieceMoved: Piece, pieceCaptured: Piece,
                       isPawnPromotion: bool, isEnpassant: bool, isCastleMove: bool)
  {
    function Start(): Square { Square(startRow, startCol) }
    function End(): Square { Square(endRow, endCol) }
  }

  /** The pawn an en-passant capture by `moved` takes: a black pawn when a white
      pawn captures, a white pawn otherwise. */
  function PassedPawn(moved: Piece): (p: Piece)
    ensures IsPawn(p)
    ensures moved == Pc(White, Pawn) ==> p == Pc(Black, Pawn)
    ensures moved == Pc(Black, Pawn) ==> p == Pc(White, Pawn)
  {
    if moved == Pc(White, Pawn) then Pc(Black, Pawn) else Pc(White, Pawn)
  }

  /** `Move(start_sq, end_sq, board, is_enpassant, is_castle_move)`. */
  function NewMove(start: Square, end: Square, b: Board, isEnpassant: bool, isCastleMove: bool): Move
    requires InBounds(start) && InBounds(end)
  {
    var moved := b[start.row][start.col];
    Move(start.row, start.col, end.row, end.col,
         moved,
         if isEnpassant then PassedPawn(moved) else b[end.row][end.col],
         IsPawn(moved) && (end.row == 0 || end.row == 7),
         isEnpassant, isCastleMove)
  }

  /** `Move.__eq__`: two moves are equal when their start and end squares are. */
  predicate SameMove(a: Move, b: Move) {
    a.startRow == b.startRow && a.startCol == b.startCol &&
    a.endRow == b.endRow && a.endCol == b.endCol
  }

  /** What `make_move` and `undo_move` rely on of a move record so that every
      cell they touch is on the board and no pawn is left on a back rank:
      the squares are on the board, the promotion flag is the derived one, a
      moved or taken pawn comes from (or stands on) rows 1-6, an en-passant
      capture is made by a pawn and takes a pawn, and a castle moves two
      columns along its row with the rook's square on the board. */
  predicate WellFormed(m: Move) {
    && OnBoard(m.startRow, m.startCol) && OnBoard(m.endRow, m.endCol)
    && m.isPawnPromotion == (IsPawn(m.pieceMoved) && (m.endRow == 0 || m.endRow == 7))
    && (IsPawn(m.pieceMoved) ==> 1 <= m.startRow <= 6)
    && (IsPawn(m.pieceCaptured) && !m.isEnpassant ==> 1 <= m.endRow <= 6)
    && (m.isEnpassant ==> IsPawn(m.pieceMoved) && IsPawn(m.pieceCaptured))
    && (m.isCastleMove ==>
          m.startRow == m.endRow &&
          ((m.endCol - m.startCol == 2 && m.endCol + 1 < 8) ||
           (m.startCol - m.endCol == 2 && m.endCol - 2 >= 0)))
  }

  /** What the record built by the constructor says about the board it was
      built from: the moved piece stands on the start square, the captured
      piece on the end square except for an en-passant capture, where it is the
      pawn of the other colour, and the promotion flag is set exactly when a
      pawn lands on row 0 or row 7. */
  lemma NewMoveFields(start: Square, end: Square, b: Board, isEnpassant: bool, isCastleMove: bool)
    requires InBounds(start) && InBounds(end)
    ensures var m := NewMove(start, end, b, isEnpassant, isCastleMove);
      && m.Start() == start && m.End() == end
      && m.pieceMoved == b[start.row][start.col]
      && (!isEnpassant ==> m.pieceCaptured == b[end.row][end.col])
      && (isEnpassant && b[start.row][start.col] == Pc(White, Pawn) ==> m.pieceCaptured == Pc(Black, Pawn))
      && (isEnpassant && b[start.row][start.col] == Pc(Black, Pawn) ==> m.pieceCaptured == Pc(White, Pawn))
      && (m.isPawnPromotion <==> IsPawn(b[start.row][start.col]) && (end.row == 0 || end.row == 7))
      && m.isEnpassant == isEnpassant && m.isCastleMove == isCastleMove
  {
  }

  /** On a board without back-rank pawns, a record built by the constructor is
      well formed, provided an en-passant capture is requested only for a pawn
      and a castle only for a two-column step along the row whose rook square
      is on the board. */
  lemma NewMoveWellFormed(start: Square, end: Square, b: Board, isEnpassant: bool, isCastleMove: bool)
    requires InBounds(start) && InBounds(end) && PawnsInside(b)
    requires isEnpassant ==> IsPawn(b[start.row][start.col])
    requires isCastleMove ==>
      start.row == end.row &&
      ((end.col == start.col + 2 && end.col + 1 < 8) || (end.col == start.col - 2 && end.col - 2 >= 0))
    ensures WellFormed(NewMove(start, end, b, isEnpassant, isCastleMove))
  {
  }

  /** Equality of moves is an equivalence relation that ignores the pieces and
      the flags: a move built from two clicked squares matches the generated
      move with the same squares, whatever that move's flags are. */
  lemma SameMoveIgnoresFlags(start: Square, end: Square, b: Board, ep1: bool, c1: bool, ep2: bool, c2: bool)
    requires InBounds(start) && InBounds(end)
    ensures SameMove(NewMove(start, end, b, ep1, c1), NewMove(start, end, b, ep2, c2))
  {
  }

  lemma SameMoveEquivalence(a: Move, b: Move, c: Move)
    ensures SameMove(a, a)
    ensures SameMove(a, b) ==> SameMove(b, a)
    ensures SameMove(a, b) && SameMove(b, c) ==> SameMove(a, c)
    ensures SameMove(a, b) <==> a.Start() == b.Start() && a.End() == b.End()
  {
  }

  // ---------------------------------------------------------------------
  // Algebraic notation (class attributes ranks_to_rows, files_to_cols and
  // their inverses, get_rank_file, get_chess_notation)
  // ---------------------------------------------------------------------

  const RanksToRows: map<char, int> :=
    map['1' := 7, '2' := 6, '3' := 5, '4' := 4, '5' := 3, '6' := 2, '7' := 1, '8' := 0]

  const FilesToCols: map<char, int> :=
    map['a' := 0, 'b' := 1, 'c' := 2, 'd' := 3, 'e' := 4, 'f' := 5, 'g' := 6, 'h' := 7]

  /** `rows_to_ranks[r]`, the inverse of `ranks_to_rows`. */
  function RowToRank(r: int): (k: char)
    requires 0 <= r < 8
    ensures k in RanksToRows && RanksToRows[k] == r
  {
    "87654321"[r]
  }

  /** `cols_to_files[c]`, the inverse of `files_to_cols`. */
  function ColToFile(c: int): (k: char)
    requires 0 <= c < 8
    ensures k in FilesToCols && FilesToCols[k] == c
  {
    "abcdefgh"[c]
  }

  /** The inverses are inverse the other way round as well: every rank and
      file character maps back to itself. */
  lemma NotationMapsInverse(k: char)
    ensures k in RanksToRows ==> 0 <= RanksToRows[k] < 8 && RowToRank(RanksToRows[k]) == k
    ensures k in FilesToCols ==> 0 <= FilesToCols[k] < 8 && ColToFile(FilesToCols[k]) == k
  {
  }

  /** `get_rank_file(r, c)`: file letter then rank digit. */
  function RankFile(r: int, c: int): string
    requires OnBoard(r, c)
  {
    [ColToFile(c), RowToRank(r)]
  }

  /** `get_chess_notation()`: start square then end square, e.g. "e2e4". */
  function ChessNotation(m: Move): string
    requires OnBoard(m.startRow, m.startCol) && OnBoard(m.endRow, m.endCol)
  {
    RankFile(m.startRow, m.startCol) + RankFile(m.endRow, m.endCol)
  }

  /** Reading a square back through `files_to_cols` and `ranks_to_rows`. */
  function ParseSquare(s: string): Option<Square> {
    if |s| == 2 && s[0] in FilesToCols && s[1] in RanksToRows
    then Some(Square(RanksToRows[s[1]], FilesToCols[s[0]]))
    else None
  }

  /** The notation of a move determines its squares: reading back the two
      halves of `get_chess_notation` gives the start and the end square, so
      two moves with the same notation are equal in the sense of `__eq__`. */
  lemma NotationRoundTrip(m: Move)
    requires OnBoard(m.startRow, m.startCol) && OnBoard(m.endRow, m.endCol)
    ensures |ChessNotation(m)| == 4
    ensures ParseSquare(ChessNotation(m)[..2]) == Some(m.Start())
    ensures ParseSquare(ChessNotation(m)[2..]) == Some(m.End())
  {
    assert ChessNotation(m)[..2] == RankFile(m.startRow, m.startCol);
    assert ChessNotation(m)[2..] == RankFile(m.endRow, m.endCol);
  }

  lemma SameNotationSameMove(a: Move, b: Move)
    requires OnBoard(a.startRow, a.startCol) && OnBoard(a.endRow, a.endCol)
    requires OnBoard(b.startRow, b.startCol) && OnBoard(b.endRow, b.endCol)
    ensures ChessNotation(a) == ChessNotation(b) <==> SameMove(a, b)
  {
    NotationRoundTrip(a);
    NotationRoundTrip(b);
  }
}
