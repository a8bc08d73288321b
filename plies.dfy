/** The value a `GameState` holds, and what `make_move` and `undo_move` do to
    it, as functions. The class in engine.dfy is proved to follow these. */
module Plies {
  import opened Pieces
  import opened Moves
  import opened Castling

  datatype Position = Position(
    board: Board,
    whiteToMove: bool,
    moveLog: seq<Move>,
    whiteKingPos: Square,
    blackKingPos: Square,
    checkmate: bool,
    stalemate: bool,
    enpassantPossible: Option<Square>,
    currentCastlingRights: CastleRights,
    castleRightsLog: seq<CastleRights>)

  /** `GameState.__init__`. */
  function InitialPosition(): Position {
    Position(InitialBoard(), true, [], Square(7, 4), Square(0, 4), false, false, None,
             CastleRights(true, true, true, true), [CastleRights(true, true, true, true)])
  }

  /** The invariant every `GameState` keeps: no pawn on a back rank, one
      rights snapshot per applied move plus the initial one, the current
      rights equal to the newest snapshot, both cached king squares on the
      board, and a log of well-formed moves. */
  ghost predicate ValidPosition(p: Position) {
    && PawnsInside(p.board)
    && |p.castleRightsLog| == |p.moveLog| + 1
    && p.currentCastlingRights == p.castleRightsLog[|p.castleRightsLog| - 1]
    && InBounds(p.whiteKingPos) && InBounds(p.blackKingPos)
    && forall i :: 0 <= i < |p.moveLog| ==> WellFormed(p.moveLog[i])
  }

  /** The cached king squares are the only squares holding the kings. */
  ghost predicate KingsCached(p: Position) {
    forall i, j :: OnBoard(i, j) ==>
      (p.board[i][j] == Pc(White, King) <==> Square(i, j) == p.whiteKingPos) &&
      (p.board[i][j] == Pc(Black, King) <==> Square(i, j) == p.blackKingPos)
  }

  lemma InitialPositionValid()
    ensures ValidPosition(InitialPosition())
    ensures KingsCached(InitialPosition())
    ensures InitialPosition().enpassantPossible == None
  {
    var p := InitialPosition();
    forall i, j | OnBoard(i, j)
      ensures (p.board[i][j] == Pc(White, King) <==> Square(i, j) == p.whiteKingPos)
      ensures (p.board[i][j] == Pc(Black, King) <==> Square(i, j) == p.blackKingPos)
    {
      assert p.board[i][j] == InitialBoard()[i][j];
    }
  }

  /** The board after `make_move(m)`: start emptied, moved piece (a queen if
      promoting) on the end square, the passed pawn removed for an en-passant
      capture, and the rook carried over the king for a castle. */
  function BoardAfterMake(b: Board, m: Move): (b': Board)
    requires WellFormed(m)
    ensures PawnsInside(b) ==> PawnsInside(b')
  {
    var b1 := Set(b, m.startRow, m.startCol, Empty);
    var b2 := Set(b1, m.endRow, m.endCol, m.pieceMoved);
    var b3 := if m.isPawnPromotion then Set(b2, m.endRow, m.endCol, Pc(m.pieceMoved.color, Queen)) else b2;
    var b4 := if m.isEnpassant then Set(b3, m.startRow, m.endCol, Empty) else b3;
    if !m.isCastleMove then b4
    else if m.endCol - m.startCol == 2 then
      Set(Set(b4, m.endRow, m.endCol - 1, b4[m.endRow][m.endCol + 1]), m.endRow, m.endCol + 1, Empty)
    else
      Set(Set(b4, m.endRow, m.endCol + 1, b4[m.endRow][m.endCol - 2]), m.endRow, m.endCol - 2, Empty)
  }

  /** The board after `undo_move()` pops `m`: moved piece back on the start
      square, captured piece back on the end square (for an en-passant
      capture: end square emptied and the pawn back beside the start square),
      and the rook moved back to its corner for a castle. */
  function BoardAfterUndo(b: Board, m: Move): (b': Board)
    requires WellFormed(m)
    ensures PawnsInside(b) ==> PawnsInside(b')
  {
    var b1 := Set(b, m.startRow, m.startCol, m.pieceMoved);
    var b2 := Set(b1, m.endRow, m.endCol, m.pieceCaptured);
    var b3 := if m.isEnpassant then Set(Set(b2, m.endRow, m.endCol, Empty), m.startRow, m.endCol, m.pieceCaptured) else b2;
    if !m.isCastleMove then b3
    else if m.endCol - m.startCol == 2 then
      Set(Set(b3, m.endRow, m.endCol + 1, b3[m.endRow][m.endCol - 1]), m.endRow, m.endCol - 1, Empty)
    else
      Set(Set(b3, m.endRow, m.endCol - 2, b3[m.endRow][m.endCol + 1]), m.endRow, m.endCol + 1, Empty)
  }

  /** The en-passant target after `make_move(m)`: the square a pawn passed
      over in a two-row step, and no target after any other move. */
  function EpAfterMake(m: Move): (ep: Option<Square>)
    ensures ep.Some? <==> IsPawn(m.pieceMoved) && (m.startRow - m.endRow == 2 || m.endRow - m.startRow == 2)
    ensures ep.Some? ==> ep.value.col == m.startCol && 2 * ep.value.row == m.startRow + m.endRow
  {
    if IsPawn(m.pieceMoved) && (m.startRow - m.endRow == 2 || m.endRow - m.startRow == 2)
    then Some(Square((m.startRow + m.endRow) / 2, m.startCol))
    else None
  }

  /** `make_move(m)`. */
  function MakeMove(p: Position, m: Move): (q: Position)
    requires WellFormed(m)
    ensures ValidPosition(p) ==> ValidPosition(q)
    ensures |q.moveLog| == |p.moveLog| + 1 && |q.castleRightsLog| == |p.castleRightsLog| + 1
  {
    var rights := UpdatedRights(p.currentCastlingRights, m);
    p.(board := BoardAfterMake(p.board, m),
       moveLog := p.moveLog + [m],
       whiteToMove := !p.whiteToMove,
       whiteKingPos := if m.pieceMoved == Pc(White, King) then m.End() else p.whiteKingPos,
       blackKingPos := if m.pieceMoved == Pc(Black, King) then m.End() else p.blackKingPos,
       enpassantPossible := EpAfterMake(m),
       currentCastlingRights := rights,
       castleRightsLog := p.castleRightsLog + [rights])
  }

  /** `undo_move()`: nothing happens on an empty log. */
  function UndoMove(p: Position): (q: Position)
    requires ValidPosition(p)
    ensures ValidPosition(q)
    ensures p.moveLog == [] ==> q == p
    ensures p.moveLog != [] ==> q.moveLog == p.moveLog[..|p.moveLog| - 1] &&
                                q.castleRightsLog == p.castleRightsLog[..|p.castleRightsLog| - 1]
  {
    if p.moveLog == [] then p
    else
      var m := p.moveLog[|p.moveLog| - 1];
      var log := p.castleRightsLog[..|p.castleRightsLog| - 1];
      p.(board := BoardAfterUndo(p.board, m),
         moveLog := p.moveLog[..|p.moveLog| - 1],
         whiteToMove := !p.whiteToMove,
         whiteKingPos := if m.pieceMoved == Pc(White, King) then m.Start() else p.whiteKingPos,
         blackKingPos := if m.pieceMoved == Pc(Black, King) then m.Start() else p.blackKingPos,
         enpassantPossible := if m.isEnpassant then Some(m.End()) else p.enpassantPossible,
         currentCastlingRights := log[|log| - 1],
         castleRightsLog := log)
  }

  /** What undoing `m` needs of the board `m` is played on in order to give
      that board back: the moved piece is on the start square; the captured
      piece on the end square, or, for an en-passant capture, the end square
      is empty and the captured pawn stands beside the start square; for a
      castle the square next to the king on the castling side is empty. */
  ghost predicate Undoable(b: Board, m: Move)
    requires WellFormed(m)
  {
    && m.pieceMoved == b[m.startRow][m.startCol]
    && (!m.isEnpassant ==> m.pieceCaptured == b[m.endRow][m.endCol])
    && (m.isEnpassant ==> b[m.endRow][m.endCol] == Empty && b[m.startRow][m.endCol] == m.pieceCaptured)
    && (m.isCastleMove ==> !m.isEnpassant)
    && (m.isCastleMove && m.endCol - m.startCol == 2 ==> b[m.startRow][m.startCol + 1] == Empty)
    && (m.isCastleMove && m.endCol - m.startCol != 2 ==> b[m.startRow][m.startCol - 1] == Empty)
  }

  /** A king that moves starts from its cached square. */
  ghost predicate FromCachedKing(p: Position, m: Move) {
    && (m.pieceMoved == Pc(White, King) ==> m.Start() == p.whiteKingPos)
    && (m.pieceMoved == Pc(Black, King) ==> m.Start() == p.blackKingPos)
  }

  lemma UndoRestoresBoard(b: Board, m: Move)
    requires WellFormed(m) && Undoable(b, m)
    ensures BoardAfterUndo(BoardAfterMake(b, m), m) == b
  {
    var b' := BoardAfterUndo(BoardAfterMake(b, m), m);
    forall i, j | OnBoard(i, j)
      ensures b'[i][j] == b[i][j]
    {
    }
    BoardExt(b', b);
  }

  /** Reversibility: undoing a move just made gives back the position it was
      made in, except for the en-passant target, which `undo_move` leaves as
      `make_move` set it (or puts on the end square of an undone en-passant
      capture). */
  lemma UndoAfterMake(p: Position, m: Move)
    requires ValidPosition(p) && WellFormed(m)
    requires Undoable(p.board, m) && FromCachedKing(p, m)
    ensures UndoMove(MakeMove(p, m)) ==
      p.(enpassantPossible := if m.isEnpassant then Some(m.End()) else EpAfterMake(m))
  {
    var q := MakeMove(p, m);
    UndoRestoresBoard(p.board, m);
    assert q.moveLog[..|q.moveLog| - 1] == p.moveLog;
    assert q.castleRightsLog[..|q.castleRightsLog| - 1] == p.castleRightsLog;
  }

  /** An en-passant capture empties the square beside its start square, and
      undoing it puts the captured pawn, of the other colour, back there. */
  lemma EnPassantRemovesPassedPawn(b: Board, m: Move)
    requires WellFormed(m) && m.isEnpassant && !m.isCastleMove
    ensures BoardAfterMake(b, m)[m.startRow][m.endCol] == Empty
    ensures BoardAfterUndo(b, m)[m.startRow][m.endCol] == m.pieceCaptured
    ensures m.startRow != m.endRow ==> BoardAfterUndo(b, m)[m.endRow][m.endCol] == Empty
  {
  }

  /** A castle carries the rook over the king: kingside from the column right
      of the king's end square to the column left of it, queenside from two
      columns left of the end square to the column right of it. */
  lemma CastleMovesRook(b: Board, m: Move)
    requires WellFormed(m) && m.isCastleMove && !m.isEnpassant
    ensures var b' := BoardAfterMake(b, m);
      && b'[m.startRow][m.startCol] == Empty
      && b'[m.endRow][m.endCol] == m.pieceMoved
      && (m.endCol - m.startCol == 2 ==>
            b'[m.endRow][m.endCol - 1] == b[m.endRow][m.endCol + 1] && b'[m.endRow][m.endCol + 1] == Empty)
      && (m.endCol - m.startCol != 2 ==>
            b'[m.endRow][m.endCol + 1] == b[m.endRow][m.endCol - 2] && b'[m.endRow][m.endCol - 2] == Empty)
  {
  }
}
