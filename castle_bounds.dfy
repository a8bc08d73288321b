/** The castle generators with the board indexed exactly as the engine does
    it, without a column bound: a column past 7 raises IndexError (here
    None) and a negative column counts from the end of the row, as a Python
    list does. `Generation.KingsideCastle` and `Generation.QueensideCastle`
    are the bounded versions the rest of the model uses. */
module CastleBounds {
  import opened Pieces
  import opened Moves
  import opened Castling
  import opened Generation
  import opened Legality

  /** The list index Python uses for `row[c]`, -8 <= c < 8. */
  function Wrap(c: int): int {
    if c < 0 then c + 8 else c
  }

  /** `Move((r, c), (r, ec), board, is_castle_move=True)` with a possibly
      negative end column, whose captured piece is read through the wrap. */
  function WrappedCastle(b: Board, r: int, c: int, ec: int): Move
    requires OnBoard(r, c) && -8 <= ec < 8
  {
    var moved := b[r][c];
    Move(r, c, r, ec, moved, b[r][Wrap(ec)], IsPawn(moved) && (r == 0 || r == 7), false, true)
  }

  /** `get_kingside_castle_moves(r, c, moves)` as written: the `and` reads
      column c+1, and column c+2 only when c+1 is empty; a read past column 7
      raises (None). */
  function KingsideAsWritten(b: Board, w: bool, ep: Option<Square>, r: int, c: int): Option<seq<Move>>
    requires OnBoard(r, c) && PawnsInside(b)
  {
    if c + 1 >= 8 then None
    else if b[r][c + 1] != Empty then Some([])
    else if c + 2 >= 8 then None
    else if b[r][c + 2] == Empty && !UnderAttack(b, w, ep, r, c + 1) && !UnderAttack(b, w, ep, r, c + 2)
    then Some([NewMove(Square(r, c), Square(r, c + 2), b, false, true)])
    else Some([])
  }

  /** `get_queenside_castle_moves(r, c, moves)` as written: columns c-1,
      c-2 and c-3 are read through the wrap, and the attack test is asked
      about the columns themselves. */
  function QueensideAsWritten(b: Board, w: bool, ep: Option<Square>, r: int, c: int): seq<Move>
    requires OnBoard(r, c) && PawnsInside(b)
  {
    if b[r][Wrap(c - 1)] == Empty && b[r][Wrap(c - 2)] == Empty && b[r][Wrap(c - 3)] == Empty &&
       !UnderAttack(b, w, ep, r, c - 1) && !UnderAttack(b, w, ep, r, c - 2)
    then [WrappedCastle(b, r, c, c - 2)]
    else []
  }

  /** `get_castle_moves(r, c, moves)` as written: None when it raises. */
  function CastleMovesAsWritten(b: Board, w: bool, ep: Option<Square>, cr: CastleRights, r: int, c: int): Option<seq<Move>>
    requires OnBoard(r, c) && PawnsInside(b)
  {
    if UnderAttack(b, w, ep, r, c) then Some([])
    else
      var k := if KingsideRight(w, cr) then KingsideAsWritten(b, w, ep, r, c) else Some([]);
      var q := if QueensideRight(w, cr) then QueensideAsWritten(b, w, ep, r, c) else [];
      if k.None? then None else Some(k.value + q)
  }

  /** From the kings' home column the unbounded generator raises nothing and
      offers what the bounded one offers. */
  lemma AsWrittenAtHome(b: Board, w: bool, ep: Option<Square>, cr: CastleRights, r: int)
    requires 0 <= r < 8 && PawnsInside(b)
    ensures CastleMovesAsWritten(b, w, ep, cr, r, 4) == Some(CastleMoves(b, w, ep, cr, r, 4))
  {
    KingsideAtHome(b, w, ep, r);
    QueensideAtHome(b, w, ep, r);
  }

  lemma KingsideAtHome(b: Board, w: bool, ep: Option<Square>, r: int)
    requires 0 <= r < 8 && PawnsInside(b)
    ensures KingsideAsWritten(b, w, ep, r, 4) == Some(KingsideCastle(b, w, ep, r, 4))
  {
  }

  lemma QueensideAtHome(b: Board, w: bool, ep: Option<Square>, r: int)
    requires 0 <= r < 8 && PawnsInside(b)
    ensures QueensideAsWritten(b, w, ep, r, 4) == QueensideCastle(b, w, ep, r, 4)
  {
    assert Wrap(3) == 3 && Wrap(2) == 2 && Wrap(1) == 1;
    assert WrappedCastle(b, r, 4, 2) == NewMove(Square(r, 4), Square(r, 2), b, false, true);
  }

  /** No move of the other side ends on a square holding one of its own
      pieces, unless that square is the en-passant target. */
  lemma OwnPieceNotAttacked(b: Board, w: bool, ep: Option<Square>, r: int, c: int)
    requires OnBoard(r, c) && PawnsInside(b) && HasColor(b[r][c], Opponent(Mover(w)))
    requires ep != Some(Square(r, c))
    ensures !UnderAttack(b, w, ep, r, c)
  {
    var A := AllMoves(b, !w, ep);
    AllMovesPseudo(b, !w, ep);
    assert Mover(!w) == Opponent(Mover(w));
    forall i | 0 <= i < |A|
      ensures !(A[i].endRow == r && A[i].endCol == c)
    {
      assert A[i] in A;
    }
  }

  /** No move of the other side ends off the board. */
  lemma OffBoardNotAttacked(b: Board, w: bool, ep: Option<Square>, r: int, c: int)
    requires PawnsInside(b) && !OnBoard(r, c)
    ensures !UnderAttack(b, w, ep, r, c)
  {
    var A := AllMoves(b, !w, ep);
    AllMovesPseudo(b, !w, ep);
    forall i | 0 <= i < |A|
      ensures !(A[i].endRow == r && A[i].endCol == c)
    {
      assert A[i] in A;
    }
  }

  /** Castles are generated for the king of the side not to move as well,
      with the rights of the side to move: when that king stands on column 7,
      or on column 6 with column 7 empty, and the side to move still holds
      its kingside right, the engine reads column 8 and raises. */
  lemma KingsideRaises(b: Board, w: bool, ep: Option<Square>, cr: CastleRights, r: int, c: int)
    requires OnBoard(r, c) && PawnsInside(b) && HasColor(b[r][c], Opponent(Mover(w)))
    requires ep != Some(Square(r, c)) && KingsideRight(w, cr)
    requires c == 7 || (c == 6 && b[r][7] == Empty)
    ensures CastleMovesAsWritten(b, w, ep, cr, r, c) == None
  {
    OwnPieceNotAttacked(b, w, ep, r, c);
  }

  /** White's king and h-rook unmoved, black castled kingside: black king
      on g8 (row 0, column 6), black rook on f8, h8 empty. */
  function BlackCastledShort(): (b: Board)
    ensures PawnsInside(b)
    ensures b[0][6] == Pc(Black, King) && b[0][7] == Empty
  {
    var b0 := EmptyBoard();
    var b1 := Set(b0, 7, 4, Pc(White, King));
    var b2 := Set(b1, 7, 7, Pc(White, Rook));
    var b3 := Set(b2, 0, 6, Pc(Black, King));
    Set(b3, 0, 5, Pc(Black, Rook))
  }

  /** With white to move and white's kingside right held, the castle test
      for the black king on g8 raises. */
  lemma KingsideRaisesAfterShortCastle()
    ensures CastleMovesAsWritten(BlackCastledShort(), true, None, CastleRights(true, false, true, false), 0, 6) == None
  {
    KingsideRaises(BlackCastledShort(), true, None, CastleRights(true, false, true, false), 0, 6);
  }

  /** With the king of the side not to move on column 0, columns 5, 6 and 7
      of its row empty (read as columns -3, -2 and -1), and the side to move
      holding its queenside right, the engine offers that king a castle to
      column -2: the attack test never finds a move ending off the board.
      The bounded generator offers nothing there. */
  lemma QueensideWraps(b: Board, w: bool, ep: Option<Square>, cr: CastleRights, r: int)
    requires 0 <= r < 8 && PawnsInside(b) && b[r][0] == Pc(Opponent(Mover(w)), King)
    requires ep != Some(Square(r, 0)) && QueensideRight(w, cr)
    requires b[r][5] == Empty && b[r][6] == Empty && b[r][7] == Empty
    ensures CastleMovesAsWritten(b, w, ep, cr, r, 0) == Some([WrappedCastle(b, r, 0, -2)])
    ensures WrappedCastle(b, r, 0, -2).endCol == -2 && !OnBoard(r, -2)
    ensures CastleMoves(b, w, ep, cr, r, 0) == []
  {
    KingsideBesideKing(b, w, ep, r);
    QueensideOffBoard(b, w, ep, r);
    OwnPieceNotAttacked(b, w, ep, r, 0);
    assert [] + [WrappedCastle(b, r, 0, -2)] == [WrappedCastle(b, r, 0, -2)];
    OpponentCastlesNone(b, w, ep, cr, r, 0);
  }

  /** The king on column 0 attacks column 1 itself, so no kingside castle. */
  lemma KingsideBesideKing(b: Board, w: bool, ep: Option<Square>, r: int)
    requires 0 <= r < 8 && PawnsInside(b) && b[r][0] == Pc(Opponent(Mover(w)), King)
    ensures KingsideAsWritten(b, w, ep, r, 0) == Some([])
  {
    if b[r][1] == Empty {
      assert Mover(!w) == Opponent(Mover(w));
      KingAttacksBeside(b, !w, ep, r, 0, 1);
      assert UnderAttack(b, w, ep, r, 1);
    }
  }

  /** Columns -1 and -2 are never attacked, so the wrapped castle is offered
      whenever the wrapped cells are empty. */
  lemma QueensideOffBoard(b: Board, w: bool, ep: Option<Square>, r: int)
    requires 0 <= r < 8 && PawnsInside(b)
    requires b[r][5] == Empty && b[r][6] == Empty && b[r][7] == Empty
    ensures QueensideAsWritten(b, w, ep, r, 0) == [WrappedCastle(b, r, 0, -2)]
  {
    OffBoardNotAttacked(b, w, ep, r, -1);
    OffBoardNotAttacked(b, w, ep, r, -2);
  }

  /** Black king on a5 (row 3, column 0) with f5-h5 empty, white king e1
      and rook a1 unmoved. */
  function BlackKingOnAFile(): (b: Board)
    ensures PawnsInside(b)
    ensures b[3][0] == Pc(Black, King) && b[3][5] == Empty && b[3][6] == Empty && b[3][7] == Empty
  {
    var b0 := EmptyBoard();
    var b1 := Set(b0, 7, 4, Pc(White, King));
    var b2 := Set(b1, 7, 0, Pc(White, Rook));
    Set(b2, 3, 0, Pc(Black, King))
  }

  /** With white to move holding its queenside right, the black king on a5
      is offered a castle to column -2. */
  lemma QueensideWrapsOnAFile()
    ensures var b := BlackKingOnAFile();
      CastleMovesAsWritten(b, true, None, CastleRights(false, false, true, false), 3, 0) ==
        Some([WrappedCastle(b, 3, 0, -2)])
  {
    QueensideWraps(BlackKingOnAFile(), true, None, CastleRights(false, false, true, false), 3);
  }
}
