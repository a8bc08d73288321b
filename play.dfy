/** A game as `ChessMain` plays it: from the initial position, each move one
    of those `get_valid_moves` returned, made with `make_move`. Such play
    stays within the positions on which `get_valid_moves` is proved to be
    exact: the king squares are cached, the en-passant target is sound, the
    king of the side not to move is not attacked, and a side that still
    holds a castling right has its king on its home square. */
module Play {
  import opened Pieces
  import opened Moves
  import opened Castling
  import opened Plies
  import opened Generation
  import opened Distinctness
  import opened Legality
  import opened CastleBounds

  predicate IsKing(x: Piece) {
    x.Pc? && x.kind == King
  }

  /** The side to move cannot take the other king. */
  ghost predicate OtherKingSafe(p: Position)
    requires ValidPosition(p)
  {
    !InCheck(FlipTurn(p))
  }

  /** A side holding a castling right has its king on the home square. */
  ghost predicate RightsAtHome(p: Position) {
    && (p.currentCastlingRights.wks || p.currentCastlingRights.wqs ==> p.whiteKingPos == Square(7, 4))
    && (p.currentCastlingRights.bks || p.currentCastlingRights.bqs ==> p.blackKingPos == Square(0, 4))
  }

  /** The positions play keeps to. */
  ghost predicate Playable(p: Position) {
    Sound(p) && OtherKingSafe(p) && RightsAtHome(p)
  }

  // ---------------------------------------------------------------------
  // The initial position
  // ---------------------------------------------------------------------

  /** White's pieces as they stand at the start: pawns across row 6, the
      other pieces across row 7, nothing white on rows 0 to 5. */
  ghost predicate WhiteAtHome(b: Board) {
    && (forall c :: 0 <= c < 8 ==> b[6][c] == Pc(White, Pawn))
    && (forall c :: 0 <= c < 8 ==> HasColor(b[7][c], White) && !IsPawn(b[7][c]))
    && (forall r, c :: OnBoard(r, c) && r < 6 ==> !HasColor(b[r][c], White))
  }

  lemma InitialWhiteAtHome()
    ensures WhiteAtHome(InitialBoard())
  {
  }

  /** A rook, bishop or queen on white's back rank has no move at the start:
      every first square of its rays is off the board or holds a white
      piece. */
  lemma {:induction false} BackRankSlidesEmpty(b: Board, c: int, dirs: seq<(int, int)>)
    requires WhiteAtHome(b) && 0 <= c < 8 && forall k :: 0 <= k < |dirs| ==> -1 <= dirs[k].0 <= 1
    ensures SlidingMoves(b, true, 7, c, dirs) == []
    decreases |dirs|
  {
    if dirs != [] {
      BackRankSlidesEmpty(b, c, dirs[..|dirs| - 1]);
      var d := dirs[|dirs| - 1];
      assert Ray(b, true, 7, c, d.0, d.1, 1) == [];
    }
  }

  /** A knight or king jump from white's back rank climbs at most two
      rows. */
  lemma {:induction false} BackRankJumpsLow(b: Board, c: int, offs: seq<(int, int)>)
    requires 0 <= c < 8 && forall k :: 0 <= k < |offs| ==> -2 <= offs[k].0
    ensures forall m :: m in OffsetMoves(b, true, 7, c, offs) ==> m.endRow >= 5
    decreases |offs|
  {
    if offs != [] {
      BackRankJumpsLow(b, c, offs[..|offs| - 1]);
    }
  }

  /** A white pawn on row 6 moves to row 5 or 4. */
  lemma PawnRowMovesLow(b: Board, c: int)
    requires WhiteAtHome(b) && PawnsInside(b) && 0 <= c < 8
    ensures forall m :: m in SquareMoves(b, true, None, 6, c) ==> m.endRow >= 4
  {
    assert b[6][c] == Pc(White, Pawn);
    PawnMovesOrder(b, true, None, 6, c);
    PawnPushesShape(b, true, 6, c);
    PawnCaptureOneRow(b, true, None, 6, c, -1);
    PawnCaptureOneRow(b, true, None, 6, c, 1);
  }

  /** A white piece on row 7 moves to row 5 or below, or not at all. */
  lemma BackRowMovesLow(b: Board, c: int)
    requires WhiteAtHome(b) && PawnsInside(b) && 0 <= c < 8
    ensures forall m :: m in SquareMoves(b, true, None, 7, c) ==> m.endRow >= 5
  {
    assert HasColor(b[7][c], White) && !IsPawn(b[7][c]);
    match b[7][c].kind
    case Knight => BackRankJumpsLow(b, c, KnightOffsets);
    case King => BackRankJumpsLow(b, c, KingOffsets);
    case Rook => BackRankSlidesEmpty(b, c, RookDirections);
    case Bishop => BackRankSlidesEmpty(b, c, BishopDirections);
    case Queen =>
      BackRankSlidesEmpty(b, c, RookDirections);
      BackRankSlidesEmpty(b, c, BishopDirections);
  }

  /** From white's starting squares no move goes beyond row 4. */
  lemma InitialMovesLow(b: Board)
    requires WhiteAtHome(b) && PawnsInside(b)
    ensures forall m :: m in AllMoves(b, true, None) ==> m.endRow >= 4
  {
    AllMovesFrom(b, true, None);
    forall m | m in AllMoves(b, true, None)
      ensures m.endRow >= 4
    {
      SquareMovesLow(b, m.startRow, m.startCol);
    }
  }

  lemma SquareMovesLow(b: Board, r: int, c: int)
    requires WhiteAtHome(b) && PawnsInside(b) && OnBoard(r, c)
    ensures forall m :: m in SquareMoves(b, true, None, r, c) ==> m.endRow >= 4
  {
    if r == 6 {
      PawnRowMovesLow(b, c);
    } else if r == 7 {
      BackRowMovesLow(b, c);
    } else {
      assert !HasColor(b[r][c], White);
    }
  }

  /** The game starts in a playable position: in particular white's moves
      end on rows 4 to 7, far from the black king. */
  lemma InitialPlayable()
    ensures Playable(InitialPosition())
  {
    var b := InitialBoard();
    InitialPositionValid();
    InitialWhiteAtHome();
    InitialMovesLow(b);
    forall i | 0 <= i < |AllMoves(b, true, None)|
      ensures AllMoves(b, true, None)[i].endRow >= 4
    {
      assert AllMoves(b, true, None)[i] in AllMoves(b, true, None);
    }
  }

  // ---------------------------------------------------------------------
  // make_move and the king squares
  // ---------------------------------------------------------------------

  /** No king is taken or carried off by `make_move(m)` on b: the end square,
      the square of a pawn taken en passant, and the squares a castling rook
      leaves and enters hold no king, and an en-passant capture changes row. */
  ghost predicate SparesKings(b: Board, m: Move)
    requires WellFormed(m)
  {
    && !IsKing(b[m.endRow][m.endCol])
    && (m.isEnpassant ==> m.startRow != m.endRow && !IsKing(b[m.startRow][m.endCol]))
    && (m.isCastleMove && m.endCol - m.startCol == 2 ==>
          !IsKing(b[m.endRow][m.endCol + 1]) && !IsKing(b[m.endRow][m.endCol - 1]))
    && (m.isCastleMove && m.endCol - m.startCol != 2 ==>
          !IsKing(b[m.endRow][m.endCol - 2]) && !IsKing(b[m.endRow][m.endCol + 1]))
  }

  /** After such a move a king of colour k stands on a cell exactly when it
      is the moved king's end square, or the cell held that king before and
      is not the start square. */
  lemma KingCellAfterMake(b: Board, m: Move, i: int, j: int, k: Color)
    requires WellFormed(m) && m.pieceMoved == b[m.startRow][m.startCol] && SparesKings(b, m) && OnBoard(i, j)
    ensures BoardAfterMake(b, m)[i][j] == Pc(k, King) <==>
      (Square(i, j) == m.End() && m.pieceMoved == Pc(k, King)) ||
      (Square(i, j) != m.Start() && b[i][j] == Pc(k, King))
  {
  }

  /** `make_move` keeps the cached king squares right when it spares the
      kings. */
  lemma MakeKeepsKings(p: Position, m: Move)
    requires ValidPosition(p) && KingsCached(p) && WellFormed(m)
    requires m.pieceMoved == p.board[m.startRow][m.startCol] && SparesKings(p.board, m)
    ensures KingsCached(MakeMove(p, m))
  {
    var q := MakeMove(p, m);
    assert p.board[p.whiteKingPos.row][p.whiteKingPos.col] == Pc(White, King);
    assert p.board[p.blackKingPos.row][p.blackKingPos.col] == Pc(Black, King);
    forall i, j | OnBoard(i, j)
      ensures (q.board[i][j] == Pc(White, King) <==> Square(i, j) == q.whiteKingPos)
      ensures (q.board[i][j] == Pc(Black, King) <==> Square(i, j) == q.blackKingPos)
    {
      KingCellAfterMake(p.board, m, i, j, White);
      KingCellAfterMake(p.board, m, i, j, Black);
    }
  }

  // ---------------------------------------------------------------------
  // A valid move keeps the position playable
  // ---------------------------------------------------------------------

  /** With cached kings, a square that holds no piece of the mover and is
      not the other king's cached square holds no king. */
  lemma NoKingOffCache(p: Position, i: int, j: int)
    requires ValidPosition(p) && KingsCached(p) && OnBoard(i, j)
    requires !HasColor(p.board[i][j], Mover(p.whiteToMove)) && Square(i, j) != KingOf(FlipTurn(p))
    ensures !IsKing(p.board[i][j])
  {
  }

  /** No move of a side ends on a square that side does not attack. */
  lemma MoveMissesSafeSquare(b: Board, w: bool, ep: Option<Square>, m: Move, k: Square)
    requires PawnsInside(b) && m in AllMoves(b, w, ep) && !UnderAttack(b, !w, ep, k.row, k.col)
    ensures m.End() != k
  {
    EndsOnMember(AllMoves(b, w, ep), m);
  }

  /** One pseudo-legal move is pseudo-legal and well formed. */
  lemma PseudoMember(b: Board, w: bool, ep: Option<Square>, m: Move)
    requires PawnsInside(b) && m in AllMoves(b, w, ep)
    ensures Pseudo(b, w, ep, m) && WellFormed(m)
  {
    AllMovesPseudo(b, w, ep);
  }

  /** A pseudo-legal move on a playable position spares the kings: it does
      not end on the other king, which the position does not let it reach. */
  lemma PseudoSparesKings(p: Position, m: Move)
    requires Playable(p) && m in AllMoves(p.board, p.whiteToMove, p.enpassantPossible)
    ensures WellFormed(m) && m.pieceMoved == p.board[m.startRow][m.startCol] && SparesKings(p.board, m)
  {
    var b, w, ep := p.board, p.whiteToMove, p.enpassantPossible;
    PseudoMember(b, w, ep, m);
    MoveMissesSafeSquare(b, w, ep, m, KingOf(FlipTurn(p)));
    if !m.isEnpassant {
      NoKingOffCache(p, m.endRow, m.endCol);
    }
    PseudoSparesOn(b, w, ep, m);
  }

  /** On a board with a sound target, a pseudo-legal move spares the kings
      once its end square holds none: an en-passant capture lands on the
      empty target and takes a pawn. */
  lemma PseudoSparesOn(b: Board, w: bool, ep: Option<Square>, m: Move)
    requires WellFormed(m) && Pseudo(b, w, ep, m) && EnPassantSound(b, w, ep)
    requires !m.isEnpassant ==> !IsKing(b[m.endRow][m.endCol])
    ensures SparesKings(b, m)
  {
  }

  /** A pawn's two-row step leaves a sound target for the other side: the
      square passed over is empty and the pawn stands just beyond it. */
  lemma DoubleStepTarget(b: Board, w: bool, ep: Option<Square>, m: Move)
    requires PawnsInside(b) && m in AllMoves(b, w, ep)
    ensures WellFormed(m)
    ensures EnPassantSound(BoardAfterMake(b, m), !w, EpAfterMake(m))
  {
    AllMovesPseudo(b, w, ep);
    if EpAfterMake(m).Some? {
      var r, c := m.startRow, m.startCol;
      AllMovesFrom(b, w, ep);
      DoubleStepShape(b, w, ep, r, c, m);
      var t := Square(r + Forward(w), c);
      assert EpAfterMake(m) == Some(t);
      DoubleStepCells(b, m, t);
    }
  }

  /** What a two-row step from (r, c) is: a plain move of the mover's pawn
      two rows forward over an empty square. */
  lemma DoubleStepShape(b: Board, w: bool, ep: Option<Square>, r: int, c: int, m: Move)
    requires PawnsInside(b) && OnBoard(r, c) && m in SquareMoves(b, w, ep, r, c) && EpAfterMake(m).Some?
    ensures 1 <= r <= 6 && OnBoard(r + Forward(w), c) && b[r][c] == Pc(Mover(w), Pawn)
    ensures m.endRow == r + 2 * Forward(w) && OnBoard(m.endRow, c) && m.endCol == c
    ensures m.Start() == Square(r, c) && !m.isCastleMove && !m.isEnpassant && !m.isPawnPromotion
    ensures b[r + Forward(w)][c] == Empty && m.pieceMoved == b[r][c]
  {
    SquareMovesPseudo(b, w, ep, r, c);
    PawnTwoRowStep(b, w, ep, r, c, m);
  }

  /** After a plain pawn step two rows forward over t, t is still empty and
      the pawn stands on the far side of it. */
  lemma DoubleStepCells(b: Board, m: Move, t: Square)
    requires WellFormed(m) && !m.isCastleMove && !m.isEnpassant && !m.isPawnPromotion
    requires OnBoard(m.startRow, m.startCol) && OnBoard(m.endRow, m.endCol) && InBounds(t)
    requires m.startCol == m.endCol == t.col && 2 * t.row == m.startRow + m.endRow && m.startRow != m.endRow
    requires b[t.row][t.col] == Empty
    ensures BoardAfterMake(b, m)[t.row][t.col] == Empty
    ensures BoardAfterMake(b, m)[m.endRow][m.endCol] == m.pieceMoved
  {
  }

  /** A queenside castle that carried the other king along would leave it
      beside the castled king, which it then attacks: the filter drops it. */
  lemma CarriedKingChecks(p: Position, m: Move)
    requires ValidPosition(p) && KingsCached(p) && WellFormed(m) && m.isCastleMove && m.endCol - m.startCol != 2
    requires m.pieceMoved == p.board[m.startRow][m.startCol] && m.Start() == KingOf(p)
    requires p.board[m.endRow][m.endCol - 2] == Pc(Opponent(Mover(p.whiteToMove)), King)
    ensures !Safe(p, m)
  {
    var b, w := p.board, p.whiteToMove;
    var b' := BoardAfterMake(b, m);
    var r, ec := m.endRow, m.endCol;
    assert b[m.startRow][m.startCol] == Pc(Mover(w), King);
    CastleMovesRook(b, m);
    assert b'[r][ec + 1] == Pc(Mover(!w), King);
    assert !HasColor(b'[r][ec], Mover(!w));
    assert KingOf(Probe(p, m)) == Square(r, ec);
    KingAttacksBeside(b', !w, EpAfterMake(m), r, ec + 1, -1);
  }

  /** With cached kings, a square other than the mover's king square that
      does not hold the other king holds no king. */
  lemma NoKingBesideOwn(p: Position, i: int, j: int)
    requires ValidPosition(p) && KingsCached(p) && OnBoard(i, j)
    requires Square(i, j) != KingOf(p) && p.board[i][j] != Pc(Opponent(Mover(p.whiteToMove)), King)
    ensures !IsKing(p.board[i][j])
  {
  }

  /** Kingside, the other king cannot stand beyond the rook of an offered
      castle: from there it would attack the king's end square. */
  lemma NoKingBeyondRook(b: Board, w: bool, ep: Option<Square>, r: int, c: int)
    requires PawnsInside(b) && OnBoard(r, c + 3) && 0 <= c
    requires b[r][c + 2] == Empty && !UnderAttack(b, w, ep, r, c + 2)
    ensures b[r][c + 3] != Pc(Opponent(Mover(w)), King)
  {
    if b[r][c + 3] == Pc(Opponent(Mover(w)), King) {
      KingAttacksBeside(b, !w, ep, r, c + 3, -1);
    }
  }

  /** Queenside, a castle that passes the filter carried no king along. */
  lemma NoKingCarried(p: Position, m: Move)
    requires ValidPosition(p) && KingsCached(p) && WellFormed(m) && m.isCastleMove && m.endCol - m.startCol != 2
    requires m.pieceMoved == p.board[m.startRow][m.startCol] && m.Start() == KingOf(p) && Safe(p, m)
    ensures p.board[m.endRow][m.endCol - 2] != Pc(Opponent(Mover(p.whiteToMove)), King)
  {
    if p.board[m.endRow][m.endCol - 2] == Pc(Opponent(Mover(p.whiteToMove)), King) {
      CarriedKingChecks(p, m);
    }
  }

  /** A castle of a playable position spares the kings: kingside the square
      beyond the rook's would be attacked by a king standing there, and
      queenside a king carried along would check the mover. */
  lemma CastleSparesKings(p: Position, m: Move)
    requires Playable(p) && m in OwnCastles(p) && WellFormed(m) && Safe(p, m)
    ensures m.pieceMoved == p.board[m.startRow][m.startCol] && SparesKings(p.board, m)
    ensures !IsPawn(m.pieceMoved)
  {
    var b, w, ep, cr := p.board, p.whiteToMove, p.enpassantPossible, p.currentCastlingRights;
    var k := KingOf(p);
    var r, c := k.row, k.col;
    CastleMovesRule(b, w, ep, cr, r, c);
    assert CastleRule(b, w, ep, cr, r, c, m);
    assert b[r][c] == Pc(Mover(w), King);
    if m.endCol == c + 2 {
      NoKingBeyondRook(b, w, ep, r, c);
      NoKingBesideOwn(p, r, c + 3);
    } else {
      NoKingCarried(p, m);
      NoKingBesideOwn(p, r, c - 4);
    }
  }

  /** RightsAtHome survives any move: a right still held after it was held
      before, and the king it guards did not move. */
  lemma MakeKeepsRightsAtHome(p: Position, m: Move)
    requires RightsAtHome(p) && WellFormed(m)
    ensures RightsAtHome(MakeMove(p, m))
  {
  }

  /** Playing a move `get_valid_moves` returned keeps the position
      playable. */
  lemma MakeKeepsPlayable(p: Position, m: Move)
    requires Playable(p) && m in ValidMoves(p).1
    ensures Playable(MakeMove(p, m))
  {
    var b, w, ep := p.board, p.whiteToMove, p.enpassantPossible;
    ValidMovesExactly(p);
    assert WellFormed(m) && Safe(p, m);
    if m in AllMoves(b, w, ep) {
      PseudoSparesKings(p, m);
      DoubleStepTarget(b, w, ep, m);
    } else {
      CastleSparesKings(p, m);
      assert EpAfterMake(m) == None;
    }
    MakeKeepsKings(p, m);
    MakeKeepsRightsAtHome(p, m);
    assert FlipTurn(MakeMove(p, m)) == Probe(p, m);
  }

  /** On a playable position the castle generators as written, with no
      column bound, offer the mover's king exactly what the bounded ones
      offer: a held right puts the king on column 4, and without a right
      neither helper runs. */
  lemma OwnCastlesAsWritten(p: Position)
    requires Playable(p)
    ensures var k := KingOf(p);
      CastleMovesAsWritten(p.board, p.whiteToMove, p.enpassantPossible, p.currentCastlingRights, k.row, k.col)
        == Some(OwnCastles(p))
  {
    var k := KingOf(p);
    var w, cr := p.whiteToMove, p.currentCastlingRights;
    if KingsideRight(w, cr) || QueensideRight(w, cr) {
      assert k.col == 4;
      AsWrittenAtHome(p.board, w, p.enpassantPossible, cr, k.row);
    }
  }

  // ---------------------------------------------------------------------
  // Games
  // ---------------------------------------------------------------------

  /** `ms` is played from p as the main loop does it: `get_valid_moves`
      (which sets the flags), then `make_move` of one of the moves it
      returned. */
  ghost predicate LegalGame(p: Position, ms: seq<Move>)
    requires ValidPosition(p)
    decreases |ms|
  {
    ms == [] ||
    (var (q, vs) := ValidMoves(p);
     ms[0] in vs && LegalGame(MakeMove(q, ms[0]), ms[1..]))
  }

  /** The position a legal game ends in. */
  ghost function Played(p: Position, ms: seq<Move>): Position
    requires ValidPosition(p) && LegalGame(p, ms)
    decreases |ms|
  {
    if ms == [] then p
    else
      var (q, vs) := ValidMoves(p);
      Played(MakeMove(q, ms[0]), ms[1..])
  }

  /** `get_valid_moves` on a playable position keeps it playable (it changes
      only the flags), and so does the move made next. */
  lemma MakeAfterValidMoves(p: Position, m: Move)
    requires Playable(p) && m in ValidMoves(p).1
    ensures Playable(MakeMove(ValidMoves(p).0, m))
  {
    ValidMovesSound(p);
    MakeKeepsPlayable(p, m);
    var q := ValidMoves(p).0;
    assert MakeMove(q, m) == MakeMove(p, m).(checkmate := q.checkmate, stalemate := q.stalemate);
    FlagsIrrelevant(MakeMove(p, m), q.checkmate, q.stalemate);
  }

  /** Whether a position is playable does not depend on its checkmate and
      stalemate flags. */
  lemma FlagsIrrelevant(p: Position, cm: bool, sm: bool)
    requires Playable(p)
    ensures Playable(p.(checkmate := cm, stalemate := sm))
  {
    var q := p.(checkmate := cm, stalemate := sm);
    assert FlipTurn(q).board == FlipTurn(p).board && KingOf(FlipTurn(q)) == KingOf(FlipTurn(p));
  }

  /** Every position a legal game reaches from a playable one is playable,
      so `get_valid_moves` is exact on it (`ValidMovesSound`). */
  lemma {:induction false} GameStaysPlayable(p: Position, ms: seq<Move>)
    requires Playable(p) && LegalGame(p, ms)
    ensures Playable(Played(p, ms))
    decreases |ms|
  {
    if ms != [] {
      MakeAfterValidMoves(p, ms[0]);
      GameStaysPlayable(MakeMove(ValidMoves(p).0, ms[0]), ms[1..]);
    }
  }

  /** Every position of a legal game from the start is playable. */
  lemma GameFromStart(ms: seq<Move>)
    requires LegalGame(InitialPosition(), ms)
    ensures Playable(Played(InitialPosition(), ms))
  {
    InitialPlayable();
    GameStaysPlayable(InitialPosition(), ms);
  }
}
