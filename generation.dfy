/** Pseudo-legal move generation, castling generation and the attack test of
    the engine, as functions of the board, the side to move, the en-passant
    target and the castling rights. The list order is the engine's: squares
    row-major, then each piece's own offset or ray order. */
module Generation {
  import opened Pieces
  import opened Moves
  import opened Castling

  const PawnCaptureCols: seq<int> := [-1, 1]
  const KnightOffsets: seq<(int, int)> := [(-2, -1), (-2, 1), (-1, -2), (-1, 2), (1, -2), (1, 2), (2, -1), (2, 1)]
  const KingOffsets: seq<(int, int)> := [(-1, -1), (-1, 0), (-1, 1), (0, -1), (0, 1), (1, -1), (1, 0), (1, 1)]
  const RookDirections: seq<(int, int)> := [(-1, 0), (1, 0), (0, -1), (0, 1)]
  const BishopDirections: seq<(int, int)> := [(-1, -1), (-1, 1), (1, -1), (1, 1)]

  /** A plain move from (r, c) to (er, ec), built from the board. */
  function Plain(b: Board, r: int, c: int, er: int, ec: int): Move
    requires OnBoard(r, c) && OnBoard(er, ec)
  {
    NewMove(Square(r, c), Square(er, ec), b, false, false)
  }

  /** The row a pawn of the side to move advances to: up for white. */
  function Forward(w: bool): int {
    if w then -1 else 1
  }

  /** The row from which the side to move's pawns may step two rows. */
  function HomeRow(w: bool): int {
    if w then 6 else 1
  }

  // ---------------------------------------------------------------------
  // Pawns (get_pawn_moves)
  // ---------------------------------------------------------------------

  /** One step onto an empty square, and from the home row a second step
      when that square is empty too. */
  function PawnPushes(b: Board, w: bool, r: int, c: int): seq<Move>
    requires OnBoard(r, c) && 1 <= r <= 6
  {
    var d := Forward(w);
    if b[r + d][c] == Empty then
      [Plain(b, r, c, r + d, c)] +
      (if r == HomeRow(w) && b[r + 2 * d][c] == Empty then [Plain(b, r, c, r + 2 * d, c)] else [])
    else []
  }

  /** The diagonal towards column c + dc: a capture of an enemy piece, or
      else an en-passant capture when that square is the target. */
  function PawnCapture(b: Board, w: bool, ep: Option<Square>, r: int, c: int, dc: int): seq<Move>
    requires OnBoard(r, c) && 1 <= r <= 6
  {
    var d := Forward(w);
    if 0 <= c + dc < 8 then
      if HasColor(b[r + d][c + dc], Opponent(Mover(w))) then [Plain(b, r, c, r + d, c + dc)]
      else if ep == Some(Square(r + d, c + dc)) then [NewMove(Square(r, c), Square(r + d, c + dc), b, true, false)]
      else []
    else []
  }

  function PawnCaptures(b: Board, w: bool, ep: Option<Square>, r: int, c: int, dcs: seq<int>): seq<Move>
    requires OnBoard(r, c) && 1 <= r <= 6
    decreases |dcs|
  {
    if dcs == [] then []
    else PawnCaptures(b, w, ep, r, c, dcs[..|dcs| - 1]) + PawnCapture(b, w, ep, r, c, dcs[|dcs| - 1])
  }

  function PawnMoves(b: Board, w: bool, ep: Option<Square>, r: int, c: int): seq<Move>
    requires OnBoard(r, c) && 1 <= r <= 6
  {
    PawnPushes(b, w, r, c) + PawnCaptures(b, w, ep, r, c, PawnCaptureCols)
  }

  // ---------------------------------------------------------------------
  // Knights and kings (get_knight_moves, get_king_moves)
  // ---------------------------------------------------------------------

  /** The jump by offset o, if it lands on the board and not on a piece of
      the side to move. */
  function OffsetMove(b: Board, w: bool, r: int, c: int, o: (int, int)): seq<Move>
    requires OnBoard(r, c)
  {
    if OnBoard(r + o.0, c + o.1) && !HasColor(b[r + o.0][c + o.1], Mover(w))
    then [Plain(b, r, c, r + o.0, c + o.1)]
    else []
  }

  function OffsetMoves(b: Board, w: bool, r: int, c: int, offs: seq<(int, int)>): seq<Move>
    requires OnBoard(r, c)
    decreases |offs|
  {
    if offs == [] then []
    else OffsetMoves(b, w, r, c, offs[..|offs| - 1]) + OffsetMove(b, w, r, c, offs[|offs| - 1])
  }

  // ---------------------------------------------------------------------
  // Rooks, bishops, queens (get_sliding_moves)
  // ---------------------------------------------------------------------

  /** The ray from (r, c) in direction (dr, dc) from its i-th square on:
      empty squares are taken and the ray goes on; an enemy piece is taken
      and ends the ray; the board edge or a piece of the side to move ends it. */
  function Ray(b: Board, w: bool, r: int, c: int, dr: int, dc: int, i: int): seq<Move>
    requires OnBoard(r, c) && 1 <= i
    decreases 8 - i
  {
    if i >= 8 then []
    else
      var er, ec := r + dr * i, c + dc * i;
      if !OnBoard(er, ec) then []
      else if b[er][ec] == Empty then [Plain(b, r, c, er, ec)] + Ray(b, w, r, c, dr, dc, i + 1)
      else if HasColor(b[er][ec], Opponent(Mover(w))) then [Plain(b, r, c, er, ec)]
      else []
  }

  function SlidingMoves(b: Board, w: bool, r: int, c: int, dirs: seq<(int, int)>): seq<Move>
    requires OnBoard(r, c)
    decreases |dirs|
  {
    if dirs == [] then []
    else SlidingMoves(b, w, r, c, dirs[..|dirs| - 1]) + Ray(b, w, r, c, dirs[|dirs| - 1].0, dirs[|dirs| - 1].1, 1)
  }

  // ---------------------------------------------------------------------
  // The whole side (get_all_possible_moves and the move_functions dispatch)
  // ---------------------------------------------------------------------

  function PieceMoves(b: Board, w: bool, ep: Option<Square>, r: int, c: int): seq<Move>
    requires OnBoard(r, c) && PawnsInside(b) && b[r][c].Pc?
  {
    match b[r][c].kind
    case Pawn => PawnMoves(b, w, ep, r, c)
    case Rook => SlidingMoves(b, w, r, c, RookDirections)
    case Knight => OffsetMoves(b, w, r, c, KnightOffsets)
    case Bishop => SlidingMoves(b, w, r, c, BishopDirections)
    case Queen => SlidingMoves(b, w, r, c, RookDirections) + SlidingMoves(b, w, r, c, BishopDirections)
    case King => OffsetMoves(b, w, r, c, KingOffsets)
  }

  /** Moves of the piece on (r, c) if it belongs to the side to move. */
  function SquareMoves(b: Board, w: bool, ep: Option<Square>, r: int, c: int): seq<Move>
    requires OnBoard(r, c) && PawnsInside(b)
  {
    if HasColor(b[r][c], Mover(w)) then PieceMoves(b, w, ep, r, c) else []
  }

  /** Moves of the first k squares in row-major order. */
  function MovesUpTo(b: Board, w: bool, ep: Option<Square>, k: int): seq<Move>
    requires 0 <= k <= 64 && PawnsInside(b)
    decreases k
  {
    if k == 0 then [] else MovesUpTo(b, w, ep, k - 1) + SquareMoves(b, w, ep, (k - 1) / 8, (k - 1) % 8)
  }

  function AllMoves(b: Board, w: bool, ep: Option<Square>): seq<Move>
    requires PawnsInside(b)
  {
    MovesUpTo(b, w, ep, 64)
  }

  // ---------------------------------------------------------------------
  // Attack test (square_under_attack)
  // ---------------------------------------------------------------------

  predicate AnyEndsOn(ms: seq<Move>, r: int, c: int) {
    exists i :: 0 <= i < |ms| && ms[i].endRow == r && ms[i].endCol == c
  }

  /** `square_under_attack(r, c)` with `white_to_move == w`: some pseudo-legal
      move of the other side ends on (r, c). Pawn pushes count; a pawn
      diagonal onto an empty square that is not the target does not. */
  predicate UnderAttack(b: Board, w: bool, ep: Option<Square>, r: int, c: int)
    requires PawnsInside(b)
  {
    AnyEndsOn(AllMoves(b, !w, ep), r, c)
  }

  // ---------------------------------------------------------------------
  // Castling (get_castle_moves and its two helpers)
  // ---------------------------------------------------------------------

  /** Kingside: both squares right of (r, c) empty and not attacked. The
      engine reads columns c+1, c+2 and, when the castle is made, c+3 without
      a bound check; this model only offers the castle when c+3 is on the
      board. */
  function KingsideCastle(b: Board, w: bool, ep: Option<Square>, r: int, c: int): seq<Move>
    requires OnBoard(r, c) && PawnsInside(b)
  {
    if c + 3 < 8 && b[r][c + 1] == Empty && b[r][c + 2] == Empty &&
       !UnderAttack(b, w, ep, r, c + 1) && !UnderAttack(b, w, ep, r, c + 2)
    then [NewMove(Square(r, c), Square(r, c + 2), b, false, true)]
    else []
  }

  /** Queenside: three squares left of (r, c) empty, the two next to the
      king not attacked. Offered only when the rook's square c-4 is on the
      board (the engine would index c-1..c-4 with Python's wrap-around). */
  function QueensideCastle(b: Board, w: bool, ep: Option<Square>, r: int, c: int): seq<Move>
    requires OnBoard(r, c) && PawnsInside(b)
  {
    if c - 4 >= 0 && b[r][c - 1] == Empty && b[r][c - 2] == Empty && b[r][c - 3] == Empty &&
       !UnderAttack(b, w, ep, r, c - 1) && !UnderAttack(b, w, ep, r, c - 2)
    then [NewMove(Square(r, c), Square(r, c - 2), b, false, true)]
    else []
  }

  predicate KingsideRight(w: bool, cr: CastleRights) {
    (w && cr.wks) || (!w && cr.bks)
  }

  predicate QueensideRight(w: bool, cr: CastleRights) {
    (w && cr.wqs) || (!w && cr.bqs)
  }

  /** Castles for the king standing on (r, c); the rights and the attack
      tests are those of the side to move, whichever king stands there. */
  function CastleMoves(b: Board, w: bool, ep: Option<Square>, cr: CastleRights, r: int, c: int): seq<Move>
    requires OnBoard(r, c) && PawnsInside(b)
  {
    if UnderAttack(b, w, ep, r, c) then []
    else
      (if KingsideRight(w, cr) then KingsideCastle(b, w, ep, r, c) else []) +
      (if QueensideRight(w, cr) then QueensideCastle(b, w, ep, r, c) else [])
  }

  // ---------------------------------------------------------------------
  // What the generated moves are
  // ---------------------------------------------------------------------

  /** A pseudo-legal move of the side to move: it starts on one of that
      side's pieces and ends on the board, it is built from the board (for an
      en-passant capture: a pawn's diagonal onto the target, taking the pawn
      of the other colour), and it does not end on a piece of the side to
      move, except for an en-passant capture onto the target square. */
  ghost predicate Pseudo(b: Board, w: bool, ep: Option<Square>, m: Move) {
    && OnBoard(m.startRow, m.startCol) && OnBoard(m.endRow, m.endCol)
    && m.pieceMoved == b[m.startRow][m.startCol] && HasColor(m.pieceMoved, Mover(w))
    && !m.isCastleMove
    && m.isPawnPromotion == (IsPawn(m.pieceMoved) && (m.endRow == 0 || m.endRow == 7))
    && (!m.isEnpassant ==> m.pieceCaptured == b[m.endRow][m.endCol] && !HasColor(m.pieceCaptured, Mover(w)))
    && (m.isEnpassant ==>
          && IsPawn(m.pieceMoved) && ep == Some(m.End())
          && m.pieceCaptured == PassedPawn(m.pieceMoved)
          && m.endRow == m.startRow + Forward(w)
          && (m.endCol == m.startCol - 1 || m.endCol == m.startCol + 1))
  }

  lemma {:induction false} PawnCapturesPseudo(b: Board, w: bool, ep: Option<Square>, r: int, c: int, dcs: seq<int>)
    requires OnBoard(r, c) && 1 <= r <= 6 && HasColor(b[r][c], Mover(w)) && IsPawn(b[r][c])
    requires forall k :: 0 <= k < |dcs| ==> dcs[k] == -1 || dcs[k] == 1
    ensures forall m :: m in PawnCaptures(b, w, ep, r, c, dcs) ==> Pseudo(b, w, ep, m) && m.Start() == Square(r, c)
    decreases |dcs|
  {
    if dcs != [] {
      PawnCapturesPseudo(b, w, ep, r, c, dcs[..|dcs| - 1]);
    }
  }

  lemma {:induction false} OffsetMovesPseudo(b: Board, w: bool, r: int, c: int, offs: seq<(int, int)>, ep: Option<Square>)
    requires OnBoard(r, c) && HasColor(b[r][c], Mover(w)) && !IsPawn(b[r][c])
    ensures forall m :: m in OffsetMoves(b, w, r, c, offs) ==> Pseudo(b, w, ep, m) && m.Start() == Square(r, c)
    decreases |offs|
  {
    if offs != [] {
      OffsetMovesPseudo(b, w, r, c, offs[..|offs| - 1], ep);
    }
  }

  lemma {:induction false} RayPseudo(b: Board, w: bool, r: int, c: int, dr: int, dc: int, i: int, ep: Option<Square>)
    requires OnBoard(r, c) && 1 <= i && HasColor(b[r][c], Mover(w)) && !IsPawn(b[r][c])
    ensures forall m :: m in Ray(b, w, r, c, dr, dc, i) ==> Pseudo(b, w, ep, m) && m.Start() == Square(r, c)
    decreases 8 - i
  {
    if i < 8 && OnBoard(r + dr * i, c + dc * i) && b[r + dr * i][c + dc * i] == Empty {
      RayPseudo(b, w, r, c, dr, dc, i + 1, ep);
    }
  }

  lemma {:induction false} SlidingMovesPseudo(b: Board, w: bool, r: int, c: int, dirs: seq<(int, int)>, ep: Option<Square>)
    requires OnBoard(r, c) && HasColor(b[r][c], Mover(w)) && !IsPawn(b[r][c])
    ensures forall m :: m in SlidingMoves(b, w, r, c, dirs) ==> Pseudo(b, w, ep, m) && m.Start() == Square(r, c)
    decreases |dirs|
  {
    if dirs != [] {
      SlidingMovesPseudo(b, w, r, c, dirs[..|dirs| - 1], ep);
      RayPseudo(b, w, r, c, dirs[|dirs| - 1].0, dirs[|dirs| - 1].1, 1, ep);
    }
  }

  lemma SquareMovesPseudo(b: Board, w: bool, ep: Option<Square>, r: int, c: int)
    requires OnBoard(r, c) && PawnsInside(b)
    ensures forall m :: m in SquareMoves(b, w, ep, r, c) ==> Pseudo(b, w, ep, m) && m.Start() == Square(r, c)
  {
    if HasColor(b[r][c], Mover(w)) {
      if b[r][c].kind == Pawn {
        PawnCapturesPseudo(b, w, ep, r, c, PawnCaptureCols);
      } else {
        OfficerMovesPseudo(b, w, ep, r, c);
      }
    }
  }

  lemma OfficerMovesPseudo(b: Board, w: bool, ep: Option<Square>, r: int, c: int)
    requires OnBoard(r, c) && PawnsInside(b) && HasColor(b[r][c], Mover(w)) && b[r][c].kind != Pawn
    ensures forall m :: m in PieceMoves(b, w, ep, r, c) ==> Pseudo(b, w, ep, m) && m.Start() == Square(r, c)
  {
    match b[r][c].kind
    case Rook => SlidingMovesPseudo(b, w, r, c, RookDirections, ep);
    case Knight => OffsetMovesPseudo(b, w, r, c, KnightOffsets, ep);
    case Bishop => SlidingMovesPseudo(b, w, r, c, BishopDirections, ep);
    case Queen =>
      SlidingMovesPseudo(b, w, r, c, RookDirections, ep);
      SlidingMovesPseudo(b, w, r, c, BishopDirections, ep);
    case King => OffsetMovesPseudo(b, w, r, c, KingOffsets, ep);
  }

  lemma {:induction false} MovesUpToPseudo(b: Board, w: bool, ep: Option<Square>, k: int)
    requires 0 <= k <= 64 && PawnsInside(b)
    ensures forall m :: m in MovesUpTo(b, w, ep, k) ==> Pseudo(b, w, ep, m)
    decreases k
  {
    if k > 0 {
      MovesUpToPseudo(b, w, ep, k - 1);
      SquareMovesPseudo(b, w, ep, (k - 1) / 8, (k - 1) % 8);
    }
  }

  /** Every pseudo-legal move starts on a piece of the side to move, ends on
      the board and is well formed; unless the en-passant target holds a piece
      of the side to move, no move ends on a piece of that side. */
  lemma AllMovesPseudo(b: Board, w: bool, ep: Option<Square>)
    requires PawnsInside(b)
    ensures forall m :: m in AllMoves(b, w, ep) ==> Pseudo(b, w, ep, m) && WellFormed(m)
    ensures (ep.Some? && InBounds(ep.value) ==> !HasColor(b[ep.value.row][ep.value.col], Mover(w))) ==>
      forall m :: m in AllMoves(b, w, ep) ==> OnBoard(m.endRow, m.endCol) && !HasColor(b[m.endRow][m.endCol], Mover(w))
  {
    MovesUpToPseudo(b, w, ep, 64);
  }

  // ---------------------------------------------------------------------
  // The shape of each piece's moves
  // ---------------------------------------------------------------------

  /** Each pawn push goes straight ahead onto an empty square, the two-row
      step only from the home row (6 for white, 1 for black) and over an
      empty square; and both are generated whenever those squares are empty. */
  lemma PawnPushesShape(b: Board, w: bool, r: int, c: int)
    requires OnBoard(r, c) && 1 <= r <= 6
    ensures forall m :: m in PawnPushes(b, w, r, c) ==>
      && m == Plain(b, r, c, m.endRow, c) && b[m.endRow][c] == Empty
      && (m.endRow == r + Forward(w) ||
          (m.endRow == r + 2 * Forward(w) && r == HomeRow(w) && b[r + Forward(w)][c] == Empty))
    ensures b[r + Forward(w)][c] == Empty ==> Plain(b, r, c, r + Forward(w), c) in PawnPushes(b, w, r, c)
    ensures r == HomeRow(w) && b[r + Forward(w)][c] == Empty && b[r + 2 * Forward(w)][c] == Empty ==>
      Plain(b, r, c, r + 2 * Forward(w), c) in PawnPushes(b, w, r, c)
  {
  }

  /** A pawn's moves are its pushes, then its capture to the left, then its
      capture to the right. */
  lemma PawnMovesOrder(b: Board, w: bool, ep: Option<Square>, r: int, c: int)
    requires OnBoard(r, c) && 1 <= r <= 6
    ensures PawnMoves(b, w, ep, r, c) ==
      PawnPushes(b, w, r, c) + PawnCapture(b, w, ep, r, c, -1) + PawnCapture(b, w, ep, r, c, 1)
  {
    assert PawnCaptureCols[..1] == [-1];
    assert [-1][..0] == [];
    assert PawnCaptures(b, w, ep, r, c, [-1]) == PawnCapture(b, w, ep, r, c, -1);
  }

  /** Knight and king jumps: a move is generated exactly for each offset that
      lands on the board and not on a piece of the side to move. */
  lemma {:induction false} OffsetMovesExactly(b: Board, w: bool, r: int, c: int, offs: seq<(int, int)>)
    requires OnBoard(r, c)
    ensures forall m :: m in OffsetMoves(b, w, r, c, offs) <==>
      exists o :: o in offs && OnBoard(r + o.0, c + o.1) && !HasColor(b[r + o.0][c + o.1], Mover(w)) &&
                  m == Plain(b, r, c, r + o.0, c + o.1)
    decreases |offs|
  {
    if offs != [] {
      var init, last := offs[..|offs| - 1], offs[|offs| - 1];
      OffsetMovesExactly(b, w, r, c, init);
      assert offs == init + [last];
      forall m | m in OffsetMoves(b, w, r, c, offs)
        ensures exists o :: o in offs && OnBoard(r + o.0, c + o.1) && !HasColor(b[r + o.0][c + o.1], Mover(w)) &&
                            m == Plain(b, r, c, r + o.0, c + o.1)
      {
        if m !in OffsetMoves(b, w, r, c, init) {
          assert last in offs;
        }
      }
    }
  }

  /** Where a ray from its i-th square on goes next after its last move, or
      where it starts when it has none. */
  function RayNext(R: seq<Move>, r: int, c: int, dr: int, dc: int, i: int): Square {
    if R == [] then Square(r + dr * i, c + dc * i)
    else Square(R[|R| - 1].endRow + dr, R[|R| - 1].endCol + dc)
  }

  /** Every move of a ray is a plain move onto an empty square or onto an
      enemy piece, every move but the last onto an empty square (the ray
      stops at the first occupied square), and the ray has at most one move
      per remaining step. */
  lemma {:induction false} RayCells(b: Board, w: bool, r: int, c: int, dr: int, dc: int, i: int)
    requires OnBoard(r, c) && 1 <= i
    ensures var R := Ray(b, w, r, c, dr, dc, i);
      && |R| <= (if i >= 8 then 0 else 8 - i)
      && (forall j :: 0 <= j < |R| ==>
            && OnBoard(R[j].endRow, R[j].endCol)
            && R[j] == Plain(b, r, c, R[j].endRow, R[j].endCol)
            && (b[R[j].endRow][R[j].endCol] == Empty || HasColor(b[R[j].endRow][R[j].endCol], Opponent(Mover(w)))))
      && (forall j :: 0 <= j < |R| - 1 ==> b[R[j].endRow][R[j].endCol] == Empty)
    decreases 8 - i
  {
    var er, ec := r + dr * i, c + dc * i;
    if i < 8 && OnBoard(er, ec) && b[er][ec] == Empty {
      RayCells(b, w, r, c, dr, dc, i + 1);
      var R, R' := Ray(b, w, r, c, dr, dc, i), Ray(b, w, r, c, dr, dc, i + 1);
      assert R == [Plain(b, r, c, er, ec)] + R';
      forall j | 0 < j < |R|
        ensures R[j] == R'[j - 1]
      {
      }
    }
  }

  /** A ray walks in steps of (dr, dc) from its i-th square. */
  lemma {:induction false} RaySteps(b: Board, w: bool, r: int, c: int, dr: int, dc: int, i: int)
    requires OnBoard(r, c) && 1 <= i
    ensures var R := Ray(b, w, r, c, dr, dc, i);
      && (|R| > 0 ==> R[0].endRow == r + dr * i && R[0].endCol == c + dc * i)
      && forall j :: 0 <= j < |R| - 1 ==>
           R[j + 1].endRow == R[j].endRow + dr && R[j + 1].endCol == R[j].endCol + dc
    decreases 8 - i
  {
    var er, ec := r + dr * i, c + dc * i;
    if i < 8 && OnBoard(er, ec) && b[er][ec] == Empty {
      RaySteps(b, w, r, c, dr, dc, i + 1);
      var R, R' := Ray(b, w, r, c, dr, dc, i), Ray(b, w, r, c, dr, dc, i + 1);
      assert R == [Plain(b, r, c, er, ec)] + R';
      assert R[0].endRow == er && R[0].endCol == ec;
      if |R'| > 0 {
        assert R'[0].endRow == er + dr && R'[0].endCol == ec + dc by {
          assert r + dr * (i + 1) == er + dr && c + dc * (i + 1) == ec + dc;
        }
      }
      forall j | 0 <= j < |R| - 1
        ensures R[j + 1].endRow == R[j].endRow + dr && R[j + 1].endCol == R[j].endCol + dc
      {
        if j > 0 {
          assert R[j] == R'[j - 1] && R[j + 1] == R'[j];
        }
      }
    }
  }

  lemma NextStep(r: int, dr: int, i: int)
    ensures r + dr * (i + 1) == (r + dr * i) + dr
  {
  }

  /** The ray R from step i on, whose next square would be n, stopped for
      a reason: when it is empty or ends on an empty square, it has run into
      the board edge, a piece of the side to move, or its seventh step. */
  predicate RayStopped(b: Board, w: bool, R: seq<Move>, n: Square, i: int) {
    (R == [] || (OnBoard(R[|R| - 1].endRow, R[|R| - 1].endCol) && b[R[|R| - 1].endRow][R[|R| - 1].endCol] == Empty)) ==>
      (i + |R| >= 8 || !InBounds(n) || HasColor(b[n.row][n.col], Mover(w)))
  }

  /** A ray that is empty or ends on an empty square has run into the board
      edge, a piece of the side to move, or its seventh step. */
  lemma {:induction false} RayEnd(b: Board, w: bool, r: int, c: int, dr: int, dc: int, i: int)
    requires OnBoard(r, c) && 1 <= i
    ensures var R := Ray(b, w, r, c, dr, dc, i); RayStopped(b, w, R, RayNext(R, r, c, dr, dc, i), i)
    decreases 8 - i
  {
    var er, ec := r + dr * i, c + dc * i;
    var R := Ray(b, w, r, c, dr, dc, i);
    if i < 8 && OnBoard(er, ec) && b[er][ec] == Empty {
      RayEnd(b, w, r, c, dr, dc, i + 1);
      RayEndOnEmpty(b, w, r, c, dr, dc, i);
    } else if i < 8 && OnBoard(er, ec) {
      if HasColor(b[er][ec], Opponent(Mover(w))) {
        assert R == [Plain(b, r, c, er, ec)];
      } else {
        assert R == [];
      }
    } else {
      assert R == [];
    }
  }

  /** The step of `RayEnd` over an empty square: the ray from step i is
      that square's move followed by the ray from step i + 1. */
  lemma RayEndOnEmpty(b: Board, w: bool, r: int, c: int, dr: int, dc: int, i: int)
    requires OnBoard(r, c) && 1 <= i < 8
    requires OnBoard(r + dr * i, c + dc * i) && b[r + dr * i][c + dc * i] == Empty
    requires var R' := Ray(b, w, r, c, dr, dc, i + 1); RayStopped(b, w, R', RayNext(R', r, c, dr, dc, i + 1), i + 1)
    ensures var R := Ray(b, w, r, c, dr, dc, i); RayStopped(b, w, R, RayNext(R, r, c, dr, dc, i), i)
  {
    var er, ec := r + dr * i, c + dc * i;
    var R, R' := Ray(b, w, r, c, dr, dc, i), Ray(b, w, r, c, dr, dc, i + 1);
    assert R == [Plain(b, r, c, er, ec)] + R';
    NextStep(r, dr, i);
    NextStep(c, dc, i);
    if R' != [] {
      assert R[|R| - 1] == R'[|R'| - 1];
    }
    assert RayNext(R, r, c, dr, dc, i) == RayNext(R', r, c, dr, dc, i + 1);
    StoppedCons(b, w, Plain(b, r, c, er, ec), R', RayNext(R', r, c, dr, dc, i + 1), i);
  }

  /** A stopped ray stays stopped with one more move onto an empty square
      in front of it. */
  lemma StoppedCons(b: Board, w: bool, x: Move, R: seq<Move>, n: Square, i: int)
    requires RayStopped(b, w, R, n, i + 1)
    requires OnBoard(x.endRow, x.endCol) && b[x.endRow][x.endCol] == Empty
    ensures RayStopped(b, w, [x] + R, n, i)
  {
    if R != [] {
      assert ([x] + R)[|R|] == R[|R| - 1];
    }
  }

  // ---------------------------------------------------------------------
  // Castle records
  // ---------------------------------------------------------------------

  /** The castle record from (r, c) to column ec of the same row. */
  function CastleTo(b: Board, r: int, c: int, ec: int): Move
    requires OnBoard(r, c) && OnBoard(r, ec)
  {
    NewMove(Square(r, c), Square(r, ec), b, false, true)
  }

  /** A castle record moves the piece on (r, c) two columns along the row
      onto an empty square it does not capture, and is no en-passant capture
      and no promotion. */
  lemma CastleRecord(b: Board, r: int, c: int, ec: int)
    requires OnBoard(r, c) && OnBoard(r, ec) && PawnsInside(b) && b[r][ec] == Empty
    requires (ec == c + 2 && ec + 1 < 8) || (ec == c - 2 && ec - 2 >= 0)
    ensures var m := CastleTo(b, r, c, ec);
      && m.isCastleMove && !m.isEnpassant && !m.isPawnPromotion
      && m.Start() == Square(r, c) && m.End() == Square(r, ec)
      && m.pieceMoved == b[r][c] && m.pieceCaptured == Empty
      && WellFormed(m)
  {
  }
}
