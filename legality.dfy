/** Legal moves (`GameState.get_valid_moves`): the pseudo-legal moves and the
    castles, filtered by playing each one on the position, asking whether
    the mover's king is attacked, and taking it back; then the checkmate and
    stalemate flags. All of it as functions of a `Position`. */
module Legality {
  import opened Pieces
  import opened Moves
  import opened Castling
  import opened Plies
  import opened Generation
  import opened Distinctness

  predicate AllWellFormed(ms: seq<Move>) {
    forall m :: m in ms ==> WellFormed(m)
  }

  function FlipTurn(p: Position): Position {
    p.(whiteToMove := !p.whiteToMove)
  }

  /** The cached square of the king of the side to move. */
  function KingOf(p: Position): Square {
    if p.whiteToMove then p.whiteKingPos else p.blackKingPos
  }

  /** `in_check()`: the other side attacks the king of the side to move. */
  predicate InCheck(p: Position)
    requires ValidPosition(p)
  {
    UnderAttack(p.board, p.whiteToMove, p.enpassantPossible, KingOf(p).row, KingOf(p).col)
  }

  // ---------------------------------------------------------------------
  // Candidates (lines 148-152)
  // ---------------------------------------------------------------------

  /** The pseudo-legal moves, then the castles generated from the white
      king's square, then those generated from the black king's square. */
  function Candidates(p: Position): (ms: seq<Move>)
    requires ValidPosition(p)
    ensures AllWellFormed(ms)
  {
    var b, w, ep, cr := p.board, p.whiteToMove, p.enpassantPossible, p.currentCastlingRights;
    AllMovesPseudo(b, w, ep);
    CastleMovesFacts(b, w, ep, cr, p.whiteKingPos.row, p.whiteKingPos.col);
    CastleMovesFacts(b, w, ep, cr, p.blackKingPos.row, p.blackKingPos.col);
    AllMoves(b, w, ep) +
    CastleMoves(b, w, ep, cr, p.whiteKingPos.row, p.whiteKingPos.col) +
    CastleMoves(b, w, ep, cr, p.blackKingPos.row, p.blackKingPos.col)
  }

  /** A castle from (r, c) is a well-formed record that can be taken back:
      it moves the piece on (r, c) two columns along its row onto an empty
      square, over an empty square. */
  lemma CastleMovesFacts(b: Board, w: bool, ep: Option<Square>, cr: CastleRights, r: int, c: int)
    requires OnBoard(r, c) && PawnsInside(b)
    ensures forall m :: m in CastleMoves(b, w, ep, cr, r, c) ==> CastleFact(b, r, c, m)
    ensures Distinct(CastleMoves(b, w, ep, cr, r, c))
  {
    var kOn, qOn := CastleSides(b, w, ep, cr, r, c);
    var K := if kOn then [CastleTo(b, r, c, c + 2)] else [];
    var Q := if qOn then [CastleTo(b, r, c, c - 2)] else [];
    CastlePair(b, r, c, K, Q);
  }

  /** The castles from (r, c) as at most one kingside and one queenside
      record, each over empty squares. */
  lemma CastleSides(b: Board, w: bool, ep: Option<Square>, cr: CastleRights, r: int, c: int)
    returns (kOn: bool, qOn: bool)
    requires OnBoard(r, c) && PawnsInside(b)
    ensures kOn ==> c + 2 < 8 && CastleFact(b, r, c, CastleTo(b, r, c, c + 2)) && CastleTo(b, r, c, c + 2).endCol == c + 2
    ensures qOn ==> c - 2 >= 0 && CastleFact(b, r, c, CastleTo(b, r, c, c - 2)) && CastleTo(b, r, c, c - 2).endCol == c - 2
    ensures CastleMoves(b, w, ep, cr, r, c) ==
      (if kOn then [CastleTo(b, r, c, c + 2)] else []) + (if qOn then [CastleTo(b, r, c, c - 2)] else [])
  {
    if UnderAttack(b, w, ep, r, c) {
      kOn, qOn := false, false;
    } else {
      kOn := KingsideSide(b, w, ep, cr, r, c);
      qOn := QueensideSide(b, w, ep, cr, r, c);
    }
  }

  /** The kingside part of the castles from an unattacked (r, c). */
  lemma KingsideSide(b: Board, w: bool, ep: Option<Square>, cr: CastleRights, r: int, c: int) returns (kOn: bool)
    requires OnBoard(r, c) && PawnsInside(b)
    ensures kOn ==> c + 2 < 8 && CastleFact(b, r, c, CastleTo(b, r, c, c + 2)) && CastleTo(b, r, c, c + 2).endCol == c + 2
    ensures (if KingsideRight(w, cr) then KingsideCastle(b, w, ep, r, c) else []) ==
      (if kOn then [CastleTo(b, r, c, c + 2)] else [])
  {
    kOn := KingsideRight(w, cr) && KingsideCastle(b, w, ep, r, c) != [];
    if kOn {
      CastleSideFact(b, r, c, c + 2);
    }
  }

  /** The queenside part of the castles from an unattacked (r, c). */
  lemma QueensideSide(b: Board, w: bool, ep: Option<Square>, cr: CastleRights, r: int, c: int) returns (qOn: bool)
    requires OnBoard(r, c) && PawnsInside(b)
    ensures qOn ==> c - 2 >= 0 && CastleFact(b, r, c, CastleTo(b, r, c, c - 2)) && CastleTo(b, r, c, c - 2).endCol == c - 2
    ensures (if QueensideRight(w, cr) then QueensideCastle(b, w, ep, r, c) else []) ==
      (if qOn then [CastleTo(b, r, c, c - 2)] else [])
  {
    qOn := QueensideRight(w, cr) && QueensideCastle(b, w, ep, r, c) != [];
    if qOn {
      CastleSideFact(b, r, c, c - 2);
    }
  }

  /** A castle record over an empty square next to the king, onto an empty
      square, is one `CastleFact` describes. */
  lemma CastleSideFact(b: Board, r: int, c: int, ec: int)
    requires OnBoard(r, c) && OnBoard(r, ec) && PawnsInside(b) && b[r][ec] == Empty
    requires (ec == c + 2 && ec + 1 < 8 && b[r][c + 1] == Empty) || (ec == c - 2 && ec - 2 >= 0 && b[r][c - 1] == Empty)
    ensures CastleFact(b, r, c, CastleTo(b, r, c, ec)) && CastleTo(b, r, c, ec).endCol == ec
  {
    CastleRecord(b, r, c, ec);
  }

  /** What a castle generated from (r, c) is: a well-formed record that can
      be taken back, moving the piece on (r, c) two columns along its row. */
  ghost predicate CastleFact(b: Board, r: int, c: int, m: Move) {
    && WellFormed(m) && Undoable(b, m) && m.Start() == Square(r, c)
    && m.endRow == r && (m.endCol == c + 2 || m.endCol == c - 2) && !m.isEnpassant
    && m.pieceMoved == b[r][c]
  }

  lemma CastlePair(b: Board, r: int, c: int, K: seq<Move>, Q: seq<Move>)
    requires |K| <= 1 && |Q| <= 1
    requires forall m :: m in K ==> CastleFact(b, r, c, m) && m.endCol == c + 2
    requires forall m :: m in Q ==> CastleFact(b, r, c, m) && m.endCol == c - 2
    ensures forall m :: m in K + Q ==> CastleFact(b, r, c, m)
    ensures Distinct(K + Q)
  {
  }

  // ---------------------------------------------------------------------
  // list.remove (line 159)
  // ---------------------------------------------------------------------

  lemma RemoveFirstTail(ms: seq<Move>, x: Move)
    requires exists k :: 0 <= k < |ms| && SameMove(ms[k], x)
    requires !SameMove(ms[0], x)
    ensures exists k :: 0 <= k < |ms[1..]| && SameMove(ms[1..][k], x)
  {
    var k :| 0 <= k < |ms| && SameMove(ms[k], x);
    assert ms[1..][k - 1] == ms[k];
  }

  /** `moves.remove(x)`: deletes the first move equal to x in the sense of
      `Move.__eq__` (same start and end squares). */
  function RemoveFirst(ms: seq<Move>, x: Move): (r: seq<Move>)
    requires exists k :: 0 <= k < |ms| && SameMove(ms[k], x)
    ensures |r| == |ms| - 1
    ensures forall m :: m in r ==> m in ms
  {
    if SameMove(ms[0], x) then ms[1..]
    else
      RemoveFirstTail(ms, x);
      [ms[0]] + RemoveFirst(ms[1..], x)
  }

  /** When the first move equal to x is at index k, `remove` deletes index k. */
  lemma {:induction false} RemoveFirstAt(ms: seq<Move>, x: Move, k: int)
    requires 0 <= k < |ms| && SameMove(ms[k], x)
    requires forall j :: 0 <= j < k ==> !SameMove(ms[j], x)
    ensures RemoveFirst(ms, x) == ms[..k] + ms[k + 1..]
    decreases k
  {
    if k > 0 {
      assert ms[1..][k - 1] == ms[k];
      RemoveFirstAt(ms[1..], x, k - 1);
      assert ms[..k] == [ms[0]] + ms[1..][..k - 1];
      assert ms[k + 1..] == ms[1..][k..];
    }
  }

  // ---------------------------------------------------------------------
  // The filter (lines 155-161)
  // ---------------------------------------------------------------------

  /** The position `in_check` is asked about in the filter: the move made,
      and the turn handed back to the side that made it. */
  function Probe(p: Position, m: Move): (q: Position)
    requires ValidPosition(p) && WellFormed(m)
    ensures ValidPosition(q)
  {
    FlipTurn(MakeMove(p, m))
  }

  /** A move that does not leave the mover's own king attacked. */
  predicate Safe(p: Position, m: Move)
    requires ValidPosition(p) && WellFormed(m)
  {
    !InCheck(Probe(p, m))
  }

  /** The loop from index i - 1 down to 0: make the move, flip the turn,
      remove the move if the king is in check, flip back, undo. */
  function FilterFrom(p: Position, ms: seq<Move>, i: int): (res: (Position, seq<Move>))
    requires ValidPosition(p) && 0 <= i <= |ms| && AllWellFormed(ms)
    ensures ValidPosition(res.0) && AllWellFormed(res.1)
    decreases i
  {
    if i == 0 then (p, ms)
    else
      var m := ms[i - 1];
      var q := Probe(p, m);
      assert SameMove(ms[i - 1], m);
      var ms' := if InCheck(q) then RemoveFirst(ms, m) else ms;
      FilterFrom(UndoMove(FlipTurn(q)), ms', i - 1)
  }

  /** The en-passant target after a move is made and taken back in the
      filter. */
  function ProbeEp(m: Move): Option<Square> {
    if m.isEnpassant then Some(m.End()) else EpAfterMake(m)
  }

  /** The end of `get_valid_moves`, after the loop has left q and ms: set
      checkmate (when `check`) or stalemate when no move is left, clear both
      otherwise, and put back p's en-passant target and castling rights. */
  function Conclude(p: Position, q: Position, ms: seq<Move>, check: bool): (r: Position)
    requires ValidPosition(q) && q.moveLog == p.moveLog && q.castleRightsLog == p.castleRightsLog
    requires q.currentCastlingRights == p.currentCastlingRights
    ensures ValidPosition(r)
    ensures r.board == q.board && r.whiteToMove == q.whiteToMove && r.moveLog == q.moveLog
    ensures r.whiteKingPos == q.whiteKingPos && r.blackKingPos == q.blackKingPos
    ensures r.castleRightsLog == q.castleRightsLog && r.currentCastlingRights == p.currentCastlingRights
    ensures r.enpassantPossible == p.enpassantPossible
    ensures ms != [] ==> !r.checkmate && !r.stalemate
    ensures ms == [] && check ==> r.checkmate && r.stalemate == q.stalemate
    ensures ms == [] && !check ==> r.stalemate && r.checkmate == q.checkmate
  {
    var q' :=
      if ms == [] then
        if check then q.(checkmate := true) else q.(stalemate := true)
      else q.(checkmate := false, stalemate := false);
    q'.(enpassantPossible := p.enpassantPossible, currentCastlingRights := p.currentCastlingRights)
  }

  /** `get_valid_moves()`: the position it leaves behind and the list it
      returns. */
  function ValidMoves(p: Position): (res: (Position, seq<Move>))
    requires ValidPosition(p)
    ensures ValidPosition(res.0) && AllWellFormed(res.1)
  {
    var cands := Candidates(p);
    FilterFromKeeps(p, cands, |cands|);
    var (q, ms) := FilterFrom(p, cands, |cands|);
    (Conclude(p, q, ms, InCheck(q)), ms)
  }

  // ---------------------------------------------------------------------
  // What the filter keeps
  // ---------------------------------------------------------------------

  /** The safe moves of ms, in their order. */
  function KeepSafe(p: Position, ms: seq<Move>): seq<Move>
    requires ValidPosition(p) && AllWellFormed(ms)
    decreases |ms|
  {
    if ms == [] then []
    else
      var last := ms[|ms| - 1];
      KeepSafe(p, ms[..|ms| - 1]) + (if Safe(p, last) then [last] else [])
  }

  /** A move is kept exactly when it is among the moves and safe. */
  lemma {:induction false} KeepSafeExactly(p: Position, ms: seq<Move>)
    requires ValidPosition(p) && AllWellFormed(ms)
    ensures forall m :: m in KeepSafe(p, ms) <==> m in ms && WellFormed(m) && Safe(p, m)
    decreases |ms|
  {
    if ms != [] {
      var init := ms[..|ms| - 1];
      KeepSafeExactly(p, init);
      assert ms == init + [ms[|ms| - 1]];
    }
  }

  /** Safety does not depend on the en-passant target before the move:
      `make_move` replaces it. */
  lemma {:induction false} KeepSafeIgnoresEp(p: Position, e: Option<Square>, ms: seq<Move>)
    requires ValidPosition(p) && AllWellFormed(ms)
    ensures KeepSafe(p.(enpassantPossible := e), ms) == KeepSafe(p, ms)
    decreases |ms|
  {
    if ms != [] {
      KeepSafeIgnoresEp(p, e, ms[..|ms| - 1]);
      SafeIgnoresEp(p, e, ms[|ms| - 1]);
    }
  }

  lemma SafeIgnoresEp(p: Position, e: Option<Square>, m: Move)
    requires ValidPosition(p) && WellFormed(m)
    ensures Safe(p.(enpassantPossible := e), m) == Safe(p, m)
  {
    assert MakeMove(p.(enpassantPossible := e), m) == MakeMove(p, m);
  }

  /** Every move that can be taken back on the position. */
  ghost predicate Reversible(p: Position, ms: seq<Move>)
    requires AllWellFormed(ms)
  {
    forall m :: m in ms ==> Undoable(p.board, m) && FromCachedKing(p, m)
  }

  /** One turn of the loop, on a move that can be taken back: the position
      comes back with the move's target, and the move is removed when it is
      not safe. */
  lemma FilterFromStep(p: Position, ms: seq<Move>, i: int)
    requires ValidPosition(p) && 0 < i <= |ms| && AllWellFormed(ms)
    requires Undoable(p.board, ms[i - 1]) && FromCachedKing(p, ms[i - 1])
    ensures exists k :: 0 <= k < |ms| && SameMove(ms[k], ms[i - 1])
    ensures FilterFrom(p, ms, i) ==
      FilterFrom(p.(enpassantPossible := ProbeEp(ms[i - 1])),
                 if Safe(p, ms[i - 1]) then ms else RemoveFirst(ms, ms[i - 1]), i - 1)
  {
    var m := ms[i - 1];
    assert SameMove(ms[i - 1], m);
    assert FlipTurn(Probe(p, m)) == MakeMove(p, m);
    UndoAfterMake(p, m);
  }

  /** On distinct moves, `remove` of a move deletes that move and leaves
      distinct moves. */
  lemma RemoveFirstOfDistinct(A: seq<Move>, m: Move, B: seq<Move>)
    requires Distinct(A + [m] + B)
    ensures exists k :: 0 <= k < |A + [m] + B| && SameMove((A + [m] + B)[k], m)
    ensures RemoveFirst(A + [m] + B, m) == A + B && Distinct(A + B)
  {
    var ms := A + [m] + B;
    assert ms[|A|] == m;
    SameMoveEquivalence(m, m, m);
    forall j | 0 <= j < |A|
      ensures !SameMove(ms[j], m)
    {
      assert ms[j] == A[j];
    }
    RemoveFirstAt(ms, m, |A|);
    assert ms[..|A|] == A && ms[|A| + 1..] == B;
    DistinctDrop(A, m, B);
  }

  /** When every move can be taken back and no two are equal, each turn of
      the loop gives the position back (up to the en-passant target) and
      `remove` deletes exactly the move just tried, so the loop keeps the
      safe ones among the moves it visits. */
  lemma {:induction false} FilterFromReversible(p: Position, A: seq<Move>, B: seq<Move>)
    requires ValidPosition(p) && AllWellFormed(A + B) && Reversible(p, A) && Distinct(A + B)
    ensures AllWellFormed(A) && AllWellFormed(B)
    ensures FilterFrom(p, A + B, |A|) ==
      (if A == [] then p else p.(enpassantPossible := ProbeEp(A[0])), KeepSafe(p, A) + B)
    decreases |A|, 1
  {
    WellFormedParts(A, B);
    if A != [] {
      if Safe(p, A[|A| - 1]) {
        FilterKeepsLast(p, A, B);
      } else {
        FilterDropsLast(p, A, B);
      }
    }
  }

  /** The target the loop leaves after visiting the moves of A, last to
      first, is that of the first one. */
  lemma TargetOfFirst(p: Position, A: seq<Move>)
    requires |A| > 0
    ensures var p1 := p.(enpassantPossible := ProbeEp(A[|A| - 1]));
      (if A[..|A| - 1] == [] then p1 else p1.(enpassantPossible := ProbeEp(A[..|A| - 1][0])))
        == p.(enpassantPossible := ProbeEp(A[0]))
  {
  }

  lemma {:induction false} FilterKeepsLast(p: Position, A: seq<Move>, B: seq<Move>)
    requires ValidPosition(p) && AllWellFormed(A + B) && Reversible(p, A) && Distinct(A + B)
    requires A != [] && AllWellFormed(A) && AllWellFormed(B) && Safe(p, A[|A| - 1])
    ensures FilterFrom(p, A + B, |A|) == (p.(enpassantPossible := ProbeEp(A[0])), KeepSafe(p, A) + B)
    decreases |A|, 0
  {
    var init, m := A[..|A| - 1], A[|A| - 1];
    var p1 := p.(enpassantPossible := ProbeEp(m));
    SplitLast(A, B);
    FilterFromStep(p, A + B, |A|);
    ReversibleInit(p, ProbeEp(m), A);
    KeepSafeIgnoresEp(p, ProbeEp(m), init);
    TargetOfFirst(p, A);
    assert KeepSafe(p, A) == KeepSafe(p, init) + [m];
    FilterFromReversible(p1, init, [m] + B);
    AppendAssoc(KeepSafe(p, init), [m], B);
  }

  lemma {:induction false} FilterDropsLast(p: Position, A: seq<Move>, B: seq<Move>)
    requires ValidPosition(p) && AllWellFormed(A + B) && Reversible(p, A) && Distinct(A + B)
    requires A != [] && AllWellFormed(A) && AllWellFormed(B) && !Safe(p, A[|A| - 1])
    ensures FilterFrom(p, A + B, |A|) == (p.(enpassantPossible := ProbeEp(A[0])), KeepSafe(p, A) + B)
    decreases |A|, 0
  {
    var init, m := A[..|A| - 1], A[|A| - 1];
    var p1 := p.(enpassantPossible := ProbeEp(m));
    SplitLast(A, B);
    FilterFromStep(p, A + B, |A|);
    ReversibleInit(p, ProbeEp(m), A);
    KeepSafeIgnoresEp(p, ProbeEp(m), init);
    TargetOfFirst(p, A);
    assert KeepSafe(p, A) == KeepSafe(p, init) + [];
    RemoveFirstOfDistinct(init, m, B);
    FilterFromReversible(p1, init, B);
    AppendAssoc(KeepSafe(p, init), [], B);
  }

  lemma AppendAssoc(a: seq<Move>, b: seq<Move>, c: seq<Move>)
    ensures (a + b) + c == a + (b + c) && a + [] == a
  {
  }

  lemma WellFormedParts(A: seq<Move>, B: seq<Move>)
    requires AllWellFormed(A + B)
    ensures AllWellFormed(A) && AllWellFormed(B)
  {
    assert forall m :: m in A ==> m in A + B;
    assert forall m :: m in B ==> m in A + B;
  }

  lemma SplitLast(A: seq<Move>, B: seq<Move>)
    requires A != []
    ensures A + B == A[..|A| - 1] + ([A[|A| - 1]] + B) == A[..|A| - 1] + [A[|A| - 1]] + B
    ensures (A + B)[|A| - 1] == A[|A| - 1]
    ensures |A| > 1 ==> A[..|A| - 1][0] == A[0]
  {
    assert A == A[..|A| - 1] + [A[|A| - 1]];
  }

  lemma ReversibleInit(p: Position, e: Option<Square>, A: seq<Move>)
    requires A != [] && AllWellFormed(A) && Reversible(p, A)
    ensures AllWellFormed(A[..|A| - 1]) && Reversible(p.(enpassantPossible := e), A[..|A| - 1])
  {
    var q, init := p.(enpassantPossible := e), A[..|A| - 1];
    forall m | m in init
      ensures WellFormed(m) && Undoable(q.board, m) && FromCachedKing(q, m)
    {
      assert m in A;
    }
  }

  /** The loop keeps the turn, both logs, the castling rights and the two
      flags, whatever the moves do to the board. */
  lemma {:induction false} FilterFromKeeps(p: Position, ms: seq<Move>, i: int)
    requires ValidPosition(p) && 0 <= i <= |ms| && AllWellFormed(ms)
    ensures var q := FilterFrom(p, ms, i).0;
      && q.whiteToMove == p.whiteToMove && q.moveLog == p.moveLog
      && q.castleRightsLog == p.castleRightsLog && q.currentCastlingRights == p.currentCastlingRights
      && q.checkmate == p.checkmate && q.stalemate == p.stalemate
    decreases i
  {
    if i > 0 {
      var m := ms[i - 1];
      var q := Probe(p, m);
      var p1 := UndoMove(FlipTurn(q));
      assert FlipTurn(q) == MakeMove(p, m);
      assert MakeMove(p, m).moveLog[..|p.moveLog|] == p.moveLog;
      assert MakeMove(p, m).castleRightsLog[..|p.castleRightsLog|] == p.castleRightsLog;
      assert SameMove(ms[i - 1], m);
      var ms' := if InCheck(q) then RemoveFirst(ms, m) else ms;
      FilterFromKeeps(p1, ms', i - 1);
    }
  }

  // ---------------------------------------------------------------------
  // The en-passant target does not matter to the attack on a king
  // ---------------------------------------------------------------------

  lemma SquareMovesNonEp(b: Board, w: bool, e1: Option<Square>, e2: Option<Square>, r: int, c: int)
    requires OnBoard(r, c) && PawnsInside(b)
    ensures forall m :: m in SquareMoves(b, w, e1, r, c) && !m.isEnpassant ==> m in SquareMoves(b, w, e2, r, c)
  {
    if HasColor(b[r][c], Mover(w)) {
      if b[r][c].kind == Pawn {
        PawnMovesNonEp(b, w, e1, e2, r, c);
      } else {
        PieceMovesIgnoreEp(b, w, e1, e2, r, c);
      }
    }
  }

  lemma PieceMovesIgnoreEp(b: Board, w: bool, e1: Option<Square>, e2: Option<Square>, r: int, c: int)
    requires OnBoard(r, c) && PawnsInside(b) && b[r][c].Pc? && b[r][c].kind != Pawn
    ensures PieceMoves(b, w, e1, r, c) == PieceMoves(b, w, e2, r, c)
  {
  }

  lemma PawnCaptureNonEp(b: Board, w: bool, e1: Option<Square>, e2: Option<Square>, r: int, c: int, dc: int)
    requires OnBoard(r, c) && 1 <= r <= 6
    ensures forall m :: m in PawnCapture(b, w, e1, r, c, dc) && !m.isEnpassant ==> m in PawnCapture(b, w, e2, r, c, dc)
  {
  }

  lemma PawnMovesNonEp(b: Board, w: bool, e1: Option<Square>, e2: Option<Square>, r: int, c: int)
    requires OnBoard(r, c) && 1 <= r <= 6
    ensures forall m :: m in PawnMoves(b, w, e1, r, c) && !m.isEnpassant ==> m in PawnMoves(b, w, e2, r, c)
  {
    PawnMovesOrder(b, w, e1, r, c);
    PawnMovesOrder(b, w, e2, r, c);
    PawnCaptureNonEp(b, w, e1, e2, r, c, -1);
    PawnCaptureNonEp(b, w, e1, e2, r, c, 1);
  }

  lemma {:induction false} MovesUpToNonEp(b: Board, w: bool, e1: Option<Square>, e2: Option<Square>, k: int)
    requires 0 <= k <= 64 && PawnsInside(b)
    ensures forall m :: m in MovesUpTo(b, w, e1, k) && !m.isEnpassant ==> m in MovesUpTo(b, w, e2, k)
    decreases k
  {
    if k > 0 {
      MovesUpToNonEp(b, w, e1, e2, k - 1);
      SquareMovesNonEp(b, w, e1, e2, (k - 1) / 8, (k - 1) % 8);
    }
  }

  lemma AttackWitness(b: Board, w: bool, e1: Option<Square>, e2: Option<Square>, r: int, c: int)
    requires PawnsInside(b) && e1 != Some(Square(r, c))
    requires UnderAttack(b, w, e1, r, c)
    ensures UnderAttack(b, w, e2, r, c)
  {
    var A := AllMoves(b, !w, e1);
    var i :| 0 <= i < |A| && A[i].endRow == r && A[i].endCol == c;
    var m := A[i];
    AllMovesPseudo(b, !w, e1);
    assert m in A;
    assert !m.isEnpassant;
    MovesUpToNonEp(b, !w, e1, e2, 64);
    EndsOnMember(AllMoves(b, !w, e2), m);
  }

  /** Whether a square is attacked does not depend on the en-passant target
      unless the target is that very square. */
  lemma AttackIgnoresTarget(b: Board, w: bool, e1: Option<Square>, e2: Option<Square>, r: int, c: int)
    requires PawnsInside(b) && e1 != Some(Square(r, c)) && e2 != Some(Square(r, c))
    ensures UnderAttack(b, w, e1, r, c) <==> UnderAttack(b, w, e2, r, c)
  {
    if UnderAttack(b, w, e1, r, c) {
      AttackWitness(b, w, e1, e2, r, c);
    }
    if UnderAttack(b, w, e2, r, c) {
      AttackWitness(b, w, e2, e1, r, c);
    }
  }

  // ---------------------------------------------------------------------
  // A sound position
  // ---------------------------------------------------------------------

  /** The en-passant target, if any, is an empty square whose passed pawn,
      of the other side, stands just beyond it as seen from the side to move:
      what `make_move` leaves after a two-row pawn step. */
  ghost predicate EnPassantSound(b: Board, w: bool, ep: Option<Square>) {
    ep.Some? ==>
      var t := ep.value;
      && InBounds(t) && OnBoard(t.row - Forward(w), t.col)
      && b[t.row][t.col] == Empty
      && b[t.row - Forward(w)][t.col] == Pc(Opponent(Mover(w)), Pawn)
  }

  /** A position `get_valid_moves` is proved to give back unchanged: valid,
      both king squares cached, and a sound en-passant target. */
  ghost predicate Sound(p: Position) {
    ValidPosition(p) && KingsCached(p) && EnPassantSound(p.board, p.whiteToMove, p.enpassantPossible)
  }

  /** A pseudo-legal move on a board with a sound target can be taken back. */
  lemma PseudoUndoable(b: Board, w: bool, ep: Option<Square>, m: Move)
    requires Pseudo(b, w, ep, m) && WellFormed(m) && EnPassantSound(b, w, ep)
    ensures Undoable(b, m)
  {
    if m.isEnpassant {
      assert m.pieceMoved == Pc(Mover(w), Pawn);
    }
  }

  /** The jump by the k-th offset is generated when it lands on the board
      and not on a piece of the side to move. */
  lemma {:induction false} OffsetMoveIn(b: Board, w: bool, r: int, c: int, offs: seq<(int, int)>, k: int)
    requires OnBoard(r, c) && 0 <= k < |offs|
    requires OnBoard(r + offs[k].0, c + offs[k].1) && !HasColor(b[r + offs[k].0][c + offs[k].1], Mover(w))
    ensures Plain(b, r, c, r + offs[k].0, c + offs[k].1) in OffsetMoves(b, w, r, c, offs)
    decreases |offs|
  {
    if k < |offs| - 1 {
      assert offs[..|offs| - 1][k] == offs[k];
      OffsetMoveIn(b, w, r, c, offs[..|offs| - 1], k);
    }
  }

  lemma EndsOnMember(ms: seq<Move>, m: Move)
    requires m in ms
    ensures AnyEndsOn(ms, m.endRow, m.endCol)
  {
    var i :| 0 <= i < |ms| && ms[i] == m;
  }

  /** A king attacks the square beside it on its row, unless a piece of its
      own side stands there. */
  lemma KingAttacksBeside(b: Board, w: bool, ep: Option<Square>, r: int, c: int, dc: int)
    requires OnBoard(r, c) && PawnsInside(b) && b[r][c] == Pc(Mover(w), King)
    requires (dc == 1 || dc == -1) && OnBoard(r, c + dc) && !HasColor(b[r][c + dc], Mover(w))
    ensures AnyEndsOn(AllMoves(b, w, ep), r, c + dc)
  {
    var k := if dc == 1 then 4 else 3;
    assert KingOffsets[k] == (0, dc);
    OffsetMoveIn(b, w, r, c, KingOffsets, k);
    var m := Plain(b, r, c, r, c + dc);
    assert m in SquareMoves(b, w, ep, r, c);
    SquareMovesInAll(b, w, ep, r, c);
    EndsOnMember(AllMoves(b, w, ep), m);
  }

  /** The king of the side not to move is never offered a castle: the first
      square it would cross is next to it, so it attacks that square itself. */
  lemma OpponentCastlesNone(b: Board, w: bool, ep: Option<Square>, cr: CastleRights, r: int, c: int)
    requires OnBoard(r, c) && PawnsInside(b) && b[r][c] == Pc(Opponent(Mover(w)), King)
    ensures CastleMoves(b, w, ep, cr, r, c) == []
  {
    assert Mover(!w) == Opponent(Mover(w));
    if c + 3 < 8 && b[r][c + 1] == Empty {
      KingAttacksBeside(b, !w, ep, r, c, 1);
      assert UnderAttack(b, w, ep, r, c + 1);
    }
    assert KingsideCastle(b, w, ep, r, c) == [];
    if c - 4 >= 0 && b[r][c - 1] == Empty {
      KingAttacksBeside(b, !w, ep, r, c, -1);
      assert UnderAttack(b, w, ep, r, c - 1);
    }
    assert QueensideCastle(b, w, ep, r, c) == [];
  }

  /** A king's own moves go at most one column sideways. */
  lemma KingMovesNear(b: Board, w: bool, ep: Option<Square>, r: int, c: int)
    requires OnBoard(r, c) && PawnsInside(b) && HasColor(b[r][c], Mover(w)) && b[r][c].kind == King
    ensures forall m :: m in SquareMoves(b, w, ep, r, c) ==> c - 1 <= m.endCol <= c + 1
  {
    OffsetMovesExactly(b, w, r, c, KingOffsets);
  }

  /** The castles of the side to move, from its own king's square. */
  function OwnCastles(p: Position): seq<Move>
    requires ValidPosition(p)
  {
    var k := KingOf(p);
    CastleMoves(p.board, p.whiteToMove, p.enpassantPossible, p.currentCastlingRights, k.row, k.col)
  }

  /** With cached kings, only the king of the side to move adds castles. */
  lemma CandidatesOwn(p: Position)
    requires ValidPosition(p) && KingsCached(p)
    ensures Candidates(p) == AllMoves(p.board, p.whiteToMove, p.enpassantPossible) + OwnCastles(p)
  {
    var b, w, ep, cr := p.board, p.whiteToMove, p.enpassantPossible, p.currentCastlingRights;
    var wk, bk := p.whiteKingPos, p.blackKingPos;
    if w {
      assert b[bk.row][bk.col] == Pc(Black, King);
      OpponentCastlesNone(b, w, ep, cr, bk.row, bk.col);
    } else {
      assert b[wk.row][wk.col] == Pc(White, King);
      OpponentCastlesNone(b, w, ep, cr, wk.row, wk.col);
    }
  }

  /** No pseudo-legal move equals a castle: a move from the king's square
      goes at most one column sideways, a castle two. */
  lemma CastlesApart(p: Position)
    requires ValidPosition(p) && KingsCached(p)
    ensures forall x, y :: x in AllMoves(p.board, p.whiteToMove, p.enpassantPossible) && y in OwnCastles(p) ==> !SameMove(x, y)
  {
    var b, w, ep := p.board, p.whiteToMove, p.enpassantPossible;
    var k := KingOf(p);
    assert b[k.row][k.col] == Pc(Mover(w), King);
    AllMovesFrom(b, w, ep);
    CastleMovesFacts(b, w, ep, p.currentCastlingRights, k.row, k.col);
    KingMovesNear(b, w, ep, k.row, k.col);
    forall x, y | x in AllMoves(b, w, ep) && y in OwnCastles(p)
      ensures !SameMove(x, y)
    {
      assert x.Start() == k ==> x in SquareMoves(b, w, ep, k.row, k.col);
    }
  }

  /** On a position with cached kings the candidates are the pseudo-legal
      moves followed by the castles of the side to move, all well formed,
      no two equal, and, with a sound target, each one can be taken back. */
  lemma CandidatesSound(p: Position)
    requires ValidPosition(p) && KingsCached(p)
    ensures Candidates(p) == AllMoves(p.board, p.whiteToMove, p.enpassantPossible) + OwnCastles(p)
    ensures AllWellFormed(Candidates(p)) && Distinct(Candidates(p))
    ensures EnPassantSound(p.board, p.whiteToMove, p.enpassantPossible) ==> Reversible(p, Candidates(p))
  {
    var b, w, ep := p.board, p.whiteToMove, p.enpassantPossible;
    var k := KingOf(p);
    CandidatesOwn(p);
    AllMovesDistinct(b, w, ep);
    CastleMovesFacts(b, w, ep, p.currentCastlingRights, k.row, k.col);
    CastlesApart(p);
    DistinctAppend(AllMoves(b, w, ep), OwnCastles(p));
    if EnPassantSound(b, w, ep) {
      CandidatesReversible(p);
    }
  }

  lemma CandidatesReversible(p: Position)
    requires ValidPosition(p) && KingsCached(p) && EnPassantSound(p.board, p.whiteToMove, p.enpassantPossible)
    ensures AllWellFormed(Candidates(p)) && Reversible(p, Candidates(p))
  {
    var b, w, ep := p.board, p.whiteToMove, p.enpassantPossible;
    var k := KingOf(p);
    CandidatesOwn(p);
    AllMovesPseudo(b, w, ep);
    CastleMovesFacts(b, w, ep, p.currentCastlingRights, k.row, k.col);
    assert b[k.row][k.col] == Pc(Mover(w), King);
    forall m | m in Candidates(p)
      ensures Undoable(b, m) && FromCachedKing(p, m)
    {
      if m in AllMoves(b, w, ep) {
        PseudoUndoable(b, w, ep, m);
      }
    }
  }

  // ---------------------------------------------------------------------
  // Castling as the candidates offer it
  // ---------------------------------------------------------------------

  /** The castling rule for the king on (r, c): not attacked, it goes two
      columns along its row onto an empty square, recorded from the board.
      Kingside the side to move holds its kingside right and the two squares
      right of the king are empty and not attacked; queenside it holds its
      queenside right, the three squares left of the king are empty and the
      two next to the king are not attacked. */
  ghost predicate CastleRule(b: Board, w: bool, ep: Option<Square>, cr: CastleRights, r: int, c: int, m: Move)
    requires OnBoard(r, c) && PawnsInside(b)
  {
    && m.isCastleMove && m.Start() == Square(r, c) && !UnderAttack(b, w, ep, r, c)
    && m.endRow == r && OnBoard(r, m.endCol) && m == CastleTo(b, r, c, m.endCol)
    && (|| (&& m.endCol == c + 2 && KingsideRight(w, cr)
            && b[r][c + 1] == Empty && b[r][c + 2] == Empty
            && !UnderAttack(b, w, ep, r, c + 1) && !UnderAttack(b, w, ep, r, c + 2))
        || (&& m.endCol == c - 2 && c - 3 >= 0 && QueensideRight(w, cr)
            && b[r][c - 1] == Empty && b[r][c - 2] == Empty && b[r][c - 3] == Empty
            && !UnderAttack(b, w, ep, r, c - 1) && !UnderAttack(b, w, ep, r, c - 2)))
  }

  /** The castling rule on a position: a castle by the king of the side to
      move, which is not in check, as `CastleRule` says. */
  ghost predicate CastleAllowed(p: Position, m: Move)
    requires ValidPosition(p)
  {
    var k := KingOf(p);
    && m.pieceMoved == Pc(Mover(p.whiteToMove), King) && !InCheck(p)
    && CastleRule(p.board, p.whiteToMove, p.enpassantPossible, p.currentCastlingRights, k.row, k.col, m)
  }

  /** Every castle generated from (r, c) obeys the castling rule. */
  lemma CastleMovesRule(b: Board, w: bool, ep: Option<Square>, cr: CastleRights, r: int, c: int)
    requires OnBoard(r, c) && PawnsInside(b)
    ensures forall m :: m in CastleMoves(b, w, ep, cr, r, c) ==> CastleRule(b, w, ep, cr, r, c, m)
  {
    var kOn, qOn := CastleSides(b, w, ep, cr, r, c);
    forall m | m in CastleMoves(b, w, ep, cr, r, c)
      ensures CastleRule(b, w, ep, cr, r, c, m)
    {
      if kOn && m == CastleTo(b, r, c, c + 2) {
        assert KingsideRight(w, cr) && KingsideCastle(b, w, ep, r, c) != [];
      } else {
        assert qOn && m == CastleTo(b, r, c, c - 2);
        assert QueensideRight(w, cr) && QueensideCastle(b, w, ep, r, c) != [];
      }
    }
  }

  /** Every castle the rule allows from (r, c) is generated, as long as the
      rook's square behind the king's end square is on the board. */
  lemma RuleCastleGenerated(b: Board, w: bool, ep: Option<Square>, cr: CastleRights, r: int, c: int, m: Move)
    requires OnBoard(r, c) && PawnsInside(b) && CastleRule(b, w, ep, cr, r, c, m)
    requires m.endCol + 1 < 8 && m.endCol - 2 >= 0
    ensures m in CastleMoves(b, w, ep, cr, r, c)
  {
    var K := if KingsideRight(w, cr) then KingsideCastle(b, w, ep, r, c) else [];
    var Q := if QueensideRight(w, cr) then QueensideCastle(b, w, ep, r, c) else [];
    assert CastleMoves(b, w, ep, cr, r, c) == K + Q;
    if m.endCol == c + 2 {
      assert K == [CastleTo(b, r, c, c + 2)];
      assert K[0] in K + Q;
    } else {
      assert Q == [CastleTo(b, r, c, c - 2)];
      assert Q[0] in K + Q;
    }
  }

  /** Every castle among the candidates obeys the castling rule: it is made
      by the king of the side to move (the other king is never offered one),
      and only with the matching right, out of no check, over empty squares
      and past unattacked ones. */
  lemma CandidateCastles(p: Position)
    requires ValidPosition(p) && KingsCached(p)
    ensures forall m :: m in Candidates(p) && m.isCastleMove ==> CastleAllowed(p, m)
  {
    var b, w, ep := p.board, p.whiteToMove, p.enpassantPossible;
    var k := KingOf(p);
    assert b[k.row][k.col] == Pc(Mover(w), King);
    CandidatesOwn(p);
    AllMovesPseudo(b, w, ep);
    CastleMovesRule(b, w, ep, p.currentCastlingRights, k.row, k.col);
  }

  /** Conversely, every castle the rule allows is among the candidates, as
      long as the rook's square behind it is on the board. */
  lemma AllowedCastleOffered(p: Position, m: Move)
    requires ValidPosition(p) && KingsCached(p) && CastleAllowed(p, m)
    requires m.endCol + 1 < 8 && m.endCol - 2 >= 0
    ensures m in Candidates(p)
  {
    var k := KingOf(p);
    CandidatesOwn(p);
    RuleCastleGenerated(p.board, p.whiteToMove, p.enpassantPossible, p.currentCastlingRights, k.row, k.col, m);
  }

  /** A king on its home column is offered a castle exactly when the rule
      allows it, on either side. */
  lemma HomeCastles(p: Position, ec: int)
    requires ValidPosition(p) && KingsCached(p) && KingOf(p).col == 4 && (ec == 2 || ec == 6)
    ensures var m := CastleTo(p.board, KingOf(p).row, 4, ec);
      m in Candidates(p) <==> CastleAllowed(p, m)
  {
    var m := CastleTo(p.board, KingOf(p).row, 4, ec);
    CandidateCastles(p);
    if CastleAllowed(p, m) {
      AllowedCastleOffered(p, m);
    }
  }

  // ---------------------------------------------------------------------
  // get_valid_moves
  // ---------------------------------------------------------------------

  /** A pawn's diagonal moves go one row ahead. */
  lemma PawnCaptureOneRow(b: Board, w: bool, ep: Option<Square>, r: int, c: int, dc: int)
    requires OnBoard(r, c) && 1 <= r <= 6
    ensures forall m :: m in PawnCapture(b, w, ep, r, c, dc) ==> m.endRow == r + Forward(w)
  {
  }

  /** A pawn's two-row step passes over an empty square. */
  lemma PawnTwoRowStep(b: Board, w: bool, ep: Option<Square>, r: int, c: int, m: Move)
    requires OnBoard(r, c) && 1 <= r <= 6 && m in PawnMoves(b, w, ep, r, c)
    requires m.endRow - r == 2 || r - m.endRow == 2
    ensures m.endRow == r + 2 * Forward(w) && b[r + Forward(w)][c] == Empty && m.startCol == c
    ensures OnBoard(m.endRow, c) && m == Plain(b, r, c, m.endRow, c) && b[m.endRow][c] == Empty && r == HomeRow(w)
  {
    PawnMovesOrder(b, w, ep, r, c);
    PawnCaptureOneRow(b, w, ep, r, c, -1);
    PawnCaptureOneRow(b, w, ep, r, c, 1);
    PawnPushesShape(b, w, r, c);
    assert m in PawnPushes(b, w, r, c);
  }

  /** A pawn's two-row step among the pseudo-legal moves passes over an
      empty square. */
  lemma TwoRowStepOverEmpty(b: Board, w: bool, ep: Option<Square>, m: Move)
    requires PawnsInside(b) && m in AllMoves(b, w, ep)
    requires EpAfterMake(m).Some?
    ensures InBounds(EpAfterMake(m).value) && b[EpAfterMake(m).value.row][EpAfterMake(m).value.col] == Empty
  {
    AllMovesFrom(b, w, ep);
    var r, c := m.startRow, m.startCol;
    SquareMovesPseudo(b, w, ep, r, c);
    assert b[r][c] == m.pieceMoved;
    PawnTwoRowStep(b, w, ep, r, c, m);
    assert EpAfterMake(m).value == Square(r + Forward(w), c);
  }

  /** On a sound position the target left by the filter is an empty square
      or none, so `in_check` on line 165 answers as on the position itself. */
  lemma ProbeEpHarmless(p: Position)
    requires Sound(p)
    ensures var cands := Candidates(p);
      InCheck(if cands == [] then p else p.(enpassantPossible := ProbeEp(cands[0]))) == InCheck(p)
  {
    var cands := Candidates(p);
    CandidatesSound(p);
    if cands != [] {
      var m := cands[0];
      var b, w, e := p.board, p.whiteToMove, ProbeEp(m);
      var k := KingOf(p);
      assert b[k.row][k.col] != Empty;
      assert m in cands;
      if e.Some? && !m.isEnpassant {
        CastleMovesFacts(b, w, p.enpassantPossible, p.currentCastlingRights, k.row, k.col);
        assert m !in OwnCastles(p);
        TwoRowStepOverEmpty(b, w, p.enpassantPossible, m);
      }
      AttackIgnoresTarget(b, w, e, p.enpassantPossible, k.row, k.col);
    }
  }

  /** `get_valid_moves` always gives back the turn, both logs, the
      en-passant target and the castling rights; it clears both flags when
      it returns moves and sets one of them (leaving the other as it was)
      when it returns none. */
  lemma ValidMovesKeeps(p: Position)
    requires ValidPosition(p)
    ensures var (q, ms) := ValidMoves(p);
      && ValidPosition(q)
      && q.whiteToMove == p.whiteToMove && q.moveLog == p.moveLog
      && q.castleRightsLog == p.castleRightsLog
      && q.enpassantPossible == p.enpassantPossible
      && q.currentCastlingRights == p.currentCastlingRights
      && (ms != [] ==> !q.checkmate && !q.stalemate)
      && (ms == [] ==> (q.checkmate || q.stalemate) && (!q.checkmate ==> !p.checkmate) && (!q.stalemate ==> !p.stalemate))
  {
    var cands := Candidates(p);
    FilterFromKeeps(p, cands, |cands|);
    var (q, ms) := FilterFrom(p, cands, |cands|);
    assert ValidMoves(p) == (Conclude(p, q, ms, InCheck(q)), ms);
  }

  /** On a sound position `get_valid_moves` returns exactly the safe
      candidates, in the order they were generated, and leaves the position
      as it found it except for the flags: checkmate when no move is left
      and the king is attacked, stalemate when no move is left and it is
      not; both cleared when moves are left. */
  lemma ValidMovesSound(p: Position)
    requires Sound(p)
    ensures var (q, ms) := ValidMoves(p);
      && ms == KeepSafe(p, Candidates(p))
      && q == p.(checkmate := if ms == [] then p.checkmate || InCheck(p) else false,
                 stalemate := if ms == [] then p.stalemate || !InCheck(p) else false)
  {
    var cands := Candidates(p);
    CandidatesSound(p);
    FilterAll(p, cands);
    ConcludeSound(p, cands);
  }

  /** The flags `get_valid_moves` sets on a sound position, after the loop
      has left its target behind. */
  lemma ConcludeSound(p: Position, cands: seq<Move>)
    requires Sound(p) && cands == Candidates(p)
    ensures var q := p.(enpassantPossible := if cands == [] then p.enpassantPossible else ProbeEp(cands[0]));
      var ms := KeepSafe(p, cands);
      Conclude(p, q, ms, InCheck(q)) ==
        p.(checkmate := if ms == [] then p.checkmate || InCheck(p) else false,
           stalemate := if ms == [] then p.stalemate || !InCheck(p) else false)
  {
    ProbeEpHarmless(p);
    var e := if cands == [] then p.enpassantPossible else ProbeEp(cands[0]);
    ConcludeOnSame(p, e, KeepSafe(p, cands), InCheck(p));
  }

  /** The whole loop over distinct moves that can all be taken back. */
  lemma FilterAll(p: Position, ms: seq<Move>)
    requires ValidPosition(p) && AllWellFormed(ms) && Reversible(p, ms) && Distinct(ms)
    ensures FilterFrom(p, ms, |ms|) ==
      (p.(enpassantPossible := if ms == [] then p.enpassantPossible else ProbeEp(ms[0])), KeepSafe(p, ms))
  {
    AppendAssoc(ms, [], []);
    FilterFromReversible(p, ms, []);
    AppendAssoc(KeepSafe(p, ms), [], []);
  }

  /** Concluding on the position itself, up to its target, only sets the
      flags. */
  lemma ConcludeOnSame(p: Position, e: Option<Square>, ms: seq<Move>, check: bool)
    requires ValidPosition(p)
    ensures Conclude(p, p.(enpassantPossible := e), ms, check) ==
      p.(checkmate := if ms == [] then p.checkmate || check else false,
         stalemate := if ms == [] then p.stalemate || !check else false)
  {
  }

  /** A move is returned on a sound position exactly when it is a
      pseudo-legal move or a castle of the side to move and playing it does
      not leave the mover's king attacked. */
  lemma ValidMovesExactly(p: Position)
    requires Sound(p)
    ensures forall m :: m in ValidMoves(p).1 <==>
      (m in AllMoves(p.board, p.whiteToMove, p.enpassantPossible) || m in OwnCastles(p)) && WellFormed(m) && Safe(p, m)
  {
    ValidMovesSound(p);
    CandidatesSound(p);
    KeepSafeExactly(p, Candidates(p));
  }

  /** Every castle `get_valid_moves` returns on a sound position obeys the
      castling rule and does not leave the king attacked. */
  lemma ValidCastles(p: Position)
    requires Sound(p)
    ensures forall m :: m in ValidMoves(p).1 && m.isCastleMove ==> CastleAllowed(p, m) && Safe(p, m)
  {
    ValidMovesSound(p);
    KeepSafeExactly(p, Candidates(p));
    CandidateCastles(p);
  }

  /** With the king on its home column, `get_valid_moves` on a sound
      position returns the castle to column ec exactly when the castling
      rule allows it and it does not leave the king attacked. */
  lemma ValidHomeCastles(p: Position, ec: int)
    requires Sound(p) && KingOf(p).col == 4 && (ec == 2 || ec == 6)
    ensures var m := CastleTo(p.board, KingOf(p).row, 4, ec);
      m in ValidMoves(p).1 <==> CastleAllowed(p, m) && WellFormed(m) && Safe(p, m)
  {
    ValidMovesSound(p);
    CandidatesSound(p);
    KeepSafeExactly(p, Candidates(p));
    HomeCastles(p, ec);
  }

  // ---------------------------------------------------------------------
  // Why the target has to be sound
  // ---------------------------------------------------------------------

  /** White's two-row step e2-e4 (row 6 to row 4, column 4). */
  function KingPawnStep(): Move {
    NewMove(Square(6, 4), Square(4, 4), InitialBoard(), false, false)
  }

  /** `undo_move` after e2-e4 gives the board back but keeps the target e3,
      which no pawn just passed. The pawn on d2 is then offered an
      en-passant capture onto e3, and trying it in the filter (make, undo)
      leaves a black pawn on e2 where the white pawn stood. */
  lemma StaleTargetBreaksFilter()
    ensures var p := UndoMove(MakeMove(InitialPosition(), KingPawnStep()));
      var m := NewMove(Square(6, 3), Square(5, 4), p.board, true, false);
      && ValidPosition(p) && p.board == InitialBoard() && p.enpassantPossible == Some(Square(5, 4))
      && m in Candidates(p) && WellFormed(m)
      && UndoMove(MakeMove(p, m)).board[6][4] == Pc(Black, Pawn)
      && p.board[6][4] == Pc(White, Pawn)
  {
    StaleTargetAfterUndo();
    var p := UndoMove(MakeMove(InitialPosition(), KingPawnStep()));
    var m := NewMove(Square(6, 3), Square(5, 4), p.board, true, false);
    StaleCaptureOffered(p.board, p.enpassantPossible);
    PseudoInCandidates(p, m);
    StaleCaptureCorrupts(p.board);
    assert UndoMove(MakeMove(p, m)).board == BoardAfterUndo(BoardAfterMake(p.board, m), m);
  }

  lemma PseudoInCandidates(p: Position, m: Move)
    requires ValidPosition(p) && m in AllMoves(p.board, p.whiteToMove, p.enpassantPossible)
    ensures m in Candidates(p)
  {
  }

  /** Making and undoing d2xe3 en passant on the initial board leaves a
      black pawn on e2. */
  lemma StaleCaptureCorrupts(b: Board)
    requires b == InitialBoard()
    ensures var m := NewMove(Square(6, 3), Square(5, 4), b, true, false);
      WellFormed(m) && BoardAfterUndo(BoardAfterMake(b, m), m)[6][4] == Pc(Black, Pawn)
  {
  }

  /** e2-e4 then `undo_move`: the initial board and turn, target e3. */
  lemma StaleTargetAfterUndo()
    ensures var p := UndoMove(MakeMove(InitialPosition(), KingPawnStep()));
      ValidPosition(p) && p.board == InitialBoard() && p.whiteToMove && p.enpassantPossible == Some(Square(5, 4))
  {
    var p0 := InitialPosition();
    InitialPositionValid();
    var s := KingPawnStep();
    assert Undoable(p0.board, s) && FromCachedKing(p0, s);
    UndoAfterMake(p0, s);
  }

  /** On the initial board with target e3, white's d-pawn is offered the
      en-passant capture onto e3. */
  lemma StaleCaptureOffered(b: Board, ep: Option<Square>)
    requires b == InitialBoard() && ep == Some(Square(5, 4))
    ensures NewMove(Square(6, 3), Square(5, 4), b, true, false) in AllMoves(b, true, ep)
  {
    var m := NewMove(Square(6, 3), Square(5, 4), b, true, false);
    PawnMovesOrder(b, true, ep, 6, 3);
    assert PawnCapture(b, true, ep, 6, 3, 1) == [m];
    assert m in SquareMoves(b, true, ep, 6, 3);
    SquareMovesInAll(b, true, ep, 6, 3);
  }
}
