/** `GameState` as an object: the board is an 8x8 array the methods write
    cell by cell and the other fields are updated in place, as the engine
    does. Every method is proved to move the object's abstract value,
    `State()`, exactly as the functions of the Plies, Generation and
    Legality modules say. */
module Engine {
  import opened Pieces
  import opened Moves
  import opened Castling
  import opened Plies
  import opened Generation
  import opened Legality

  class GameState {
    const board: array2<Piece>
    var whiteToMove: bool
    var moveLog: seq<Move>
    var whiteKingPos: Square
    var blackKingPos: Square
    var checkmate: bool
    var stalemate: bool
    var enpassantPossible: Option<Square>
    var currentCastlingRights: CastleRights
    var castleRightsLog: seq<CastleRights>

    /** The board array as a board value. */
    function Cells(): Board
      requires board.Length0 == 8 && board.Length1 == 8
      reads board
    {
      seq(8, i reads board requires 0 <= i < 8 => seq(8, j reads board requires 0 <= j < 8 => board[i, j]))
    }

    /** The value the object holds. */
    function State(): Position
      requires board.Length0 == 8 && board.Length1 == 8
      reads this, board
    {
      Position(Cells(), whiteToMove, moveLog, whiteKingPos, blackKingPos, checkmate, stalemate,
               enpassantPossible, currentCastlingRights, castleRightsLog)
    }

    ghost predicate Valid()
      reads this, board
    {
      board.Length0 == 8 && board.Length1 == 8 && ValidPosition(State())
    }

    constructor ()
      ensures Valid() && State() == InitialPosition()
    {
      board := new Piece[8, 8]((i, j) => if OnBoard(i, j) then InitialBoard()[i][j] else Empty);
      whiteToMove := true;
      moveLog := [];
      whiteKingPos := Square(7, 4);
      blackKingPos := Square(0, 4);
      checkmate := false;
      stalemate := false;
      enpassantPossible := None;
      currentCastlingRights := CastleRights(true, true, true, true);
      castleRightsLog := [CastleRights(true, true, true, true)];
      new;
      BoardExt(Cells(), InitialBoard());
      InitialPositionValid();
    }

    lemma CellAt(i: int, j: int)
      requires board.Length0 == 8 && board.Length1 == 8 && OnBoard(i, j)
      ensures Cells()[i][j] == board[i, j]
    {
    }

    /** Writes one cell of the board. */
    method Put(r: int, c: int, x: Piece)
      requires board.Length0 == 8 && board.Length1 == 8 && OnBoard(r, c)
      modifies board
      ensures Cells() == Set(old(Cells()), r, c, x)
    {
      ghost var before := Cells();
      board[r, c] := x;
      BoardExt(Cells(), Set(before, r, c, x));
    }

    /** `update_castle_rights(move)`. */
    method UpdateCastleRights(m: Move)
      modifies this
      ensures currentCastlingRights == UpdatedRights(old(currentCastlingRights), m)
      ensures whiteToMove == old(whiteToMove) && moveLog == old(moveLog)
      ensures whiteKingPos == old(whiteKingPos) && blackKingPos == old(blackKingPos)
      ensures checkmate == old(checkmate) && stalemate == old(stalemate)
      ensures enpassantPossible == old(enpassantPossible) && castleRightsLog == old(castleRightsLog)
    {
      if m.pieceMoved == Pc(White, King) {
        currentCastlingRights := currentCastlingRights.(wks := false, wqs := false);
      } else if m.pieceMoved == Pc(Black, King) {
        currentCastlingRights := currentCastlingRights.(bks := false, bqs := false);
      } else if m.pieceMoved == Pc(White, Rook) {
        if m.startRow == 7 {
          if m.startCol == 0 {
            currentCastlingRights := currentCastlingRights.(wqs := false);
          } else if m.startCol == 7 {
            currentCastlingRights := currentCastlingRights.(wks := false);
          }
        }
      } else if m.pieceMoved == Pc(Black, Rook) {
        if m.startRow == 0 {
          if m.startCol == 0 {
            currentCastlingRights := currentCastlingRights.(bqs := false);
          } else if m.startCol == 7 {
            currentCastlingRights := currentCastlingRights.(bks := false);
          }
        }
      }
    }

    /** `make_move(move)`. */
    method MakeMove(m: Move)
      requires Valid() && WellFormed(m)
      modifies this, board
      ensures Valid() && State() == Plies.MakeMove(old(State()), m)
    {
      ghost var p0 := State();
      MoveBoard(m);
      RecordMove(m);
      MadeMove(p0, m, State());
    }

    method RecordMove(m: Move)
      requires WellFormed(m)
      modifies this
      ensures moveLog == old(moveLog) + [m] && whiteToMove == !old(whiteToMove)
      ensures whiteKingPos == if m.pieceMoved == Pc(White, King) then m.End() else old(whiteKingPos)
      ensures blackKingPos == if m.pieceMoved == Pc(Black, King) then m.End() else old(blackKingPos)
      ensures checkmate == old(checkmate) && stalemate == old(stalemate)
      ensures enpassantPossible == EpAfterMake(m)
      ensures currentCastlingRights == UpdatedRights(old(currentCastlingRights), m)
      ensures castleRightsLog == old(castleRightsLog) + [currentCastlingRights]
    {
      moveLog := moveLog + [m];
      whiteToMove := !whiteToMove;
      if m.pieceMoved == Pc(White, King) {
        whiteKingPos := m.End();
      } else if m.pieceMoved == Pc(Black, King) {
        blackKingPos := m.End();
      }
      if IsPawn(m.pieceMoved) && (m.startRow - m.endRow == 2 || m.endRow - m.startRow == 2) {
        enpassantPossible := Some(Square((m.startRow + m.endRow) / 2, m.startCol));
      } else {
        enpassantPossible := None;
      }
      UpdateCastleRights(m);
      castleRightsLog := castleRightsLog + [currentCastlingRights];
    }

    method MoveBoard(m: Move)
      requires board.Length0 == 8 && board.Length1 == 8 && WellFormed(m)
      modifies board
      ensures Cells() == BoardAfterMake(old(Cells()), m)
    {
      ghost var b0 := Cells();
      Put(m.startRow, m.startCol, Empty);
      Put(m.endRow, m.endCol, m.pieceMoved);
      ghost var b2 := Cells();
      Promote(m);
      ghost var b3 := Cells();
      TakePassedPawn(m);
      ghost var b4 := Cells();
      CarryRook(m);
      MakeBoardSteps(b0, b2, b3, b4, Cells(), m);
    }

    /** The pawn promotion step of `make_move`: a queen of the mover's
        colour replaces the pawn on the end square. */
    method Promote(m: Move)
      requires board.Length0 == 8 && board.Length1 == 8 && WellFormed(m)
      modifies board
      ensures Cells() ==
        if m.isPawnPromotion then Set(old(Cells()), m.endRow, m.endCol, Pc(m.pieceMoved.color, Queen)) else old(Cells())
    {
      if m.isPawnPromotion {
        Put(m.endRow, m.endCol, Pc(m.pieceMoved.color, Queen));
      }
    }

    /** The en-passant step of `make_move`: the passed pawn beside the start
        square is taken off. */
    method TakePassedPawn(m: Move)
      requires board.Length0 == 8 && board.Length1 == 8 && WellFormed(m)
      modifies board
      ensures Cells() == if m.isEnpassant then Set(old(Cells()), m.startRow, m.endCol, Empty) else old(Cells())
    {
      if m.isEnpassant {
        Put(m.startRow, m.endCol, Empty);
      }
    }

    /** The castling step of `make_move`: the rook jumps over the king. */
    method CarryRook(m: Move)
      requires board.Length0 == 8 && board.Length1 == 8 && WellFormed(m)
      modifies board
      ensures var b := old(Cells());
        Cells() ==
          if !m.isCastleMove then b
          else if m.endCol - m.startCol == 2 then
            Set(Set(b, m.endRow, m.endCol - 1, b[m.endRow][m.endCol + 1]), m.endRow, m.endCol + 1, Empty)
          else
            Set(Set(b, m.endRow, m.endCol + 1, b[m.endRow][m.endCol - 2]), m.endRow, m.endCol - 2, Empty)
    {
      if m.isCastleMove {
        if m.endCol - m.startCol == 2 {
          CellAt(m.endRow, m.endCol + 1);
          Put(m.endRow, m.endCol - 1, board[m.endRow, m.endCol + 1]);
          Put(m.endRow, m.endCol + 1, Empty);
        } else {
          CellAt(m.endRow, m.endCol - 2);
          Put(m.endRow, m.endCol + 1, board[m.endRow, m.endCol - 2]);
          Put(m.endRow, m.endCol - 2, Empty);
        }
      }
    }

    /** `undo_move()`: does nothing when no move has been made. */
    method UndoMove()
      requires Valid()
      modifies this, board
      ensures Valid() && State() == Plies.UndoMove(old(State()))
    {
      if |moveLog| != 0 {
        ghost var p0 := State();
        var m := moveLog[|moveLog| - 1];
        moveLog := moveLog[..|moveLog| - 1];
        UndoBoard(m);
        RestoreFields(m);
        UndoneMove(p0, State());
      }
    }

    /** The board writes of `undo_move` for the popped move `m`. */
    method UndoBoard(m: Move)
      requires board.Length0 == 8 && board.Length1 == 8 && WellFormed(m)
      modifies board
      ensures Cells() == BoardAfterUndo(old(Cells()), m)
    {
      ghost var b0 := Cells();
      Put(m.startRow, m.startCol, m.pieceMoved);
      Put(m.endRow, m.endCol, m.pieceCaptured);
      ghost var b2 := Cells();
      PutBackPassedPawn(m);
      ghost var b3 := Cells();
      CarryRookBack(m);
      UndoBoardSteps(b0, b2, b3, Cells(), m);
    }

    /** The en-passant step of `undo_move`: the end square is emptied and the
        captured pawn stands beside the start square again. */
    method PutBackPassedPawn(m: Move)
      requires board.Length0 == 8 && board.Length1 == 8 && WellFormed(m)
      modifies board
      ensures Cells() ==
        if m.isEnpassant then Set(Set(old(Cells()), m.endRow, m.endCol, Empty), m.startRow, m.endCol, m.pieceCaptured)
        else old(Cells())
    {
      if m.isEnpassant {
        Put(m.endRow, m.endCol, Empty);
        Put(m.startRow, m.endCol, m.pieceCaptured);
      }
    }

    /** The castling step of `undo_move`: the rook goes back to its corner. */
    method CarryRookBack(m: Move)
      requires board.Length0 == 8 && board.Length1 == 8 && WellFormed(m)
      modifies board
      ensures var b := old(Cells());
        Cells() ==
          if !m.isCastleMove then b
          else if m.endCol - m.startCol == 2 then
            Set(Set(b, m.endRow, m.endCol + 1, b[m.endRow][m.endCol - 1]), m.endRow, m.endCol - 1, Empty)
          else
            Set(Set(b, m.endRow, m.endCol - 2, b[m.endRow][m.endCol + 1]), m.endRow, m.endCol + 1, Empty)
    {
      if m.isCastleMove {
        if m.endCol - m.startCol == 2 {
          CellAt(m.endRow, m.endCol - 1);
          Put(m.endRow, m.endCol + 1, board[m.endRow, m.endCol - 1]);
          Put(m.endRow, m.endCol - 1, Empty);
        } else {
          CellAt(m.endRow, m.endCol + 1);
          Put(m.endRow, m.endCol - 2, board[m.endRow, m.endCol + 1]);
          Put(m.endRow, m.endCol + 1, Empty);
        }
      }
    }

    /** The field writes of `undo_move` for the popped move `m`: the turn flips
        back, a king returns to its start square, an undone en-passant capture
        makes its end square the target again, and the newest rights snapshot
        is dropped. */
    method RestoreFields(m: Move)
      requires |castleRightsLog| >= 2
      modifies this
      ensures moveLog == old(moveLog) && whiteToMove == !old(whiteToMove)
      ensures whiteKingPos == if m.pieceMoved == Pc(White, King) then m.Start() else old(whiteKingPos)
      ensures blackKingPos == if m.pieceMoved == Pc(Black, King) then m.Start() else old(blackKingPos)
      ensures checkmate == old(checkmate) && stalemate == old(stalemate)
      ensures enpassantPossible == if m.isEnpassant then Some(m.End()) else old(enpassantPossible)
      ensures castleRightsLog == old(castleRightsLog)[..|old(castleRightsLog)| - 1]
      ensures currentCastlingRights == castleRightsLog[|castleRightsLog| - 1]
    {
      whiteToMove := !whiteToMove;
      if m.pieceMoved == Pc(White, King) {
        whiteKingPos := m.Start();
      } else if m.pieceMoved == Pc(Black, King) {
        blackKingPos := m.Start();
      }
      if m.isEnpassant {
        enpassantPossible := Some(m.End());
      }
      castleRightsLog := castleRightsLog[..|castleRightsLog| - 1];
      currentCastlingRights := castleRightsLog[|castleRightsLog| - 1];
    }

    // -------------------------------------------------------------------
    // Move generation: each generator appends to the list it is given.
    // -------------------------------------------------------------------

    /** `get_all_possible_moves()`: every square in row-major order, and for
        a piece of the side to move the generator of its kind. */
    method GetAllPossibleMoves() returns (moves: seq<Move>)
      requires board.Length0 == 8 && board.Length1 == 8 && PawnsInside(Cells())
      ensures moves == AllMoves(Cells(), whiteToMove, enpassantPossible)
    {
      moves := [];
      ghost var b := Cells();
      ghost var k := 0;
      for r := 0 to 8
        invariant k == 8 * r && Scanned(b, k, moves)
      {
        moves, k := ScanRow(r, b, k, moves);
      }
    }

    /** Part way through the scan: `moves` holds the moves of the first k
        squares of the board b the array holds. */
    ghost predicate Scanned(b: Board, k: int, moves: seq<Move>)
      reads this, board
    {
      board.Length0 == 8 && board.Length1 == 8 && b == Cells() && PawnsInside(b) && 0 <= k <= 64 &&
      moves == MovesUpTo(b, whiteToMove, enpassantPossible, k)
    }

    /** The inner loop of `get_all_possible_moves`: the squares of row r,
        which are squares k to k + 7 in row-major order. */
    method ScanRow(r: int, ghost b: Board, ghost k: int, moves: seq<Move>) returns (res: seq<Move>, ghost k': int)
      requires board.Length0 == 8 && board.Length1 == 8 && b == Cells() && PawnsInside(b) && 0 <= r < 8
      requires k == 8 * r && moves == MovesUpTo(b, whiteToMove, enpassantPossible, k)
      ensures k' == k + 8
      ensures res == MovesUpTo(b, whiteToMove, enpassantPossible, k')
    {
      res := moves;
      k' := k;
      for c := 0 to 8
        invariant k' == k + c && res == MovesUpTo(b, whiteToMove, enpassantPossible, k')
      {
        res := ScanSquare(r, c, b, k', res);
        k' := k' + 1;
      }
    }

    /** One square of the scan: the generator for the piece on (r, c) when
        it belongs to the side to move, nothing otherwise. */
    method ScanSquare(r: int, c: int, ghost b: Board, ghost k: int, moves: seq<Move>) returns (res: seq<Move>)
      requires board.Length0 == 8 && board.Length1 == 8 && b == Cells() && PawnsInside(b) && OnBoard(r, c)
      requires k == 8 * r + c && moves == MovesUpTo(b, whiteToMove, enpassantPossible, k)
      ensures res == MovesUpTo(b, whiteToMove, enpassantPossible, k + 1)
    {
      var turn := board[r, c];
      CellAt(r, c);
      MovesUpToStep(b, whiteToMove, enpassantPossible, k, r, c);
      if (turn.Pc? && turn.color == White && whiteToMove) || (turn.Pc? && turn.color == Black && !whiteToMove) {
        res := MoveFunctions(turn.kind, r, c, moves);
      } else {
        res := moves;
      }
    }

    /** `self.move_functions[piece](r, c, moves)`: the generator for the kind
        of the piece on (r, c). */
    method MoveFunctions(kind: Kind, r: int, c: int, moves: seq<Move>) returns (res: seq<Move>)
      requires board.Length0 == 8 && board.Length1 == 8 && PawnsInside(Cells()) && OnBoard(r, c)
      requires board[r, c].Pc? && board[r, c].kind == kind
      ensures res == moves + PieceMoves(Cells(), whiteToMove, enpassantPossible, r, c)
    {
      CellAt(r, c);
      match kind
      case Pawn => res := GetPawnMoves(r, c, moves);
      case Rook => res := GetRookMoves(r, c, moves);
      case Knight => res := GetKnightMoves(r, c, moves);
      case Bishop => res := GetBishopMoves(r, c, moves);
      case Queen => res := GetQueenMoves(r, c, moves);
      case King => res := GetKingMoves(r, c, moves);
    }

    /** `get_pawn_moves(r, c, moves)`. */
    method GetPawnMoves(r: int, c: int, moves: seq<Move>) returns (res: seq<Move>)
      requires board.Length0 == 8 && board.Length1 == 8 && OnBoard(r, c) && 1 <= r <= 6
      ensures res == moves + PawnMoves(Cells(), whiteToMove, enpassantPossible, r, c)
    {
      var b := Cells();
      res := GetPawnPushes(r, c, b, moves);
      ghost var pushed := res;
      var d := if whiteToMove then -1 else 1;
      var enemy := if whiteToMove then Black else White;
      for k := 0 to |PawnCaptureCols|
        invariant res == pushed + PawnCaptures(b, whiteToMove, enpassantPossible, r, c, PawnCaptureCols[..k])
      {
        var dc := PawnCaptureCols[k];
        ghost var before := res;
        if 0 <= c + dc < 8 {
          CellAt(r + d, c + dc);
          if HasColor(board[r + d, c + dc], enemy) {
            res := res + [NewMove(Square(r, c), Square(r + d, c + dc), b, false, false)];
          } else if enpassantPossible == Some(Square(r + d, c + dc)) {
            res := res + [NewMove(Square(r, c), Square(r + d, c + dc), b, true, false)];
          }
        }
        assert res == before + PawnCapture(b, whiteToMove, enpassantPossible, r, c, dc);
        PawnCapturesSnoc(b, whiteToMove, enpassantPossible, r, c, PawnCaptureCols, k);
        AppendAssoc(pushed, PawnCaptures(b, whiteToMove, enpassantPossible, r, c, PawnCaptureCols[..k]),
                    PawnCapture(b, whiteToMove, enpassantPossible, r, c, dc));
      }
      assert PawnCaptureCols[..|PawnCaptureCols|] == PawnCaptureCols;
      AppendAssoc(moves, PawnPushes(b, whiteToMove, r, c), PawnCaptures(b, whiteToMove, enpassantPossible, r, c, PawnCaptureCols));
    }

    /** The one- and two-row steps of `get_pawn_moves`, for either side. */
    method GetPawnPushes(r: int, c: int, b: Board, moves: seq<Move>) returns (res: seq<Move>)
      requires board.Length0 == 8 && board.Length1 == 8 && OnBoard(r, c) && 1 <= r <= 6 && b == Cells()
      ensures res == moves + PawnPushes(b, whiteToMove, r, c)
    {
      res := moves;
      if whiteToMove {
        CellAt(r - 1, c);
        if board[r - 1, c] == Empty {
          res := res + [NewMove(Square(r, c), Square(r - 1, c), b, false, false)];
          if r == 6 {
            CellAt(r - 2, c);
          }
          if r == 6 && board[r - 2, c] == Empty {
            res := res + [NewMove(Square(r, c), Square(r - 2, c), b, false, false)];
          }
        }
      } else {
        CellAt(r + 1, c);
        if board[r + 1, c] == Empty {
          res := res + [NewMove(Square(r, c), Square(r + 1, c), b, false, false)];
          if r == 1 {
            CellAt(r + 2, c);
          }
          if r == 1 && board[r + 2, c] == Empty {
            res := res + [NewMove(Square(r, c), Square(r + 2, c), b, false, false)];
          }
        }
      }
    }

    /** `get_knight_moves(r, c, moves)`. */
    method GetKnightMoves(r: int, c: int, moves: seq<Move>) returns (res: seq<Move>)
      requires board.Length0 == 8 && board.Length1 == 8 && OnBoard(r, c)
      ensures res == moves + OffsetMoves(Cells(), whiteToMove, r, c, KnightOffsets)
    {
      res := GetJumps(r, c, KnightOffsets, moves);
    }

    /** `get_king_moves(r, c, moves)`. */
    method GetKingMoves(r: int, c: int, moves: seq<Move>) returns (res: seq<Move>)
      requires board.Length0 == 8 && board.Length1 == 8 && OnBoard(r, c)
      ensures res == moves + OffsetMoves(Cells(), whiteToMove, r, c, KingOffsets)
    {
      res := GetJumps(r, c, KingOffsets, moves);
    }

    /** `get_rook_moves(r, c, moves)`. */
    method GetRookMoves(r: int, c: int, moves: seq<Move>) returns (res: seq<Move>)
      requires board.Length0 == 8 && board.Length1 == 8 && OnBoard(r, c)
      ensures res == moves + SlidingMoves(Cells(), whiteToMove, r, c, RookDirections)
    {
      res := GetSlidingMoves(r, c, RookDirections, moves);
    }

    /** `get_bishop_moves(r, c, moves)`. */
    method GetBishopMoves(r: int, c: int, moves: seq<Move>) returns (res: seq<Move>)
      requires board.Length0 == 8 && board.Length1 == 8 && OnBoard(r, c)
      ensures res == moves + SlidingMoves(Cells(), whiteToMove, r, c, BishopDirections)
    {
      res := GetSlidingMoves(r, c, BishopDirections, moves);
    }

    /** `get_queen_moves(r, c, moves)`: the rook's rays, then the bishop's. */
    method GetQueenMoves(r: int, c: int, moves: seq<Move>) returns (res: seq<Move>)
      requires board.Length0 == 8 && board.Length1 == 8 && OnBoard(r, c)
      ensures res == moves + (SlidingMoves(Cells(), whiteToMove, r, c, RookDirections) +
                              SlidingMoves(Cells(), whiteToMove, r, c, BishopDirections))
    {
      res := GetRookMoves(r, c, moves);
      res := GetBishopMoves(r, c, res);
      AppendAssoc(moves, SlidingMoves(Cells(), whiteToMove, r, c, RookDirections),
                  SlidingMoves(Cells(), whiteToMove, r, c, BishopDirections));
    }

    /** `get_sliding_moves(r, c, directions, moves)`: along each direction in
        turn, the empty squares up to the first occupied one, and that one
        too when it holds an enemy piece. */
    method GetSlidingMoves(r: int, c: int, directions: seq<(int, int)>, moves: seq<Move>) returns (res: seq<Move>)
      requires board.Length0 == 8 && board.Length1 == 8 && OnBoard(r, c)
      ensures res == moves + SlidingMoves(Cells(), whiteToMove, r, c, directions)
    {
      var b := Cells();
      var enemy := if whiteToMove then Black else White;
      res := moves;
      for d := 0 to |directions|
        invariant res == moves + SlidingMoves(b, whiteToMove, r, c, directions[..d])
      {
        var (dr, dc) := directions[d];
        res := Slide(r, c, dr, dc, b, enemy, res);
        SlidingMovesSnoc(b, whiteToMove, r, c, directions, d);
        AppendAssoc(moves, SlidingMoves(b, whiteToMove, r, c, directions[..d]), Ray(b, whiteToMove, r, c, dr, dc, 1));
      }
      assert directions[..|directions|] == directions;
    }

    /** The inner loop of `get_sliding_moves`: one direction. */
    method Slide(r: int, c: int, dr: int, dc: int, b: Board, enemy: Color, moves: seq<Move>) returns (res: seq<Move>)
      requires board.Length0 == 8 && board.Length1 == 8 && OnBoard(r, c) && b == Cells()
      requires enemy == Opponent(Mover(whiteToMove))
      ensures res == moves + Ray(b, whiteToMove, r, c, dr, dc, 1)
    {
      res := moves;
      for i := 1 to 8
        invariant res + Ray(b, whiteToMove, r, c, dr, dc, i) == moves + Ray(b, whiteToMove, r, c, dr, dc, 1)
      {
        var endRow := r + dr * i;
        var endCol := c + dc * i;
        RayAt(b, whiteToMove, r, c, dr, dc, i);
        if 0 <= endRow < 8 && 0 <= endCol < 8 {
          CellAt(endRow, endCol);
          var endPiece := board[endRow, endCol];
          ghost var before := res;
          if endPiece == Empty {
            res := res + [NewMove(Square(r, c), Square(endRow, endCol), b, false, false)];
            AppendAssoc(before, [NewMove(Square(r, c), Square(endRow, endCol), b, false, false)],
                        Ray(b, whiteToMove, r, c, dr, dc, i + 1));
          } else if HasColor(endPiece, enemy) {
            res := res + [NewMove(Square(r, c), Square(endRow, endCol), b, false, false)];
            break;
          } else {
            break;
          }
        } else {
          break;
        }
      }
    }

    /** The loop `get_knight_moves` and `get_king_moves` share: a move for
        each offset that lands on the board and not on a piece of the side
        to move. */
    method GetJumps(r: int, c: int, offsets: seq<(int, int)>, moves: seq<Move>) returns (res: seq<Move>)
      requires board.Length0 == 8 && board.Length1 == 8 && OnBoard(r, c)
      ensures res == moves + OffsetMoves(Cells(), whiteToMove, r, c, offsets)
    {
      var b := Cells();
      var ally := if whiteToMove then White else Black;
      res := moves;
      for k := 0 to |offsets|
        invariant res == moves + OffsetMoves(b, whiteToMove, r, c, offsets[..k])
      {
        var (dr, dc) := offsets[k];
        ghost var before := res;
        if 0 <= r + dr < 8 && 0 <= c + dc < 8 {
          CellAt(r + dr, c + dc);
          if !HasColor(board[r + dr, c + dc], ally) {
            res := res + [NewMove(Square(r, c), Square(r + dr, c + dc), b, false, false)];
          }
        }
        assert res == before + OffsetMove(b, whiteToMove, r, c, offsets[k]);
        OffsetMovesSnoc(b, whiteToMove, r, c, offsets, k);
        AppendAssoc(moves, OffsetMoves(b, whiteToMove, r, c, offsets[..k]), OffsetMove(b, whiteToMove, r, c, offsets[k]));
      }
      assert offsets[..|offsets|] == offsets;
    }

    // -------------------------------------------------------------------
    // Attacks, check and castling
    // -------------------------------------------------------------------

    /** `square_under_attack(row, col)`: the turn is flipped, the other
        side's moves are generated, the turn is flipped back, and the square
        is attacked when one of those moves ends on it. */
    method SquareUnderAttack(row: int, col: int) returns (attacked: bool)
      requires board.Length0 == 8 && board.Length1 == 8 && PawnsInside(Cells())
      modifies this
      ensures unchanged(this)
      ensures attacked == UnderAttack(Cells(), whiteToMove, enpassantPossible, row, col)
    {
      whiteToMove := !whiteToMove;
      var oppMoves := GetAllPossibleMoves();
      whiteToMove := !whiteToMove;
      attacked := EndsOnSquare(oppMoves, row, col);
    }

    /** `in_check()`: whether the king of the side to move stands on an
        attacked square. */
    method InCheck() returns (check: bool)
      requires Valid()
      modifies this
      ensures unchanged(this)
      ensures check == Legality.InCheck(State())
    {
      if whiteToMove {
        check := SquareUnderAttack(whiteKingPos.row, whiteKingPos.col);
      } else {
        check := SquareUnderAttack(blackKingPos.row, blackKingPos.col);
      }
    }

    /** `get_castle_moves(r, c, moves)`: nothing when (r, c) is attacked,
        otherwise the kingside and then the queenside castle the rights of
        the side to move allow. */
    method GetCastleMoves(r: int, c: int, moves: seq<Move>) returns (res: seq<Move>)
      requires board.Length0 == 8 && board.Length1 == 8 && PawnsInside(Cells()) && OnBoard(r, c)
      modifies this
      ensures unchanged(this)
      ensures res == moves + CastleMoves(Cells(), whiteToMove, enpassantPossible, currentCastlingRights, r, c)
    {
      var attacked := SquareUnderAttack(r, c);
      if attacked {
        return moves;
      }
      res := moves;
      if (whiteToMove && currentCastlingRights.wks) || (!whiteToMove && currentCastlingRights.bks) {
        res := GetKingsideCastleMoves(r, c, res);
      } else {
      }
      ghost var kingside := res;
      if (whiteToMove && currentCastlingRights.wqs) || (!whiteToMove && currentCastlingRights.bqs) {
        res := GetQueensideCastleMoves(r, c, res);
      } else {
      }
      AppendAssoc(moves, if KingsideRight(whiteToMove, currentCastlingRights) then KingsideCastle(Cells(), whiteToMove, enpassantPossible, r, c) else [],
                  if QueensideRight(whiteToMove, currentCastlingRights) then QueensideCastle(Cells(), whiteToMove, enpassantPossible, r, c) else []);
    }

    /** `get_kingside_castle_moves(r, c, moves)`: the two squares right of
        the king empty and not attacked, and (unlike the engine) the rook's
        column c + 3 on the board. */
    method GetKingsideCastleMoves(r: int, c: int, moves: seq<Move>) returns (res: seq<Move>)
      requires board.Length0 == 8 && board.Length1 == 8 && PawnsInside(Cells()) && OnBoard(r, c)
      modifies this
      ensures unchanged(this)
      ensures res == moves + KingsideCastle(Cells(), whiteToMove, enpassantPossible, r, c)
    {
      var b := Cells();
      res := moves;
      assert moves + [] == moves;
      if c + 3 < 8 {
        CellAt(r, c + 1);
        CellAt(r, c + 2);
        if board[r, c + 1] == Empty && board[r, c + 2] == Empty {
          var attacked := SquareUnderAttack(r, c + 1);
          if !attacked {
            attacked := SquareUnderAttack(r, c + 2);
          }
          if !attacked {
            res := res + [NewMove(Square(r, c), Square(r, c + 2), b, false, true)];
          }
        }
      }
    }

    /** `get_queenside_castle_moves(r, c, moves)`: the three squares left of
        the king empty, the two next to it not attacked, and (unlike the
        engine) the rook's column c - 4 on the board. */
    method GetQueensideCastleMoves(r: int, c: int, moves: seq<Move>) returns (res: seq<Move>)
      requires board.Length0 == 8 && board.Length1 == 8 && PawnsInside(Cells()) && OnBoard(r, c)
      modifies this
      ensures unchanged(this)
      ensures res == moves + QueensideCastle(Cells(), whiteToMove, enpassantPossible, r, c)
    {
      var b := Cells();
      res := moves;
      assert moves + [] == moves;
      if c - 4 >= 0 {
        CellAt(r, c - 1);
        CellAt(r, c - 2);
        CellAt(r, c - 3);
        if board[r, c - 1] == Empty && board[r, c - 2] == Empty && board[r, c - 3] == Empty {
          var attacked := SquareUnderAttack(r, c - 1);
          if !attacked {
            attacked := SquareUnderAttack(r, c - 2);
          }
          if !attacked {
            res := res + [NewMove(Square(r, c), Square(r, c - 2), b, false, true)];
          }
        }
      }
    }

    // -------------------------------------------------------------------
    // Legal moves
    // -------------------------------------------------------------------

    /** `get_valid_moves()`: the candidates, filtered from the last to the
        first by making each move, flipping the turn, asking `in_check`,
        removing the move when the king is attacked, flipping back and
        undoing; then the checkmate and stalemate flags, and the en-passant
        target and castling rights saved at the start put back. */
    method GetValidMoves() returns (moves: seq<Move>)
      requires Valid()
      modifies this, board
      ensures Valid() && (State(), moves) == ValidMoves(old(State()))
    {
      ghost var p0 := State();
      var tempEnpassant := enpassantPossible;
      var tempCastleRights := CastleRights(currentCastlingRights.wks, currentCastlingRights.bks,
                                           currentCastlingRights.wqs, currentCastlingRights.bqs);
      moves := GetCandidates();
      ghost var cands := moves;
      moves := FilterCandidates(moves);
      ghost var q := State();
      FilterFromKeeps(p0, cands, |cands|);
      Finish(p0, moves, tempEnpassant, tempCastleRights);
      ValidMovesBy(p0, cands, q, moves, State());
    }

    /** The candidates of `get_valid_moves`: the pseudo-legal moves, then the
        castles from the white king's square, then from the black king's. */
    method GetCandidates() returns (moves: seq<Move>)
      requires Valid()
      modifies this
      ensures unchanged(this)
      ensures moves == Candidates(State())
    {
      moves := GetAllPossibleMoves();
      moves := GetCastleMoves(whiteKingPos.row, whiteKingPos.col, moves);
      moves := GetCastleMoves(blackKingPos.row, blackKingPos.col, moves);
    }

    /** The filter loop of `get_valid_moves`, from the last index down to 0;
        the index range is fixed before the loop, as `range` fixes it. */
    method FilterCandidates(cands: seq<Move>) returns (moves: seq<Move>)
      requires Valid() && AllWellFormed(cands)
      modifies this, board
      ensures Valid() && (State(), moves) == FilterFrom(old(State()), cands, |cands|)
    {
      ghost var target := FilterFrom(State(), cands, |cands|);
      moves := cands;
      for i := |moves| downto 0
        invariant Filtering(i, moves, target)
      {
        moves := FilterStep(i, moves, target);
      }
    }

    /** Part way through the filter: the turns for indices i - 1 down to 0,
        run from the object's state on `moves`, end in `target`. */
    ghost predicate Filtering(i: int, moves: seq<Move>, target: (Position, seq<Move>))
      reads this, board
    {
      Valid() && 0 <= i <= |moves| && AllWellFormed(moves) && FilterFrom(State(), moves, i) == target
    }

    /** The end of `get_valid_moves`: checkmate or stalemate when no move is
        left (asking `in_check` only then), both cleared otherwise, and the
        saved en-passant target and castling rights put back. */
    method Finish(ghost p0: Position, moves: seq<Move>, tempEnpassant: Option<Square>, tempCastleRights: CastleRights)
      requires Valid() && moveLog == p0.moveLog && castleRightsLog == p0.castleRightsLog
      requires currentCastlingRights == p0.currentCastlingRights
      requires tempEnpassant == p0.enpassantPossible && tempCastleRights == p0.currentCastlingRights
      modifies this
      ensures Valid() && State() == Conclude(p0, old(State()), moves, Legality.InCheck(old(State())))
    {
      ghost var q := State();
      var check := false;
      if |moves| == 0 {
        check := InCheck();
      }
      SetOutcome(moves, check, tempEnpassant, tempCastleRights);
      Concluded(p0, q, moves, check, checkmate, stalemate, State());
    }

    /** The field writes at the end of `get_valid_moves`, given what
        `in_check` answered when no move is left. */
    method SetOutcome(moves: seq<Move>, check: bool, tempEnpassant: Option<Square>, tempCastleRights: CastleRights)
      modifies this
      ensures whiteToMove == old(whiteToMove) && moveLog == old(moveLog) && castleRightsLog == old(castleRightsLog)
      ensures whiteKingPos == old(whiteKingPos) && blackKingPos == old(blackKingPos)
      ensures enpassantPossible == tempEnpassant && currentCastlingRights == tempCastleRights
      ensures checkmate == (if moves == [] then check || old(checkmate) else false)
      ensures stalemate == (if moves == [] then !check || old(stalemate) else false)
    {
      if |moves| == 0 {
        if check {
          checkmate := true;
        } else {
          stalemate := true;
        }
      } else {
        checkmate := false;
        stalemate := false;
      }
      enpassantPossible := tempEnpassant;
      currentCastlingRights := tempCastleRights;
    }

    /** One turn of the filter in `get_valid_moves`, on index i. */
    method FilterStep(i: int, moves: seq<Move>, ghost target: (Position, seq<Move>)) returns (res: seq<Move>)
      requires 0 <= i && Filtering(i + 1, moves, target)
      modifies this, board
      ensures Filtering(i, res, target)
    {
      ghost var p := State();
      var m := moves[i];
      assert m in moves;
      var check := ProbeMove(m);
      if check {
        assert SameMove(moves[i], m);
        res := RemoveFirst(moves, m);
      } else {
        res := moves;
      }
      UndoMove();
      FilteredOnce(p, moves, i, check, res, State());
    }

    /** The part of one filter turn before the move is taken back: make the
        move, flip the turn, ask `in_check`, flip the turn back. */
    method ProbeMove(m: Move) returns (check: bool)
      requires Valid() && WellFormed(m)
      modifies this, board
      ensures Valid() && State() == Plies.MakeMove(old(State()), m)
      ensures check == Legality.InCheck(Probe(old(State()), m))
    {
      ghost var p := State();
      MakeMove(m);
      ghost var q := State();
      whiteToMove := !whiteToMove;
      assert State() == FlipTurn(q);
      check := InCheck();
      whiteToMove := !whiteToMove;
      assert State() == q;
    }
  }

  /** The loop of `square_under_attack` over the other side's moves: true
      as soon as one ends on (row, col). */
  method EndsOnSquare(ms: seq<Move>, row: int, col: int) returns (found: bool)
    ensures found == AnyEndsOn(ms, row, col)
  {
    for i := 0 to |ms|
      invariant forall j :: 0 <= j < i ==> !(ms[j].endRow == row && ms[j].endCol == col)
    {
      if ms[i].endRow == row && ms[i].endCol == col {
        return true;
      }
    }
    return false;
  }

  /** `get_valid_moves` as the three stages the object goes through. */
  lemma ValidMovesBy(p: Position, cands: seq<Move>, q: Position, ms: seq<Move>, r: Position)
    requires ValidPosition(p) && cands == Candidates(p)
    requires (q, ms) == FilterFrom(p, cands, |cands|)
    requires q.moveLog == p.moveLog && q.castleRightsLog == p.castleRightsLog
    requires q.currentCastlingRights == p.currentCastlingRights
    requires r == Conclude(p, q, ms, Legality.InCheck(q))
    ensures ValidMoves(p) == (r, ms)
  {
  }

  /** The fields `get_valid_moves` sets at its end, as `Conclude` says. */
  lemma Concluded(p: Position, q: Position, ms: seq<Move>, check: bool, cm: bool, sm: bool, s: Position)
    requires ValidPosition(q) && q.moveLog == p.moveLog && q.castleRightsLog == p.castleRightsLog
    requires q.currentCastlingRights == p.currentCastlingRights
    requires ms == [] ==> check == Legality.InCheck(q)
    requires ms != [] ==> !cm && !sm
    requires ms == [] && check ==> cm && sm == q.stalemate
    requires ms == [] && !check ==> sm && cm == q.checkmate
    requires s == q.(checkmate := cm, stalemate := sm, enpassantPossible := p.enpassantPossible,
                     currentCastlingRights := p.currentCastlingRights)
    ensures ValidPosition(s) && s == Conclude(p, q, ms, Legality.InCheck(q))
  {
  }

  /** One turn of the filter, on the position the object went through. */
  lemma FilteredOnce(p: Position, ms: seq<Move>, i: int, check: bool, res: seq<Move>, s: Position)
    requires ValidPosition(p) && 0 <= i < |ms| && AllWellFormed(ms)
    requires check == Legality.InCheck(Probe(p, ms[i]))
    requires exists k :: 0 <= k < |ms| && SameMove(ms[k], ms[i])
    requires res == if check then RemoveFirst(ms, ms[i]) else ms
    requires s == Plies.UndoMove(Plies.MakeMove(p, ms[i]))
    ensures i <= |res| && AllWellFormed(res) && ValidPosition(s)
    ensures FilterFrom(s, res, i) == FilterFrom(p, ms, i + 1)
  {
    assert FlipTurn(Probe(p, ms[i])) == Plies.MakeMove(p, ms[i]);
  }

  /** The ray from its i-th square on, one step unfolded. */
  lemma RayAt(b: Board, w: bool, r: int, c: int, dr: int, dc: int, i: int)
    requires OnBoard(r, c) && 1 <= i < 8
    ensures var er, ec := r + dr * i, c + dc * i;
      Ray(b, w, r, c, dr, dc, i) ==
        if !OnBoard(er, ec) then []
        else if b[er][ec] == Empty then [Plain(b, r, c, er, ec)] + Ray(b, w, r, c, dr, dc, i + 1)
        else if HasColor(b[er][ec], Opponent(Mover(w))) then [Plain(b, r, c, er, ec)]
        else []
  {
  }

  /** Row-major order: square (r, c) is number 8 * r + c. */
  lemma MovesUpToStep(b: Board, w: bool, ep: Option<Square>, k: int, r: int, c: int)
    requires OnBoard(r, c) && PawnsInside(b) && k == 8 * r + c
    ensures MovesUpTo(b, w, ep, k + 1) == MovesUpTo(b, w, ep, k) + SquareMoves(b, w, ep, r, c)
  {
    assert k / 8 == r && k % 8 == c;
  }

  /** One more sliding direction. */
  lemma SlidingMovesSnoc(b: Board, w: bool, r: int, c: int, dirs: seq<(int, int)>, k: int)
    requires OnBoard(r, c) && 0 <= k < |dirs|
    ensures SlidingMoves(b, w, r, c, dirs[..k + 1]) == SlidingMoves(b, w, r, c, dirs[..k]) + Ray(b, w, r, c, dirs[k].0, dirs[k].1, 1)
  {
    assert dirs[..k + 1][..k] == dirs[..k];
  }

  /** One more jump offset. */
  lemma OffsetMovesSnoc(b: Board, w: bool, r: int, c: int, offs: seq<(int, int)>, k: int)
    requires OnBoard(r, c) && 0 <= k < |offs|
    ensures OffsetMoves(b, w, r, c, offs[..k + 1]) == OffsetMoves(b, w, r, c, offs[..k]) + OffsetMove(b, w, r, c, offs[k])
  {
    assert offs[..k + 1][..k] == offs[..k];
  }

  /** One more column of pawn diagonals. */
  lemma PawnCapturesSnoc(b: Board, w: bool, ep: Option<Square>, r: int, c: int, dcs: seq<int>, k: int)
    requires OnBoard(r, c) && 1 <= r <= 6 && 0 <= k < |dcs|
    ensures PawnCaptures(b, w, ep, r, c, dcs[..k + 1]) ==
            PawnCaptures(b, w, ep, r, c, dcs[..k]) + PawnCapture(b, w, ep, r, c, dcs[k])
  {
    assert dcs[..k + 1][..k] == dcs[..k];
  }

  /** A position whose fields are those `undo_move` leaves after popping the
      newest move of `p` is the position `Plies.UndoMove` gives. */
  lemma UndoneMove(p: Position, q: Position)
    requires ValidPosition(p) && p.moveLog != []
    requires var m := p.moveLog[|p.moveLog| - 1];
      && q.board == BoardAfterUndo(p.board, m)
      && q.moveLog == p.moveLog[..|p.moveLog| - 1] && q.whiteToMove == !p.whiteToMove
      && q.whiteKingPos == (if m.pieceMoved == Pc(White, King) then m.Start() else p.whiteKingPos)
      && q.blackKingPos == (if m.pieceMoved == Pc(Black, King) then m.Start() else p.blackKingPos)
      && q.checkmate == p.checkmate && q.stalemate == p.stalemate
      && q.enpassantPossible == (if m.isEnpassant then Some(m.End()) else p.enpassantPossible)
      && q.castleRightsLog == p.castleRightsLog[..|p.castleRightsLog| - 1]
      && q.currentCastlingRights == q.castleRightsLog[|q.castleRightsLog| - 1]
    ensures q == Plies.UndoMove(p)
  {
  }

  /** The boards `undo_move` passes through, step by step, end in
      `BoardAfterUndo`. */
  lemma UndoBoardSteps(b0: Board, b2: Board, b3: Board, b4: Board, m: Move)
    requires WellFormed(m)
    requires b2 == Set(Set(b0, m.startRow, m.startCol, m.pieceMoved), m.endRow, m.endCol, m.pieceCaptured)
    requires b3 == if m.isEnpassant then Set(Set(b2, m.endRow, m.endCol, Empty), m.startRow, m.endCol, m.pieceCaptured) else b2
    requires b4 ==
      if !m.isCastleMove then b3
      else if m.endCol - m.startCol == 2 then
        Set(Set(b3, m.endRow, m.endCol + 1, b3[m.endRow][m.endCol - 1]), m.endRow, m.endCol - 1, Empty)
      else
        Set(Set(b3, m.endRow, m.endCol - 2, b3[m.endRow][m.endCol + 1]), m.endRow, m.endCol + 1, Empty)
    ensures b4 == BoardAfterUndo(b0, m)
  {
  }

  /** A position whose fields are those `make_move(m)` leaves is the
      position `Plies.MakeMove` gives. */
  lemma MadeMove(p: Position, m: Move, q: Position)
    requires WellFormed(m)
    requires q.board == BoardAfterMake(p.board, m)
    requires q.moveLog == p.moveLog + [m] && q.whiteToMove == !p.whiteToMove
    requires q.whiteKingPos == if m.pieceMoved == Pc(White, King) then m.End() else p.whiteKingPos
    requires q.blackKingPos == if m.pieceMoved == Pc(Black, King) then m.End() else p.blackKingPos
    requires q.checkmate == p.checkmate && q.stalemate == p.stalemate
    requires q.enpassantPossible == EpAfterMake(m)
    requires q.currentCastlingRights == UpdatedRights(p.currentCastlingRights, m)
    requires q.castleRightsLog == p.castleRightsLog + [q.currentCastlingRights]
    ensures q == Plies.MakeMove(p, m)
  {
  }

  /** The boards `make_move` passes through, step by step, end in
      `BoardAfterMake`. */
  lemma MakeBoardSteps(b0: Board, b2: Board, b3: Board, b4: Board, b5: Board, m: Move)
    requires WellFormed(m)
    requires b2 == Set(Set(b0, m.startRow, m.startCol, Empty), m.endRow, m.endCol, m.pieceMoved)
    requires b3 == if m.isPawnPromotion then Set(b2, m.endRow, m.endCol, Pc(m.pieceMoved.color, Queen)) else b2
    requires b4 == if m.isEnpassant then Set(b3, m.startRow, m.endCol, Empty) else b3
    requires b5 ==
      if !m.isCastleMove then b4
      else if m.endCol - m.startCol == 2 then
        Set(Set(b4, m.endRow, m.endCol - 1, b4[m.endRow][m.endCol + 1]), m.endRow, m.endCol + 1, Empty)
      else
        Set(Set(b4, m.endRow, m.endCol + 1, b4[m.endRow][m.endCol - 2]), m.endRow, m.endCol - 2, Empty)
    ensures b5 == BoardAfterMake(b0, m)
  {
  }
}
