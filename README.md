# Chess rules engine (`ChessEngine.py`) in Dafny

This project models the rules engine of a small Python chess program:
- the `GameState` class: the board, the move and castling-rights logs, and the side to move;
- its `make_move` / `undo_move`;
- its pseudo-legal move generators, castling generation and attack test;
- the king-safety filter of `get_valid_moves`, with its checkmate and stalemate flags;
- the two value classes `Move` and `CastleRights`.

It is laid out in two layers:
- **The value layer.** Modules `Pieces`, `Moves`, `Castling`, `Plies`, `Generation`, `Distinctness` and `Legality` describe, as functions, what each operation does to a `Position` value, and prove the engine's properties about those functions.
- **The object layer.** Module `Engine` holds the class `GameState`:
  - It has an `array2<Piece>` board that is written cell by cell, plus fields that its methods reassign, as the Python object does.
  - The generators append to a move list inside `for` loops. The filter walks the candidates from the last index down to 0, making, testing and undoing each one.
  - Every method is proved to move the object's abstract value `State()` exactly as the value layer says.

One more module, `CastleBounds`, models the castle generators as written, with Python's out-of-range indexing (see "## Findings").

A last module, `Play`, follows the main loop of `ChessMain.py`: `get_valid_moves` on a new `GameState`, then `make_move` of a returned move, then `get_valid_moves` again, and so on. It proves that every position such a game reaches is *playable*:
- sound (king squares cached, en-passant target sound);
- the king of the side not to move is not attacked;
- a side that still holds a castling right has its king on its home square.

So the exactness lemmas of `Legality` apply throughout the game.

Pieces are `Empty | Pc(color, kind)`, mirroring the strings `"--"`, `"wP"`, …, `"bK"`. An absent en-passant target (`()`) is `None`. Row 0 is black's back rank.

The class invariant `Valid()` holds from the start and is kept by every method. It says:
- no pawn stands on row 0 or 7;
- `|castle_rights_log| == |move_log| + 1`;
- the current rights equal the newest snapshot;
- both cached king squares are on the board;
- every logged move is well formed.

## Model

| member | source | states |
|---|---|---|
| Pieces.InitialBoard | ChessEngine.py:3-12 | The starting board has no pawn on a back rank, the white king on (7,4) and the black king on (0,4). |
| Plies.InitialPositionValid | ChessEngine.py:2-26 | The initial state satisfies the class invariant (one rights snapshot, empty log), its king squares are cached correctly, and it has no en-passant target. |
| Engine.GameState.constructor | ChessEngine.py:2-26 | A new object satisfies the invariant and holds the initial position. |
| Moves.NewMoveFields | ChessEngine.py:309-327 | A constructed move has the given squares; moved piece = start cell; captured piece = end cell, or the opposite-colour pawn for en passant; promotion flag iff a pawn lands on row 0 or 7; the flags passed in. |
| Moves.PassedPawn | ChessEngine.py:322-324 | The captured piece of an en-passant record is a pawn of the colour opposite to the moving pawn. |
| Moves.NewMoveWellFormed | ChessEngine.py:309-327 | On a board without back-rank pawns, a constructed move is well formed, so every cell that `make_move`/`undo_move` touch is on the board. |
| Moves.SameMoveEquivalence | ChessEngine.py:329-335 | `__eq__` is reflexive, symmetric and transitive, and holds iff start and end squares coincide. |
| Moves.SameMoveIgnoresFlags | ChessEngine.py:329-335 | Two records with the same squares are equal whatever their flags, so a clicked move matches the generated one. |
| Moves.RowToRank | ChessEngine.py:302-304 | `rows_to_ranks[r]` is the key that `ranks_to_rows` maps to r. |
| Moves.ColToFile | ChessEngine.py:305-307 | `cols_to_files[c]` is the key that `files_to_cols` maps to c. |
| Moves.NotationMapsInverse | ChessEngine.py:302-307 | The inverse maps are inverses in the other direction too: each rank and file character maps back to itself. |
| Moves.NotationRoundTrip | ChessEngine.py:337-342 | The notation is 4 characters long, and parsing its two halves gives back the start and end squares. |
| Moves.SameNotationSameMove | ChessEngine.py:329-342 | Two moves have the same notation iff they are equal under `__eq__`. |
| Castling.UpdatedRights | ChessEngine.py:118-137 | A right is true afterwards only if it was true before: rights are only ever cleared. |
| Castling.UpdatedRightsCases | ChessEngine.py:118-137 | A king move clears both rights of its colour; a rook leaving (7,0), (7,7), (0,0) or (0,7) clears that corner's right; any other move keeps the rights. |
| Castling.RightsNeverRestored | ChessEngine.py:118-137 | Over any sequence of moves, no cleared right comes back. |
| Plies.BoardAfterMake | ChessEngine.py:39-74 | The board after `make_move` keeps the pawns off the back ranks; promotion included. |
| Plies.BoardAfterUndo | ChessEngine.py:88-116 | The board after `undo_move` keeps the pawns off the back ranks. |
| Plies.EpAfterMake | ChessEngine.py:61-65 | The target is set iff a pawn moved two rows; it is then ((start_row+end_row)/2, start_col). |
| Plies.MakeMove | ChessEngine.py:38-83 | `make_move` preserves the invariant, and each of the two logs grows by exactly one entry. |
| Plies.UndoMove | ChessEngine.py:85-116 | `undo_move` preserves the invariant, does nothing on an empty log, and otherwise pops one entry from each log. |
| Plies.UndoRestoresBoard | ChessEngine.py:38-116 | Undoing a move made from a board it was built from gives back that board: en passant, promotion and castling included. |
| Plies.UndoAfterMake | ChessEngine.py:38-116 | make then undo restores every field except the en-passant target: board, turn, both king squares, rights, both logs, flags. |
| Plies.EnPassantRemovesPassedPawn | ChessEngine.py:57-102 | An en-passant capture empties (start_row, end_col); undo puts the opposite-colour pawn back there and empties the end square. |
| Plies.CastleMovesRook | ChessEngine.py:67-74 | Castling empties the king's start square, puts the king on the end square, and moves the rook from end_col+1 to end_col-1 (kingside) or from end_col-2 to end_col+1 (queenside). |
| Engine.GameState.UpdateCastleRights | ChessEngine.py:118-137 | The method sets the rights to `UpdatedRights` of the old rights and changes no other field. |
| Engine.GameState.MakeMove | ChessEngine.py:38-83 | The object keeps its invariant and its new value is `Plies.MakeMove` of the old one. |
| Engine.GameState.MoveBoard | ChessEngine.py:39-74 | The board writes of `make_move` leave `BoardAfterMake` of the old board. |
| Engine.GameState.Promote | ChessEngine.py:50-55 | On a promotion, the end cell becomes a queen of the mover's colour; otherwise nothing changes. |
| Engine.GameState.TakePassedPawn | ChessEngine.py:57-59 | For en passant, (start_row, end_col) is emptied; otherwise nothing changes. |
| Engine.GameState.CarryRook | ChessEngine.py:67-74 | For a castle, the rook is moved over the king; otherwise nothing changes. |
| Engine.GameState.RecordMove | ChessEngine.py:41-83 | The field writes of `make_move`: log appended, turn flipped, king square updated, target from `EpAfterMake`, rights updated and snapshot appended. |
| Engine.GameState.UndoMove | ChessEngine.py:85-116 | The object keeps its invariant and its new value is `Plies.UndoMove` of the old one. |
| Engine.GameState.UndoBoard | ChessEngine.py:88-116 | The board writes of `undo_move` leave `BoardAfterUndo` of the old board. |
| Engine.GameState.PutBackPassedPawn | ChessEngine.py:98-101 | For en passant, the end square is emptied and the captured pawn is put beside the start square. |
| Engine.GameState.CarryRookBack | ChessEngine.py:109-116 | For a castle, the rook goes back to its corner. |
| Engine.GameState.RestoreFields | ChessEngine.py:90-107 | The field writes of `undo_move`: turn flipped back, king square restored, en-passant target set only for an en-passant move, rights snapshot popped, current rights = newest remaining snapshot. |
| Generation.PawnPushesShape | ChessEngine.py:201-218 | Pushes go straight ahead onto empty squares; the two-row push happens only from row 6 (white) or row 1 (black), over an empty square; both are generated whenever their squares are empty. |
| Generation.PawnMovesOrder | ChessEngine.py:201-224 | A pawn's moves are its pushes, then its left diagonal, then its right diagonal. |
| Generation.PawnCapturesPseudo | ChessEngine.py:207-224 | Each diagonal move captures an enemy piece, or is an en-passant move onto the target that takes the opposite-colour pawn. |
| Generation.OffsetMovesExactly | ChessEngine.py:230-253 | A knight or king move is generated exactly for each offset that lands on the board and not on a piece of the side to move. |
| Generation.RayCells | ChessEngine.py:275-291 | A ray's moves each land on an empty square or an enemy piece, every one but the last on an empty square, with at most 7 moves. |
| Generation.RaySteps | ChessEngine.py:277-281 | A ray advances by (dr, dc) per move, starting at its first step. |
| Generation.RayEnd | ChessEngine.py:281-291 | A ray that has no moves, or ends on an empty square, stopped at the board edge, at a piece of the side to move, or after step 7. |
| Generation.MovesUpToPseudo | ChessEngine.py:191-199 | Every move of the row-major scan over the first k squares is pseudo-legal. |
| Generation.AllMovesPseudo | ChessEngine.py:191-291 | Every generated move starts on a piece of the side to move, ends on the board, is built from the board and is well formed. It never ends on a piece of the side to move unless that square is the en-passant target. |
| Generation.CastleRecord | ChessEngine.py:265-273 | A castle record moves the piece on (r,c) two columns along its row onto an empty square, captures nothing, and is neither en passant nor a promotion. |
| Distinctness.OffsetMovesDistinct | ChessEngine.py:230-253 | Distinct offsets give moves that are pairwise unequal under `__eq__`. |
| Distinctness.RayGeometry | ChessEngine.py:275-291 | The j-th move of a ray from step i heads in the ray's direction, at distance i+j. |
| Distinctness.SlidingMovesHeadings | ChessEngine.py:275-291 | Every sliding move heads along one of the given directions. |
| Distinctness.RayDistinct | ChessEngine.py:278-291 | No two moves of one ray are equal. |
| Distinctness.SlidingMovesDistinct | ChessEngine.py:275-291 | No two moves along distinct unit directions are equal. |
| Distinctness.QueenMovesDistinct | ChessEngine.py:242-244 | The queen's rook moves and bishop moves are pairwise distinct. |
| Distinctness.PawnMovesDistinct | ChessEngine.py:201-224 | A pawn's moves are pairwise distinct. |
| Distinctness.MovesUpToFrom | ChessEngine.py:191-199 | Every move of the scan's first k squares starts on one of those squares and is among that square's moves. |
| Distinctness.MovesUpToDistinct | ChessEngine.py:191-199 | The scan's moves are pairwise distinct. |
| Distinctness.MovesUpToGrows | ChessEngine.py:191-199 | The scan only appends: moves of the first k squares stay among those of the first k' ≥ k. |
| Distinctness.AllMovesDistinct | ChessEngine.py:191-291 | All pseudo-legal moves are pairwise distinct under `__eq__`, and each one is a move of its start square. |
| Engine.GameState.GetAllPossibleMoves | ChessEngine.py:191-199 | The nested loop returns exactly `AllMoves` of the board, turn and target. |
| Engine.GameState.ScanRow | ChessEngine.py:194-198 | The inner loop over row r extends the scan by that row's eight squares. |
| Engine.GameState.ScanSquare | ChessEngine.py:195-198 | One square of the scan adds that square's moves if its piece belongs to the side to move. |
| Engine.GameState.MoveFunctions | ChessEngine.py:29-36 | Dispatch on the piece letter appends that piece's moves. |
| Engine.GameState.GetPawnMoves | ChessEngine.py:201-224 | Appends exactly `PawnMoves`. |
| Engine.GameState.GetPawnPushes | ChessEngine.py:203-206 | Appends exactly `PawnPushes`, for either colour. |
| Engine.GameState.GetKnightMoves | ChessEngine.py:230-236 | Appends the knight jumps, in offset order. |
| Engine.GameState.GetKingMoves | ChessEngine.py:246-253 | Appends the king steps, in offset order. |
| Engine.GameState.GetJumps | ChessEngine.py:233-236 | The offset loop appends `OffsetMoves` for any offset list. |
| Engine.GameState.GetRookMoves | ChessEngine.py:226-228 | Appends the four orthogonal rays. |
| Engine.GameState.GetBishopMoves | ChessEngine.py:238-240 | Appends the four diagonal rays. |
| Engine.GameState.GetQueenMoves | ChessEngine.py:242-244 | Appends the rook rays, then the bishop rays. |
| Engine.GameState.GetSlidingMoves | ChessEngine.py:275-291 | Appends one ray per direction, in order. |
| Engine.GameState.Slide | ChessEngine.py:278-291 | The inner `for i in range(1, 8)` loop appends exactly the ray. |
| Engine.EndsOnSquare | ChessEngine.py:186-189 | The loop returns true iff some listed move ends on (row, col). |
| Engine.GameState.SquareUnderAttack | ChessEngine.py:182-189 | Flipping the turn, generating and flipping back leaves the object unchanged; the result is `UnderAttack`. |
| Engine.GameState.InCheck | ChessEngine.py:176-180 | Leaves the object unchanged; the result says whether the cached king of the side to move is attacked. |
| Legality.AttackIgnoresTarget | ChessEngine.py:182-189 | Whether a square is attacked does not depend on the en-passant target, unless the target is that square. |
| Engine.GameState.GetCastleMoves | ChessEngine.py:255-263 | Leaves the object unchanged and appends exactly `CastleMoves`. |
| Engine.GameState.GetKingsideCastleMoves | ChessEngine.py:265-268 | Leaves the object unchanged and appends exactly `KingsideCastle`. |
| Engine.GameState.GetQueensideCastleMoves | ChessEngine.py:270-273 | Leaves the object unchanged and appends exactly `QueensideCastle`. |
| Legality.Candidates | ChessEngine.py:148-152 | The moves handed to the filter (pseudo-legal, white-king castles, black-king castles) are all well formed. |
| Legality.OpponentCastlesNone | ChessEngine.py:150-152 | With the column bound in place, castles generated for the king of the side not to move are always empty: it attacks the square next to itself. |
| Legality.CandidatesOwn | ChessEngine.py:148-152 | With cached kings, the candidates are the pseudo-legal moves followed by the castles of the side to move only. |
| Legality.CastleMovesFacts | ChessEngine.py:255-273 | Each generated castle is well formed and can be taken back; no two are equal. |
| Legality.KingMovesNear | ChessEngine.py:246-253 | A king's own moves shift at most one column. |
| Legality.CastlesApart | ChessEngine.py:148-152 | No pseudo-legal move equals a castle. |
| Legality.CandidatesSound | ChessEngine.py:148-152 | The candidates are well formed and pairwise distinct; with a sound target, each one can be taken back. |
| Legality.CastleMovesRule | ChessEngine.py:255-273 | Every castle generated for the king on (r,c) starts there while (r,c) is not attacked and stays on row r. It either goes to c+2, with the kingside right held, c+1 and c+2 empty and neither attacked; or to c-2, with the queenside right held, c-1 to c-3 empty and neither c-1 nor c-2 attacked. |
| Legality.RuleCastleGenerated | ChessEngine.py:255-273 | Conversely, a castle record that obeys those conditions and whose rook squares are on the board is generated. |
| Legality.CandidateCastles | ChessEngine.py:148-152 | With cached kings, every castle among the candidates is by the king of the side to move, which is not in check, under the conditions above. |
| Legality.AllowedCastleOffered | ChessEngine.py:148-152 | With cached kings, every castle allowed by those conditions whose rook squares are on the board is among the candidates. |
| Legality.HomeCastles | ChessEngine.py:255-273 | With the king of the side to move on column 4, the castle to column 2 or 6 is a candidate iff the castling conditions hold. |
| Legality.ValidCastles | ChessEngine.py:139-174 | On a sound position, every castle `get_valid_moves` returns obeys the castling conditions and leaves the king unattacked. |
| Legality.ValidHomeCastles | ChessEngine.py:139-174 | On a sound position with the king on column 4, the castle to column 2 or 6 is returned iff the castling conditions hold and it leaves the king unattacked. |
| Legality.RemoveFirst | ChessEngine.py:159 | `list.remove` with `__eq__` shortens the list by one and keeps only moves that were in it. |
| Legality.RemoveFirstAt | ChessEngine.py:159 | When index k holds the first equal move, `remove` deletes exactly index k. |
| Legality.RemoveFirstOfDistinct | ChessEngine.py:159 | On a distinct list, `remove(moves[i])` deletes index i and the list stays distinct. |
| Legality.Probe | ChessEngine.py:156-158 | The position asked `in_check` in the filter keeps the invariant. |
| Legality.FilterFrom | ChessEngine.py:155-161 | The filter loop keeps the invariant and the move list stays well formed. |
| Legality.FilterFromKeeps | ChessEngine.py:155-161 | Whatever the moves do, the filter gives back the turn, both logs, the rights and both flags. |
| Legality.KeepSafeExactly | ChessEngine.py:155-161 | A move is kept iff it is in the list and playing it leaves the mover's king unattacked. |
| Legality.KeepSafeIgnoresEp | ChessEngine.py:61-65 | Which moves are safe does not depend on the target before the move: `make_move` replaces it. |
| Legality.FilterFromReversible | ChessEngine.py:155-161 | On distinct moves that can each be taken back, the backward loop keeps the safe ones in order, and the position comes back up to its target. |
| Legality.Conclude | ChessEngine.py:163-173 | A non-empty result clears both flags; an empty one sets checkmate when in check and stalemate otherwise; the target and rights are reset to the snapshot. |
| Legality.ValidMovesKeeps | ChessEngine.py:139-174 | On every valid position, `get_valid_moves` gives back the turn, both logs, the target and the rights. It clears both flags when moves remain and sets one otherwise. |
| Legality.ProbeEpHarmless | ChessEngine.py:163-172 | On a sound position, the target left by the loop does not change the `in_check` answer at line 165. |
| Legality.ValidMovesSound | ChessEngine.py:139-174 | On a sound position, the result is exactly the safe candidates in order, and the position is unchanged except for the checkmate/stalemate flags. |
| Legality.ValidMovesExactly | ChessEngine.py:139-174 | On a sound position, a move is returned iff it is pseudo-legal or a castle of the side to move, and playing it leaves the mover's king unattacked. |
| Legality.StaleTargetBreaksFilter | ChessEngine.py:85-116 | After e2-e4 and `undo_move`, the target e3 stays; d2xe3 en passant becomes a candidate, and trying it turns the e2 pawn black. |
| Engine.GameState.GetCandidates | ChessEngine.py:148-152 | Leaves the object unchanged and returns exactly `Candidates`. |
| Engine.GameState.ProbeMove | ChessEngine.py:156-158 | Makes the move and reports `in_check` for the mover's own king. |
| Engine.GameState.FilterStep | ChessEngine.py:156-161 | One iteration (make, flip, test, maybe remove, flip, undo) advances the loop as `FilterFrom` says. |
| Engine.GameState.FilterCandidates | ChessEngine.py:155-161 | The backward loop leaves the state and list given by `FilterFrom`. |
| Engine.GameState.SetOutcome | ChessEngine.py:164-173 | Sets the flags as the source does and restores the target and rights from the snapshot. |
| Engine.GameState.Finish | ChessEngine.py:163-173 | The end of `get_valid_moves` is `Conclude` of the state the loop left. |
| Engine.GameState.GetValidMoves | ChessEngine.py:139-174 | The object keeps its invariant; its new value and the returned list are those of `ValidMoves`, so the lemmas above apply. |
| Play.InitialMovesLow | ChessEngine.py:3-12 | From white's starting pieces no pseudo-legal move ends above row 4, so none reaches the black king. |
| Play.InitialPlayable | ChessEngine.py:2-26 | The initial position is playable: sound, the king of the side not to move is not attacked, and each side holding a castling right has its king on its home square. |
| Play.KingCellAfterMake | ChessEngine.py:39-74 | After a move that captures no king and carries none, a cell holds a king iff it is the moved king's end square, or it held that king before and is not the start square. |
| Play.MakeKeepsKings | ChessEngine.py:38-48 | Such a move keeps the cached king squares exact. |
| Play.MoveMissesSafeSquare | ChessEngine.py:182-189 | No pseudo-legal move ends on a square its side does not attack. |
| Play.PseudoSparesKings | ChessEngine.py:191-224 | On a playable position no pseudo-legal move captures a king or lifts one off the board. |
| Play.DoubleStepTarget | ChessEngine.py:61-65 | After any pseudo-legal move, the new en-passant target is sound for the other side: an empty square with the pawn that passed it just beyond. |
| Play.CarriedKingChecks | ChessEngine.py:72-74 | A queenside castle that carries the other king from column c-4 to c-1 leaves it attacking the castled king, so the filter drops that castle. |
| Play.NoKingBeyondRook | ChessEngine.py:265-268 | When a kingside castle is offered, the other king is not on column c+3: from there it would attack c+2. |
| Play.CastleSparesKings | ChessEngine.py:67-74 | A castle that passes the filter on a playable position captures no king and carries none. |
| Play.MakeKeepsRightsAtHome | ChessEngine.py:118-137 | Any move keeps every held castling right paired with its king on the home square: a right stays held only if its king did not move. |
| Play.MakeKeepsPlayable | ChessEngine.py:38-83 | Making a move `get_valid_moves` returned on a playable position gives a playable position. |
| Play.FlagsIrrelevant | ChessEngine.py:163-173 | Whether a position is playable does not depend on the checkmate and stalemate flags. |
| Play.MakeAfterValidMoves | ChessMain.py:47 | Making one of the returned moves on the state `get_valid_moves` leaves gives a playable position. |
| Play.OwnCastlesAsWritten | ChessEngine.py:255-273 | On a playable position, the castle helpers as written, with no column bound, raise nothing for the king of the side to move and offer it exactly what the bounded model offers. |
| Play.GameStaysPlayable | ChessMain.py:45-67 | Every position that a game of valid moves reaches from a playable position is playable, so `ValidMovesSound` applies to it. |
| Play.GameFromStart | ChessMain.py:20-67 | Every position of a game played from the start by the main loop, without undo, is playable. |
| CastleBounds.AsWrittenAtHome | ChessEngine.py:255-273 | From the kings' home column, the unbounded generator raises nothing and equals the bounded one. |
| CastleBounds.OwnPieceNotAttacked | ChessEngine.py:182-189 | A square holding a piece of the other side is attacked by none of that side's moves, unless it is the en-passant target. |
| CastleBounds.KingsideRaises | ChessEngine.py:255-268 | With the opponent king on column 7, or on column 6 with column 7 empty, and the mover holding its kingside right, the castle test raises. |
| CastleBounds.KingsideRaisesAfterShortCastle | ChessEngine.py:150-152 | Concrete case: black king castled to g8, white still holding its kingside right, white to move, and the test for the black king raises. |
| CastleBounds.QueensideWraps | ChessEngine.py:255-273 | With the opponent king on column 0 and columns 5-7 of its row empty, the mover holding its queenside right gets a castle to column -2; the bounded generator gives none. |
| CastleBounds.QueensideWrapsOnAFile | ChessEngine.py:150-152 | Concrete case: black king on a5, white to move holding its queenside right, and the black king is offered a castle to column -2. |

## Left out

- **ChessMain.py (the pygame UI).** Image loading, the event loop, pixel-to-square mapping, drawing. The one engine-relevant step, matching a clicked `Move` against the valid moves, is `Move.__eq__`; see `SameMoveIgnoresFlags`.
- **The `move_functions` dictionary of bound methods.** It is a `match` on the piece kind (`MoveFunctions`, `PieceMoves`).
- **Promotion choice.** Promotion is to a queen only, as the code does; the interactive choice exists only in a comment.
- **Aliasing of `CastleRights` objects.** The rights are values. The source copies them wherever aliasing could matter, so no behaviour depends on identity.
- **`Move.__eq__` against a non-`Move`.** It returns False; in Dafny both sides are always moves.
- **Python exceptions and negative indexing**, except in the castle generators (see `CastleBounds`).
- **Performance.** The repeated full-board generation inside the filter is not modelled.
- **Order of writes in `make_move` and `undo_move`.** Each groups its board writes into one method (`MoveBoard`, `UndoBoard`) and its field writes into another (`RecordMove`, `RestoreFields`). Within each group, the order of the writes is the source's. Board cells and fields are disjoint, so the regrouping is not observable.
- **Helper methods with no source counterpart.** `ScanRow`, `ScanSquare`, `GetPawnPushes`, `GetJumps`, `Slide`, `GetCandidates`, `FilterCandidates`, `FilterStep`, `ProbeMove`, `Finish`, `SetOutcome` and `EndsOnSquare` are loop bodies or constant stretches of source methods, pulled out into methods of their own.
- Generation.KingsideCastle: offers the castle only when column c+3 is on the board. The engine has no bound and raises IndexError there. Generation.QueensideCastle likewise requires column c-4 to be on the board, where the engine wraps the index. For the king of the side to move this changes nothing in play: `Play.OwnCastlesAsWritten` shows that the two agree on every playable position, and `Play.GameFromStart` shows that legal play from the start stays playable. For the king of the side not to move they differ; see "## Findings".
- Engine.GameState.MakeMove: requires a well-formed move, which every record the generators build is (`AllMovesPseudo`, `CastleMovesFacts`) and which anything logged satisfies. The source accepts any `Move`; a malformed one would index off the board.
- Engine.GameState.GetPawnMoves: requires the pawn to be on rows 1-6. The class invariant (pawns never on a back rank, because promotion is automatic) guarantees this. The invariant is stronger than "white pawns never on row 0, black never on row 7": undoing an en-passant capture puts a pawn of the other colour back, so both directions are needed.
- Legality.ValidMovesSound: proved only for sound positions (cached king squares and a sound en-passant target); `Legality.ValidMovesExactly`, `ProbeEpHarmless`, `ValidCastles` and `ValidHomeCastles` likewise. Every position reached from the start by moves `get_valid_moves` returned is sound (`Play.GameFromStart`). Undo breaks this: `undo_move` does not restore the target (see "## Findings").
- Play.GameFromStart: covers games without the undo key. After `undo_move` the position need not be sound, because the target is not restored.
- **Castling after the rook was captured.** `update_castle_rights` clears a right only when the king or the rook moves, not when the rook is captured on its corner. A castle then carries whatever stands on the corner. The model keeps this behaviour; `Play.CastleSparesKings` shows that the piece carried is never a king once the filter has run.
- Plies.UndoAfterMake: does not claim to restore the en-passant target, which `undo_move` does not restore.

## Findings

| source | as written | input that shows it | evidently intended | confidence | as-written member | corrected member |
|---|---|---|---|---|---|---|
| ChessEngine.py:150-152 | `get_castle_moves` is called for both kings with the mover's rights, and `get_kingside_castle_moves` reads `board[r][c+2]` with no bound. | Black has castled kingside: king g8, h8 empty. White still holds its kingside right and is to move. The test for the black king reads `board[0][8]` and raises IndexError. | No castle for a king without room; none at all for the king of the side not to move. | not executed | CastleBounds.KingsideRaisesAfterShortCastle | Legality.OpponentCastlesNone |
| ChessEngine.py:270-273 | `get_queenside_castle_moves` reads `board[r][c-3]` with Python's negative-index wrap, and asks the attack test about off-board columns. | Black king on a5, f5-h5 empty, white to move holding its queenside right. A castle of the black king to column -2 enters white's candidate list. | No castle off the board; none for the king of the side not to move. | not executed | CastleBounds.QueensideWrapsOnAFile | Legality.OpponentCastlesNone |
| ChessEngine.py:85-116 | `undo_move` pops the move but leaves `enpassant_possible` as it was. After the main loop undoes a move (ChessMain.py:55), it calls `get_valid_moves` (ChessMain.py:67) on that state. | 1. e2-e4, then undo: the target e3 stays while white is to move. 2. d2xe3 en passant becomes a candidate. 3. Trying it in the filter turns the e2 pawn black. | Undo restores the target of the previous position, so every reachable position has a sound target and the filter leaves the board unchanged. | not executed | Legality.StaleTargetBreaksFilter | Legality.ValidMovesSound |
