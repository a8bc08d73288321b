/** Castling rights (class `CastleRights`) and the rule that updates them
    after every ply (`GameState.update_castle_rights`). */
module Castling {
  import opened Pieces
  import opened Moves

  /** White kingside, black kingside, white queenside, black queenside. */
  datatype CastleRights = CastleRights(wks: bool, bks: bool, wqs: bool, bqs: bool)

  /** The rights after `m` is played: a king move clears both rights of its
      colour, a rook leaving its original corner clears that corner's right. */
  function UpdatedRights(cr: CastleRights, m: Move): (r: CastleRights)
    ensures r.wks ==> cr.wks
    ensures r.bks ==> cr.bks
    ensures r.wqs ==> cr.wqs
    ensures r.bqs ==> cr.bqs
  {
    if m.pieceMoved == Pc(White, King) then cr.(wks := false, wqs := false)
    else if m.pieceMoved == Pc(Black, King) then cr.(bks := false, bqs := false)
    else if m.pieceMoved == Pc(White, Rook) then
      if m.startRow == 7 && m.startCol == 0 then cr.(wqs := false)
      else if m.startRow == 7 && m.startCol == 7 then cr.(wks := false)
      else cr
    else if m.pieceMoved == Pc(Black, Rook) then
      if m.startRow == 0 && m.startCol == 0 then cr.(bqs := false)
      else if m.startRow == 0 && m.startCol == 7 then cr.(bks := false)
      else cr
    else cr
  }

  /** The rights a move takes away, case by case; every right it does not
      name is kept as it was. */
  lemma UpdatedRightsCases(cr: CastleRights, m: Move)
    ensures var r := UpdatedRights(cr, m);
      && (m.pieceMoved == Pc(White, King) ==> r == cr.(wks := false, wqs := false))
      && (m.pieceMoved == Pc(Black, King) ==> r == cr.(bks := false, bqs := false))
      && (m.pieceMoved == Pc(White, Rook) && m.Start() == Square(7, 0) ==> r == cr.(wqs := false))
      && (m.pieceMoved == Pc(White, Rook) && m.Start() == Square(7, 7) ==> r == cr.(wks := false))
      && (m.pieceMoved == Pc(Black, Rook) && m.Start() == Square(0, 0) ==> r == cr.(bqs := false))
      && (m.pieceMoved == Pc(Black, Rook) && m.Start() == Square(0, 7) ==> r == cr.(bks := false))
      && (!(|| (m.pieceMoved.Pc? && m.pieceMoved.kind == King)
            || (m.pieceMoved == Pc(White, Rook) && m.Start() in {Square(7, 0), Square(7, 7)})
            || (m.pieceMoved == Pc(Black, Rook) && m.Start() in {Square(0, 0), Square(0, 7)}))
          ==> r == cr)
  {
  }

  /** Once cleared, a right stays cleared whatever moves follow. */
  function RightsAfter(cr: CastleRights, ms: seq<Move>): CastleRights
    decreases |ms|
  {
    if ms == [] then cr else RightsAfter(UpdatedRights(cr, ms[0]), ms[1..])
  }

  lemma {:induction false} RightsNeverRestored(cr: CastleRights, ms: seq<Move>)
    ensures var r := RightsAfter(cr, ms);
      (r.wks ==> cr.wks) && (r.bks ==> cr.bks) && (r.wqs ==> cr.wqs) && (r.bqs ==> cr.bqs)
    decreases |ms|
  {
    if ms != [] {
      RightsNeverRestored(UpdatedRights(cr, ms[0]), ms[1..]);
    }
  }
}
