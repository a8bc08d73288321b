/** No two generated moves share both their start and their end square, so
    `Move.__eq__` tells every generated move apart from every other. */
module Distinctness {
  import opened Pieces
  import opened Moves
  import opened Generation

  /** No two moves of the list are equal in the sense of `Move.__eq__`. */
  predicate Distinct(ms: seq<Move>) {
    forall i, j :: 0 <= i < j < |ms| ==> !SameMove(ms[i], ms[j])
  }

  lemma DistinctAppend(a: seq<Move>, b: seq<Move>)
    requires Distinct(a) && Distinct(b)
    requires forall x, y :: x in a && y in b ==> !SameMove(x, y)
    ensures Distinct(a + b)
  {
    var s := a + b;
    forall i, j | 0 <= i < j < |s|
      ensures !SameMove(s[i], s[j])
    {
      if j < |a| {
        assert s[i] == a[i] && s[j] == a[j];
      } else if i >= |a| {
        assert s[i] == b[i - |a|] && s[j] == b[j - |a|];
      } else {
        assert s[i] == a[i] && s[j] == b[j - |a|];
      }
    }
  }

  /** Dropping moves keeps a list distinct. */
  lemma DistinctDrop(a: seq<Move>, x: Move, b: seq<Move>)
    requires Distinct(a + [x] + b)
    ensures Distinct(a + b)
  {
    var s, t := a + [x] + b, a + b;
    forall i, j | 0 <= i < j < |t|
      ensures !SameMove(t[i], t[j])
    {
      var i', j' := if i < |a| then i else i + 1, if j < |a| then j else j + 1;
      assert t[i] == s[i'] && t[j] == s[j'];
    }
  }

  // ---------------------------------------------------------------------
  // Pawns and jumps
  // ---------------------------------------------------------------------

  lemma PawnMovesDistinct(b: Board, w: bool, ep: Option<Square>, r: int, c: int)
    requires OnBoard(r, c) && 1 <= r <= 6
    ensures Distinct(PawnMoves(b, w, ep, r, c))
  {
    PawnMovesOrder(b, w, ep, r, c);
    var P, L, R := PawnPushes(b, w, r, c), PawnCapture(b, w, ep, r, c, -1), PawnCapture(b, w, ep, r, c, 1);
    PawnPushesDistinct(b, w, r, c);
    PawnCaptureColumn(b, w, ep, r, c, -1);
    PawnCaptureColumn(b, w, ep, r, c, 1);
    DistinctAppend(P, L);
    DistinctAppend(P + L, R);
  }

  /** The pushes go straight ahead, to different rows. */
  lemma PawnPushesDistinct(b: Board, w: bool, r: int, c: int)
    requires OnBoard(r, c) && 1 <= r <= 6
    ensures Distinct(PawnPushes(b, w, r, c))
    ensures forall m :: m in PawnPushes(b, w, r, c) ==> m.startCol == c && m.endCol == c
  {
  }

  /** A diagonal move is at most one move, to column c + dc. */
  lemma PawnCaptureColumn(b: Board, w: bool, ep: Option<Square>, r: int, c: int, dc: int)
    requires OnBoard(r, c) && 1 <= r <= 6
    ensures Distinct(PawnCapture(b, w, ep, r, c, dc))
    ensures forall m :: m in PawnCapture(b, w, ep, r, c, dc) ==> m.startCol == c && m.endCol == c + dc
  {
  }

  /** Distinct offsets give distinct jumps. */
  lemma {:induction false} OffsetMovesDistinct(b: Board, w: bool, r: int, c: int, offs: seq<(int, int)>)
    requires OnBoard(r, c)
    requires forall i, j :: 0 <= i < j < |offs| ==> offs[i] != offs[j]
    ensures Distinct(OffsetMoves(b, w, r, c, offs))
    decreases |offs|
  {
    if offs != [] {
      var init, last := offs[..|offs| - 1], offs[|offs| - 1];
      OffsetMovesDistinct(b, w, r, c, init);
      OffsetMovesExactly(b, w, r, c, init);
      forall x, y | x in OffsetMoves(b, w, r, c, init) && y in OffsetMove(b, w, r, c, last)
        ensures !SameMove(x, y)
      {
        var o :| o in init && OnBoard(r + o.0, c + o.1) && !HasColor(b[r + o.0][c + o.1], Mover(w)) &&
                 x == Plain(b, r, c, r + o.0, c + o.1);
        var k :| 0 <= k < |init| && init[k] == o;
        assert offs[k] != offs[|offs| - 1];
      }
      DistinctAppend(OffsetMoves(b, w, r, c, init), OffsetMove(b, w, r, c, last));
    }
  }

  // ---------------------------------------------------------------------
  // Rays
  // ---------------------------------------------------------------------

  /** One of the eight directions of a sliding piece. */
  predicate Unit(d: (int, int)) {
    -1 <= d.0 <= 1 && -1 <= d.1 <= 1 && d != (0, 0)
  }

  function Sign(x: int): int {
    if x > 0 then 1 else if x < 0 then -1 else 0
  }

  function Abs(x: int): int {
    if x < 0 then -x else x
  }

  /** The direction from the start square to the end square of m. */
  function Heading(m: Move): (int, int) {
    (Sign(m.endRow - m.startRow), Sign(m.endCol - m.startCol))
  }

  /** How many king steps separate the start and the end square of m. */
  function Distance(m: Move): int {
    var dr, dc := Abs(m.endRow - m.startRow), Abs(m.endCol - m.startCol);
    if dr < dc then dc else dr
  }

  /** k steps in a unit direction lead to a square at distance k in that
      direction. */
  lemma StepsAlong(d: (int, int), k: int)
    requires Unit(d) && 1 <= k
    ensures Sign(d.0 * k) == d.0 && Sign(d.1 * k) == d.1
    ensures (if Abs(d.0 * k) < Abs(d.1 * k) then Abs(d.1 * k) else Abs(d.0 * k)) == k
  {
    assert d.0 * k == (if d.0 == 1 then k else if d.0 == -1 then -k else 0);
    assert d.1 * k == (if d.1 == 1 then k else if d.1 == -1 then -k else 0);
  }

  /** The j-th move of a ray in a unit direction from its i-th square is i+j
      steps away in that direction. */
  lemma {:induction false} RayGeometry(b: Board, w: bool, r: int, c: int, dr: int, dc: int, i: int)
    requires OnBoard(r, c) && 1 <= i && Unit((dr, dc))
    ensures RayAlong(Ray(b, w, r, c, dr, dc, i), r, c, dr, dc, i)
    decreases 8 - i
  {
    var er, ec := r + dr * i, c + dc * i;
    if i < 8 && OnBoard(er, ec) {
      if b[er][ec] == Empty {
        RayGeometry(b, w, r, c, dr, dc, i + 1);
        RayAlongCons(b, w, r, c, dr, dc, i);
      } else {
        StepsAlong((dr, dc), i);
        assert er - r == dr * i && ec - c == dc * i;
      }
    }
  }

  /** The j-th move of R starts on (r, c), heads along (dr, dc) and lies
      i + j steps away. */
  predicate RayAlong(R: seq<Move>, r: int, c: int, dr: int, dc: int, i: int) {
    forall j :: 0 <= j < |R| ==>
      R[j].startRow == r && R[j].startCol == c && Heading(R[j]) == (dr, dc) && Distance(R[j]) == i + j
  }

  /** The step of `RayGeometry` over an empty square. */
  lemma RayAlongCons(b: Board, w: bool, r: int, c: int, dr: int, dc: int, i: int)
    requires OnBoard(r, c) && 1 <= i < 8 && Unit((dr, dc))
    requires OnBoard(r + dr * i, c + dc * i) && b[r + dr * i][c + dc * i] == Empty
    requires RayAlong(Ray(b, w, r, c, dr, dc, i + 1), r, c, dr, dc, i + 1)
    ensures RayAlong(Ray(b, w, r, c, dr, dc, i), r, c, dr, dc, i)
  {
    var er, ec := r + dr * i, c + dc * i;
    StepsAlong((dr, dc), i);
    assert er - r == dr * i && ec - c == dc * i;
    var R, R' := Ray(b, w, r, c, dr, dc, i), Ray(b, w, r, c, dr, dc, i + 1);
    assert R == [Plain(b, r, c, er, ec)] + R';
    forall j | 0 < j < |R|
      ensures R[j].startRow == r && R[j].startCol == c && Heading(R[j]) == (dr, dc) && Distance(R[j]) == i + j
    {
      assert R[j] == R'[j - 1];
    }
  }

  /** Every move of the rays along dirs heads along one of them. */
  lemma {:induction false} SlidingMovesHeadings(b: Board, w: bool, r: int, c: int, dirs: seq<(int, int)>)
    requires OnBoard(r, c) && forall k :: 0 <= k < |dirs| ==> Unit(dirs[k])
    ensures forall m :: m in SlidingMoves(b, w, r, c, dirs) ==>
      m.startRow == r && m.startCol == c && Heading(m) in dirs
    decreases |dirs|
  {
    if dirs != [] {
      var init, last := dirs[..|dirs| - 1], dirs[|dirs| - 1];
      SlidingMovesHeadings(b, w, r, c, init);
      RayGeometry(b, w, r, c, last.0, last.1, 1);
      forall m | m in SlidingMoves(b, w, r, c, dirs)
        ensures m.startRow == r && m.startCol == c && Heading(m) in dirs
      {
        var R := Ray(b, w, r, c, last.0, last.1, 1);
        if m in R {
          var j :| 0 <= j < |R| && R[j] == m;
        } else {
          assert m in SlidingMoves(b, w, r, c, init);
          assert Heading(m) in init;
        }
      }
    }
  }

  lemma {:induction false} RayDistinct(b: Board, w: bool, r: int, c: int, dr: int, dc: int, i: int)
    requires OnBoard(r, c) && 1 <= i && Unit((dr, dc))
    ensures Distinct(Ray(b, w, r, c, dr, dc, i))
  {
    RayGeometry(b, w, r, c, dr, dc, i);
    var R := Ray(b, w, r, c, dr, dc, i);
    forall j1, j2 | 0 <= j1 < j2 < |R|
      ensures !SameMove(R[j1], R[j2])
    {
      assert Distance(R[j1]) != Distance(R[j2]);
    }
  }

  predicate UnitDirs(dirs: seq<(int, int)>) {
    && (forall k :: 0 <= k < |dirs| ==> Unit(dirs[k]))
    && (forall i, j :: 0 <= i < j < |dirs| ==> dirs[i] != dirs[j])
  }

  lemma {:induction false} SlidingMovesDistinct(b: Board, w: bool, r: int, c: int, dirs: seq<(int, int)>)
    requires OnBoard(r, c) && UnitDirs(dirs)
    ensures Distinct(SlidingMoves(b, w, r, c, dirs))
    decreases |dirs|
  {
    if dirs != [] {
      var init, last := dirs[..|dirs| - 1], dirs[|dirs| - 1];
      assert UnitDirs(init);
      SlidingMovesDistinct(b, w, r, c, init);
      SlidingMovesHeadings(b, w, r, c, init);
      RayGeometry(b, w, r, c, last.0, last.1, 1);
      RayDistinct(b, w, r, c, last.0, last.1, 1);
      var R := Ray(b, w, r, c, last.0, last.1, 1);
      forall x, y | x in SlidingMoves(b, w, r, c, init) && y in R
        ensures !SameMove(x, y)
      {
        var n :| 0 <= n < |init| && init[n] == Heading(x);
        var j :| 0 <= j < |R| && R[j] == y;
        assert dirs[n] != dirs[|dirs| - 1];
      }
      DistinctAppend(SlidingMoves(b, w, r, c, init), R);
    }
  }

  // ---------------------------------------------------------------------
  // All squares
  // ---------------------------------------------------------------------

  /** A queen's rook rays and bishop rays head in different directions. */
  lemma QueenMovesDistinct(b: Board, w: bool, r: int, c: int)
    requires OnBoard(r, c)
    ensures Distinct(SlidingMoves(b, w, r, c, RookDirections) + SlidingMoves(b, w, r, c, BishopDirections))
  {
    assert UnitDirs(RookDirections) && UnitDirs(BishopDirections);
    var A, B := SlidingMoves(b, w, r, c, RookDirections), SlidingMoves(b, w, r, c, BishopDirections);
    SlidingMovesDistinct(b, w, r, c, RookDirections);
    SlidingMovesDistinct(b, w, r, c, BishopDirections);
    SlidingMovesHeadings(b, w, r, c, RookDirections);
    SlidingMovesHeadings(b, w, r, c, BishopDirections);
    RookBishopApart(A, B);
    DistinctAppend(A, B);
  }

  /** A move heading along a rook direction never equals one heading along
      a bishop direction. */
  lemma RookBishopApart(A: seq<Move>, B: seq<Move>)
    requires forall x :: x in A ==> Heading(x) in RookDirections
    requires forall y :: y in B ==> Heading(y) in BishopDirections
    ensures forall x, y :: x in A && y in B ==> !SameMove(x, y)
  {
    forall x, y | x in A && y in B
      ensures !SameMove(x, y)
    {
      assert Heading(x) in RookDirections && Heading(y) in BishopDirections;
    }
  }

  lemma SquareMovesDistinct(b: Board, w: bool, ep: Option<Square>, r: int, c: int)
    requires OnBoard(r, c) && PawnsInside(b)
    ensures Distinct(SquareMoves(b, w, ep, r, c))
  {
    if HasColor(b[r][c], Mover(w)) {
      assert UnitDirs(RookDirections) && UnitDirs(BishopDirections);
      match b[r][c].kind
      case Pawn => PawnMovesDistinct(b, w, ep, r, c);
      case Rook => SlidingMovesDistinct(b, w, r, c, RookDirections);
      case Knight => OffsetMovesDistinct(b, w, r, c, KnightOffsets);
      case Bishop => SlidingMovesDistinct(b, w, r, c, BishopDirections);
      case Queen => QueenMovesDistinct(b, w, r, c);
      case King => OffsetMovesDistinct(b, w, r, c, KingOffsets);
    }
  }

  lemma SquareMovesStart(b: Board, w: bool, ep: Option<Square>, r: int, c: int)
    requires OnBoard(r, c) && PawnsInside(b)
    ensures forall m :: m in SquareMoves(b, w, ep, r, c) ==> m.startRow == r && m.startCol == c
  {
    SquareMovesPseudo(b, w, ep, r, c);
  }

  /** Every move among the first k squares' moves starts on one of those
      squares and is among that square's own moves. */
  lemma {:induction false} MovesUpToFrom(b: Board, w: bool, ep: Option<Square>, k: int)
    requires 0 <= k <= 64 && PawnsInside(b)
    ensures forall m :: m in MovesUpTo(b, w, ep, k) ==>
      OnBoard(m.startRow, m.startCol) && m.startRow * 8 + m.startCol < k &&
      m in SquareMoves(b, w, ep, m.startRow, m.startCol)
    decreases k
  {
    if k > 0 {
      MovesUpToFrom(b, w, ep, k - 1);
      var r, c := (k - 1) / 8, (k - 1) % 8;
      assert r * 8 + c == k - 1;
      SquareMovesStart(b, w, ep, r, c);
    }
  }

  lemma {:induction false} MovesUpToDistinct(b: Board, w: bool, ep: Option<Square>, k: int)
    requires 0 <= k <= 64 && PawnsInside(b)
    ensures Distinct(MovesUpTo(b, w, ep, k))
    decreases k
  {
    if k > 0 {
      MovesUpToDistinct(b, w, ep, k - 1);
      NextSquareDistinct(b, w, ep, k - 1, (k - 1) / 8, (k - 1) % 8);
    }
  }

  /** The moves of square j, appended to the moves of the squares before
      it, keep the list distinct: they all start on square j. */
  lemma NextSquareDistinct(b: Board, w: bool, ep: Option<Square>, j: int, r: int, c: int)
    requires 0 <= j < 64 && PawnsInside(b) && OnBoard(r, c) && r * 8 + c == j
    requires Distinct(MovesUpTo(b, w, ep, j))
    ensures Distinct(MovesUpTo(b, w, ep, j) + SquareMoves(b, w, ep, r, c))
  {
    MovesUpToFrom(b, w, ep, j);
    SquareMovesStart(b, w, ep, r, c);
    SquareMovesDistinct(b, w, ep, r, c);
    var A, B := MovesUpTo(b, w, ep, j), SquareMoves(b, w, ep, r, c);
    forall x, y | x in A && y in B
      ensures !SameMove(x, y)
    {
      assert x.startRow * 8 + x.startCol < j;
    }
    DistinctAppend(A, B);
  }

  /** The moves of a square are among the moves of the whole side. */
  lemma {:induction false} MovesUpToGrows(b: Board, w: bool, ep: Option<Square>, k: int, k': int)
    requires 0 <= k <= k' <= 64 && PawnsInside(b)
    ensures forall m :: m in MovesUpTo(b, w, ep, k) ==> m in MovesUpTo(b, w, ep, k')
    decreases k'
  {
    if k < k' {
      MovesUpToGrows(b, w, ep, k, k' - 1);
    }
  }

  lemma SquareMovesInAll(b: Board, w: bool, ep: Option<Square>, r: int, c: int)
    requires OnBoard(r, c) && PawnsInside(b)
    ensures forall m :: m in SquareMoves(b, w, ep, r, c) ==> m in AllMoves(b, w, ep)
  {
    var k := r * 8 + c + 1;
    assert (k - 1) / 8 == r && (k - 1) % 8 == c;
    MovesUpToGrows(b, w, ep, k, 64);
  }

  /** Every move of the whole side is distinct from every other; a move of
      the side starting on a square is one of that square's moves. */
  lemma AllMovesDistinct(b: Board, w: bool, ep: Option<Square>)
    requires PawnsInside(b)
    ensures Distinct(AllMoves(b, w, ep))
    ensures forall m :: m in AllMoves(b, w, ep) ==>
      OnBoard(m.startRow, m.startCol) && m in SquareMoves(b, w, ep, m.startRow, m.startCol)
  {
    MovesUpToDistinct(b, w, ep, 64);
    AllMovesFrom(b, w, ep);
  }

  lemma AllMovesFrom(b: Board, w: bool, ep: Option<Square>)
    requires PawnsInside(b)
    ensures forall m :: m in AllMoves(b, w, ep) ==>
      OnBoard(m.startRow, m.startCol) && m in SquareMoves(b, w, ep, m.startRow, m.startCol)
  {
    MovesUpToFrom(b, w, ep, 64);
  }
}
