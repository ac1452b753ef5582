/** The board rules as functions on values: the starting layouts, pseudo-legal
    move generation, check detection and the state transitions of the board
    engine (move, undo, probe-undo, promotion). The class GameLogic in module
    Logic is proved against these definitions. */
module Rules {
  import opened ChessTypes
  import SeqFacts

  // ---------------------------------------------------------------- grids

  /** The side lengths the game uses: 8 (classic) and 8 * m for m in {2, 4}. */
  predicate IsSize(n: int) { n == 8 || n == 16 || n == 32 }

  predicate IsGrid(g: Grid, n: int) {
    |g| == n && forall r :: 0 <= r < n ==> |g[r]| == n
  }

  predicate OnBoard(n: int, r: int, c: int) { 0 <= r < n && 0 <= c < n }

  /** The grid with square (r, c) replaced by x. */
  function Set(g: Grid, n: int, r: int, c: int, x: Cell): (h: Grid)
    requires IsGrid(g, n) && OnBoard(n, r, c)
    ensures IsGrid(h, n) && h[r][c] == x
    ensures forall i, j {:trigger h[i][j]} :: OnBoard(n, i, j) && (i != r || j != c) ==> h[i][j] == g[i][j]
  {
    g[r := g[r][c := x]]
  }

  /** Two grids of side n are equal when they agree on every square. */
  lemma GridExt(g: Grid, h: Grid, n: int)
    requires IsGrid(g, n) && IsGrid(h, n)
    requires forall i, j :: OnBoard(n, i, j) ==> g[i][j] == h[i][j]
    ensures g == h
  {
    forall i | 0 <= i < n ensures g[i] == h[i] {
      assert forall j :: 0 <= j < n ==> g[i][j] == h[i][j];
    }
  }

  /** getPiece: the bounds-checked lookup; off the board it reports an empty square. */
  function PieceAt(g: Grid, n: int, r: int, c: int): (x: Cell)
    requires IsGrid(g, n)
    ensures OnBoard(n, r, c) ==> x == g[r][c]
    ensures !OnBoard(n, r, c) ==> x == None
  {
    if OnBoard(n, r, c) then g[r][c] else None
  }

  // ---------------------------------------------------------- setups

  /** Kind on the back rank at column c of a board of side 8 * m; m is the
      spacing between the scaled back-rank pieces (1 on the classic board). */
  function BackRank(m: int, c: int): Option<Kind> {
    var n := 8 * m;
    if c == 0 || c == n - 1 then Some(Rook)
    else if c == m || c == n - 1 - m then Some(Knight)
    else if c == 2 * m || c == n - 1 - 2 * m then Some(Bishop)
    else if c == 3 * m then Some(Queen)
    else if c == 4 * m then Some(King)
    else None
  }

  /** Starting content of square (r, c) on a board of side 8 * m: Black's back
      rank on row 0 and m rows of Black pawns below it, White's mirror image at
      the bottom. With m = 1 this is the classic opening position. */
  function SetupCell(m: int, r: int, c: int): Cell {
    var n := 8 * m;
    if !OnBoard(n, r, c) then None
    else if r == 0 || r == n - 1 then
      match BackRank(m, c)
      case Some(k) => Some(Piece(k, r == n - 1))
      case None => None
    else if r <= m then Some(Piece(Pawn, false))
    else if r >= n - 1 - m then Some(Piece(Pawn, true))
    else None
  }

  function SetupGrid(m: int): (g: Grid)
    requires m >= 1
    ensures IsGrid(g, 8 * m)
    ensures forall r, c :: OnBoard(8 * m, r, c) ==> g[r][c] == SetupCell(m, r, c)
  {
    seq(8 * m, r => seq(8 * m, c => SetupCell(m, r, c)))
  }

  /** The enlarged layout: back-rank columns 0, m, 2m, 3m, 4m, N-1-2m, N-1-m, N-1,
      Black pawns on rows 1..m, White pawns on rows N-1-m..N-2, and exactly one
      king of each colour, on column 4m of its back rank. */
  lemma AmusementLayout(m: int)
    requires m == 2 || m == 4
    ensures var n := 8 * m;
      var g := SetupGrid(m);
      g[0][0] == Some(Piece(Rook, false)) && g[0][m] == Some(Piece(Knight, false)) &&
      g[0][2 * m] == Some(Piece(Bishop, false)) && g[0][3 * m] == Some(Piece(Queen, false)) &&
      g[0][4 * m] == Some(Piece(King, false)) && g[0][n - 1 - 2 * m] == Some(Piece(Bishop, false)) &&
      g[0][n - 1 - m] == Some(Piece(Knight, false)) && g[0][n - 1] == Some(Piece(Rook, false)) &&
      (forall c :: 0 <= c < n ==> g[n - 1][c] == if g[0][c].Some? then Some(Piece(g[0][c].value.kind, true)) else None) &&
      (forall r, c :: 1 <= r <= m && 0 <= c < n ==> g[r][c] == Some(Piece(Pawn, false))) &&
      (forall r, c :: n - 1 - m <= r <= n - 2 && 0 <= c < n ==> g[r][c] == Some(Piece(Pawn, true))) &&
      (forall r, c :: m < r < n - 1 - m && 0 <= c < n ==> g[r][c] == None)
  {
  }

  /** Each colour has exactly one king in every starting layout. */
  lemma {:induction false} OneKingEach(m: int, white: bool, r: int, c: int)
    requires m == 1 || m == 2 || m == 4
    requires OnBoard(8 * m, r, c)
    ensures SetupGrid(m)[r][c] == Some(Piece(King, white)) <==>
            (r == (if white then 8 * m - 1 else 0) && c == 4 * m)
  {
  }

  // ------------------------------------------------------- move generation

  /** Forward direction of a pawn: White moves up (towards row 0), Black down. */
  function Dir(white: bool): int { if white then -1 else 1 }

  /** The row from which a pawn may advance two squares: the pawn row nearest the
      centre, N-1-N/8 for White and N/8 for Black. */
  function PawnStartRow(n: int, white: bool): int { if white then n - 1 - n / 8 else n / 8 }

  predicate IsDir(dr: int, dc: int) { -1 <= dr <= 1 && -1 <= dc <= 1 && (dr != 0 || dc != 0) }

  predicate AllDirs(dirs: seq<(int, int)>) { forall i :: 0 <= i < |dirs| ==> IsDir(dirs[i].0, dirs[i].1) }

  /** Distance to the edge along (dr, dc); it bounds the length of a ray. */
  function RayMeasure(n: int, r: int, c: int, dr: int, dc: int): int {
    (if dr > 0 then n - r else if dr < 0 then r + 1 else 0) +
    (if dc > 0 then n - c else if dc < 0 then c + 1 else 0)
  }

  /** addLines: the squares a slider reaches along (dr, dc), starting the scan at
      (r, c): empty squares are listed and the scan goes on; the first occupied
      square ends it and is listed only when it holds an enemy. */
  function Ray(g: Grid, n: int, white: bool, r: int, c: int, dr: int, dc: int): seq<Square>
    requires IsGrid(g, n) && IsDir(dr, dc)
    decreases RayMeasure(n, r, c, dr, dc)
  {
    if !OnBoard(n, r, c) then []
    else if g[r][c].None? then [Square(r, c)] + Ray(g, n, white, r + dr, c + dc, dr, dc)
    else if g[r][c].value.white != white then [Square(r, c)]
    else []
  }

  /** One step of Ray: an empty on-board square is listed and the scan goes on. */
  lemma RayEmptyStep(g: Grid, n: int, white: bool, r: int, c: int, dr: int, dc: int)
    requires IsGrid(g, n) && IsDir(dr, dc) && OnBoard(n, r, c) && g[r][c].None?
    ensures Ray(g, n, white, r, c, dr, dc) == [Square(r, c)] + Ray(g, n, white, r + dr, c + dc, dr, dc)
  {
  }

  /** The last step of Ray: an occupied square ends the scan, listed if an enemy. */
  lemma RayOccupiedStep(g: Grid, n: int, white: bool, r: int, c: int, dr: int, dc: int)
    requires IsGrid(g, n) && IsDir(dr, dc) && OnBoard(n, r, c) && g[r][c].Some?
    ensures Ray(g, n, white, r, c, dr, dc) == if g[r][c].value.white != white then [Square(r, c)] else []
  {
  }

  /** checkMove: (r, c) if it is on the board and not held by a friendly piece. */
  function Step(g: Grid, n: int, white: bool, r: int, c: int): seq<Square>
    requires IsGrid(g, n)
  {
    if OnBoard(n, r, c) && (g[r][c].None? || g[r][c].value.white != white) then [Square(r, c)] else []
  }

  /** checkCapture: (r, c) if it is on the board and holds an enemy. */
  function Capture(g: Grid, n: int, white: bool, r: int, c: int): seq<Square>
    requires IsGrid(g, n)
  {
    if OnBoard(n, r, c) && g[r][c].Some? && g[r][c].value.white != white then [Square(r, c)] else []
  }

  const KnightJumps: seq<(int, int)> := [(2, 1), (2, -1), (-2, 1), (-2, -1), (1, 2), (1, -2), (-1, 2), (-1, -2)]

  /** The king's eight neighbours in the order of the source's nested dr/dc loops. */
  const KingSteps: seq<(int, int)> := [(-1, -1), (-1, 0), (-1, 1), (0, -1), (0, 1), (1, -1), (1, 0), (1, 1)]

  const RookDirs: seq<(int, int)> := [(1, 0), (-1, 0), (0, 1), (0, -1)]
  const BishopDirs: seq<(int, int)> := [(1, 1), (1, -1), (-1, 1), (-1, -1)]
  const QueenDirs: seq<(int, int)> := RookDirs + BishopDirs

  /** checkMove applied to each offset in turn. */
  function Jumps(g: Grid, n: int, white: bool, r: int, c: int, offs: seq<(int, int)>): seq<Square>
    requires IsGrid(g, n)
  {
    if offs == [] then []
    else
      var o := offs[|offs| - 1];
      Jumps(g, n, white, r, c, offs[..|offs| - 1]) + Step(g, n, white, r + o.0, c + o.1)
  }

  /** addLines applied to each direction in turn. */
  function Slides(g: Grid, n: int, white: bool, r: int, c: int, dirs: seq<(int, int)>): seq<Square>
    requires IsGrid(g, n) && AllDirs(dirs)
  {
    if dirs == [] then []
    else
      var d := dirs[|dirs| - 1];
      Slides(g, n, white, r, c, dirs[..|dirs| - 1]) + Ray(g, n, white, r + d.0, c + d.1, d.0, d.1)
  }

  /** Pawn moves: one square forward if getPiece reports it empty, a second one
      from the start row if that is reported empty too, and the two forward
      diagonals when they hold an enemy. getPiece reports off-board squares as
      empty, so a pawn on its last row gets an off-board forward move. */
  function PawnMoves(g: Grid, n: int, white: bool, r: int, c: int): seq<Square>
    requires IsGrid(g, n)
  {
    var d := Dir(white);
    PawnAdvance(g, n, white, r, c) + Capture(g, n, white, r + d, c - 1) + Capture(g, n, white, r + d, c + 1)
  }

  /** The forward part of a pawn's moves. */
  function PawnAdvance(g: Grid, n: int, white: bool, r: int, c: int): seq<Square>
    requires IsGrid(g, n)
  {
    var d := Dir(white);
    if PieceAt(g, n, r + d, c).None? then
      [Square(r + d, c)] +
      (if r == PawnStartRow(n, white) && PieceAt(g, n, r + 2 * d, c).None? then [Square(r + 2 * d, c)] else [])
    else []
  }

  function PieceMoves(g: Grid, n: int, p: Piece, r: int, c: int): seq<Square>
    requires IsGrid(g, n)
  {
    match p.kind
    case Pawn => PawnMoves(g, n, p.white, r, c)
    case Rook => Slides(g, n, p.white, r, c, RookDirs)
    case Bishop => Slides(g, n, p.white, r, c, BishopDirs)
    case Queen => Slides(g, n, p.white, r, c, QueenDirs)
    case Knight => Jumps(g, n, p.white, r, c, KnightJumps)
    case King => Jumps(g, n, p.white, r, c, KingSteps)
  }

  /** getValidMoves: the pseudo-legal destinations of the piece on (r, c). */
  function ValidMoves(g: Grid, n: int, r: int, c: int): seq<Square>
    requires IsGrid(g, n) && OnBoard(n, r, c)
  {
    match g[r][c]
    case None => []
    case Some(p) => PieceMoves(g, n, p, r, c)
  }

  // ------------------------------------------------ move generation facts

  /** A square a piece of colour `white` may land on: on the board and not friendly. */
  predicate FreeFor(g: Grid, n: int, white: bool, s: Square)
    requires IsGrid(g, n)
  {
    OnBoard(n, s.row, s.col) && (g[s.row][s.col].None? || g[s.row][s.col].value.white != white)
  }

  /** The one exception: the forward step of a pawn standing on the last row in
      its direction, which leaves the board. */
  predicate PawnOverrun(n: int, p: Piece, r: int, c: int, s: Square) {
    p.kind == Pawn && s == Square(r + Dir(p.white), c) && !(0 <= r + Dir(p.white) < n)
  }

  /** A ray starts at (r, c) and advances by (dr, dc) square by square, all on
      the board, and every square but the last is empty. */
  lemma {:induction false} RaySquares(g: Grid, n: int, white: bool, r: int, c: int, dr: int, dc: int)
    requires IsGrid(g, n) && IsDir(dr, dc)
    ensures var ray := Ray(g, n, white, r, c, dr, dc);
      (|ray| > 0 ==> ray[0] == Square(r, c)) &&
      (forall i :: 0 <= i < |ray| - 1 ==> ray[i + 1] == Square(ray[i].row + dr, ray[i].col + dc)) &&
      (forall i :: 0 <= i < |ray| ==> OnBoard(n, ray[i].row, ray[i].col)) &&
      (forall i :: 0 <= i < |ray| - 1 ==> g[ray[i].row][ray[i].col].None?)
    decreases RayMeasure(n, r, c, dr, dc)
  {
    if OnBoard(n, r, c) && g[r][c].None? {
      RaySquares(g, n, white, r + dr, c + dc, dr, dc);
      var rest := Ray(g, n, white, r + dr, c + dc, dr, dc);
      var ray := Ray(g, n, white, r, c, dr, dc);
      assert ray == [Square(r, c)] + rest;
      assert forall i :: 1 <= i < |ray| ==> ray[i] == rest[i - 1];
    }
  }

  /** The square a scan from (r, c) along (dr, dc) looks at after `ray`. */
  function NextAfter(ray: seq<Square>, r: int, c: int, dr: int, dc: int): Square {
    if ray == [] then Square(r, c) else Square(ray[|ray| - 1].row + dr, ray[|ray| - 1].col + dc)
  }

  /** A square that stops a ray without being listed: off the board or friendly. */
  predicate Blocks(g: Grid, n: int, white: bool, s: Square)
    requires IsGrid(g, n)
  {
    !OnBoard(n, s.row, s.col) || (g[s.row][s.col].Some? && g[s.row][s.col].value.white == white)
  }

  /** A ray ends on an empty square or an enemy; when it does not end on an
      enemy, the next square along blocks it. */
  predicate EndsRight(g: Grid, n: int, white: bool, ray: seq<Square>, r: int, c: int, dr: int, dc: int)
    requires IsGrid(g, n)
  {
    (ray != [] ==> FreeFor(g, n, white, ray[|ray| - 1])) &&
    ((ray == [] || g[ray[|ray| - 1].row][ray[|ray| - 1].col].None?) ==>
       Blocks(g, n, white, NextAfter(ray, r, c, dr, dc)))
  }

  /** An empty on-board square in front of a ray that ends right. */
  lemma EndsRightCons(g: Grid, n: int, white: bool, rest: seq<Square>, r: int, c: int, dr: int, dc: int)
    requires IsGrid(g, n) && OnBoard(n, r, c) && g[r][c].None?
    requires EndsRight(g, n, white, rest, r + dr, c + dc, dr, dc)
    ensures EndsRight(g, n, white, [Square(r, c)] + rest, r, c, dr, dc)
  {
    if rest != [] {
      SeqFacts.LastOfCons(Square(r, c), rest);
    }
  }

  /** Every ray addLines produces ends right. */
  lemma {:induction false} RayStops(g: Grid, n: int, white: bool, r: int, c: int, dr: int, dc: int)
    requires IsGrid(g, n) && IsDir(dr, dc)
    ensures EndsRight(g, n, white, Ray(g, n, white, r, c, dr, dc), r, c, dr, dc)
    decreases RayMeasure(n, r, c, dr, dc)
  {
    if OnBoard(n, r, c) && g[r][c].None? {
      RayStops(g, n, white, r + dr, c + dc, dr, dc);
      RayEmptyStep(g, n, white, r, c, dr, dc);
      EndsRightCons(g, n, white, Ray(g, n, white, r + dr, c + dc, dr, dc), r, c, dr, dc);
    }
  }

  lemma {:induction false} RayFree(g: Grid, n: int, white: bool, r: int, c: int, dr: int, dc: int, s: Square)
    requires IsGrid(g, n) && IsDir(dr, dc)
    requires s in Ray(g, n, white, r, c, dr, dc)
    ensures FreeFor(g, n, white, s)
    decreases RayMeasure(n, r, c, dr, dc)
  {
    if OnBoard(n, r, c) && g[r][c].None? && s != Square(r, c) {
      RayFree(g, n, white, r + dr, c + dc, dr, dc, s);
    }
  }

  lemma {:induction false} SlidesFree(g: Grid, n: int, white: bool, r: int, c: int, dirs: seq<(int, int)>, s: Square)
    requires IsGrid(g, n) && AllDirs(dirs)
    requires s in Slides(g, n, white, r, c, dirs)
    ensures FreeFor(g, n, white, s)
    decreases |dirs|
  {
    var d := dirs[|dirs| - 1];
    if s in Slides(g, n, white, r, c, dirs[..|dirs| - 1]) {
      SlidesFree(g, n, white, r, c, dirs[..|dirs| - 1], s);
    } else {
      RayFree(g, n, white, r + d.0, c + d.1, d.0, d.1, s);
    }
  }

  lemma {:induction false} JumpsFree(g: Grid, n: int, white: bool, r: int, c: int, offs: seq<(int, int)>, s: Square)
    requires IsGrid(g, n)
    requires s in Jumps(g, n, white, r, c, offs)
    ensures FreeFor(g, n, white, s)
    decreases |offs|
  {
    if s in Jumps(g, n, white, r, c, offs[..|offs| - 1]) {
      JumpsFree(g, n, white, r, c, offs[..|offs| - 1], s);
    }
  }

  /** Every move of a pawn goes one or two rows forward in its direction. */
  lemma PawnTargetRow(g: Grid, n: int, white: bool, r: int, c: int, s: Square)
    requires IsGrid(g, n) && s in PawnMoves(g, n, white, r, c)
    ensures s.row == r + Dir(white) || s.row == r + 2 * Dir(white)
  {
    var d := Dir(white);
    assert PawnMoves(g, n, white, r, c) ==
      PawnAdvance(g, n, white, r, c) + Capture(g, n, white, r + d, c - 1) + Capture(g, n, white, r + d, c + 1);
  }

  /** The pawn case of ValidMovesTargets: the start row lies inside the board,
      so only the single forward step can leave it. */
  lemma PawnTargets(g: Grid, n: int, white: bool, r: int, c: int, s: Square)
    requires IsSize(n) && IsGrid(g, n) && OnBoard(n, r, c)
    requires s in PawnMoves(g, n, white, r, c)
    ensures FreeFor(g, n, white, s) || PawnOverrun(n, Piece(Pawn, white), r, c, s)
  {
    var d := Dir(white);
    if s in Capture(g, n, white, r + d, c - 1) || s in Capture(g, n, white, r + d, c + 1) {
    } else if s == Square(r + d, c) {
    } else {
      assert r == PawnStartRow(n, white) && s == Square(r + 2 * d, c);
      assert OnBoard(n, r + 2 * d, c);
    }
  }

  /** getValidMoves lists only on-board squares not held by a friendly piece,
      except the off-board forward step of a pawn on its last row. */
  lemma ValidMovesTargets(g: Grid, n: int, r: int, c: int, s: Square)
    requires IsSize(n) && IsGrid(g, n) && OnBoard(n, r, c) && g[r][c].Some?
    requires s in ValidMoves(g, n, r, c)
    ensures FreeFor(g, n, g[r][c].value.white, s) || PawnOverrun(n, g[r][c].value, r, c, s)
  {
    var p := g[r][c].value;
    match p.kind
    case Pawn => PawnTargets(g, n, p.white, r, c, s);
    case Rook => SlidesFree(g, n, p.white, r, c, RookDirs, s);
    case Bishop => SlidesFree(g, n, p.white, r, c, BishopDirs, s);
    case Queen => SlidesFree(g, n, p.white, r, c, QueenDirs, s);
    case Knight => JumpsFree(g, n, p.white, r, c, KnightJumps, s);
    case King => JumpsFree(g, n, p.white, r, c, KingSteps, s);
  }

  /** Conversely, a pawn on the last row in its direction does get that
      off-board forward step. */
  lemma PawnOverrunListed(g: Grid, n: int, r: int, c: int)
    requires IsGrid(g, n) && OnBoard(n, r, c) && g[r][c].Some? && g[r][c].value.kind == Pawn
    requires !(0 <= r + Dir(g[r][c].value.white) < n)
    ensures Square(r + Dir(g[r][c].value.white), c) in ValidMoves(g, n, r, c)
  {
    var p := g[r][c].value;
    assert PawnMoves(g, n, p.white, r, c)[0] == Square(r + Dir(p.white), c);
  }

  lemma {:induction false} RayLength(g: Grid, n: int, white: bool, r: int, c: int, dr: int, dc: int)
    requires IsGrid(g, n) && IsDir(dr, dc)
    ensures |Ray(g, n, white, r, c, dr, dc)| <= if OnBoard(n, r, c) then RayMeasure(n, r, c, dr, dc) else 0
    decreases RayMeasure(n, r, c, dr, dc)
  {
    if OnBoard(n, r, c) && g[r][c].None? {
      RayLength(g, n, white, r + dr, c + dc, dr, dc);
    }
  }

  lemma RayMeasureBound(n: int, r: int, c: int, dr: int, dc: int)
    requires OnBoard(n, r, c) && IsDir(dr, dc)
    ensures RayMeasure(n, r + dr, c + dc, dr, dc) <= 2 * n
  {
  }

  /** Every slide of a piece on the board lists fewer than 2 N squares per
      direction. */
  lemma SlidesLength(g: Grid, n: int, white: bool, r: int, c: int, dirs: seq<(int, int)>)
    requires IsGrid(g, n) && AllDirs(dirs) && OnBoard(n, r, c)
    ensures |Slides(g, n, white, r, c, dirs)| <= |dirs| * (2 * n)
  {
    SlidesWithin(g, n, white, r, c, dirs);
    RaysBoundIs(|dirs|, n);
  }

  /** k rays of at most 2 N squares each, summed one ray at a time. */
  function RaysBound(k: nat, n: int): int {
    if k == 0 then 0 else RaysBound(k - 1, n) + 2 * n
  }

  lemma {:induction false} RaysBoundIs(k: nat, n: int)
    ensures RaysBound(k, n) == k * (2 * n)
  {
    if k > 0 {
      RaysBoundIs(k - 1, n);
      MulSucc(k - 1, 2 * n);
    }
  }

  lemma {:induction false} SlidesWithin(g: Grid, n: int, white: bool, r: int, c: int, dirs: seq<(int, int)>)
    requires IsGrid(g, n) && AllDirs(dirs) && OnBoard(n, r, c)
    ensures |Slides(g, n, white, r, c, dirs)| <= RaysBound(|dirs|, n)
    decreases |dirs|
  {
    if dirs != [] {
      var d := dirs[|dirs| - 1];
      SlidesSnoc(g, n, white, r, c, dirs);
      SlidesWithin(g, n, white, r, c, dirs[..|dirs| - 1]);
      RayWithin(g, n, white, r, c, d.0, d.1);
    }
  }

  /** The ray a slider on the board casts along one direction is shorter than 2 N. */
  lemma RayWithin(g: Grid, n: int, white: bool, r: int, c: int, dr: int, dc: int)
    requires IsGrid(g, n) && IsDir(dr, dc) && OnBoard(n, r, c)
    ensures |Ray(g, n, white, r + dr, c + dc, dr, dc)| <= 2 * n
  {
    RayLength(g, n, white, r + dr, c + dc, dr, dc);
    RayMeasureBound(n, r, c, dr, dc);
  }

  /** Slides over a non-empty list of directions: those before the last one,
      then the last one's ray. */
  lemma SlidesSnoc(g: Grid, n: int, white: bool, r: int, c: int, dirs: seq<(int, int)>)
    requires IsGrid(g, n) && AllDirs(dirs) && dirs != []
    ensures AllDirs(dirs[..|dirs| - 1]) && IsDir(dirs[|dirs| - 1].0, dirs[|dirs| - 1].1)
    ensures var d := dirs[|dirs| - 1];
      |Slides(g, n, white, r, c, dirs)| ==
        |Slides(g, n, white, r, c, dirs[..|dirs| - 1])| + |Ray(g, n, white, r + d.0, c + d.1, d.0, d.1)|
  {
  }

  lemma MulSucc(k: int, w: int)
    ensures (k + 1) * w == k * w + w
  {
  }

  lemma {:induction false} JumpsLength(g: Grid, n: int, white: bool, r: int, c: int, offs: seq<(int, int)>)
    requires IsGrid(g, n)
    ensures |Jumps(g, n, white, r, c, offs)| <= |offs|
    decreases |offs|
  {
    if offs != [] {
      JumpsLength(g, n, white, r, c, offs[..|offs| - 1]);
    }
  }

  /** No piece has more than 16 N destinations (a queen: eight rays, each
      shorter than 2 N). */
  lemma ValidMovesLength(g: Grid, n: int, r: int, c: int)
    requires IsGrid(g, n) && OnBoard(n, r, c)
    ensures |ValidMoves(g, n, r, c)| <= 16 * n
  {
    if g[r][c].Some? {
      var p := g[r][c].value;
      match p.kind
      case Pawn =>
      case Rook => SlidesLength(g, n, p.white, r, c, RookDirs);
      case Bishop => SlidesLength(g, n, p.white, r, c, BishopDirs);
      case Queen => SlidesLength(g, n, p.white, r, c, QueenDirs);
      case Knight => JumpsLength(g, n, p.white, r, c, KnightJumps);
      case King => JumpsLength(g, n, p.white, r, c, KingSteps);
    }
  }

  // ------------------------------------------------------------- check

  predicate IsKingOf(x: Cell, white: bool) { x == Some(Piece(King, white)) }

  /** (kr, kc) holds the first king of colour `white` in row-major order. */
  ghost predicate IsFirstKing(g: Grid, n: int, white: bool, kr: int, kc: int)
    requires IsGrid(g, n)
  {
    OnBoard(n, kr, kc) && IsKingOf(g[kr][kc], white) &&
    forall r, c :: OnBoard(n, r, c) && (r < kr || (r == kr && c < kc)) ==> !IsKingOf(g[r][c], white)
  }

  /** Some piece of colour `byWhite` lists (kr, kc) among its destinations. */
  ghost predicate Attacked(g: Grid, n: int, byWhite: bool, kr: int, kc: int)
    requires IsGrid(g, n)
  {
    exists r, c :: OnBoard(n, r, c) && g[r][c].Some? && g[r][c].value.white == byWhite &&
                   Square(kr, kc) in ValidMoves(g, n, r, c)
  }

  /** A piece of colour `byWhite` on (r, c) that lists (kr, kc) attacks it. */
  lemma AttackWitness(g: Grid, n: int, byWhite: bool, kr: int, kc: int, r: int, c: int)
    requires IsGrid(g, n) && OnBoard(n, r, c) && g[r][c].Some? && g[r][c].value.white == byWhite
    requires Square(kr, kc) in ValidMoves(g, n, r, c)
    ensures Attacked(g, n, byWhite, kr, kc)
  {
  }

  /** Some j in 0 .. c-1 satisfies f: a left-to-right scan that stops at the
      first hit has found none exactly when this is false. */
  ghost predicate AnyBelow(f: int -> bool, c: int)
    decreases c
  {
    c > 0 && (AnyBelow(f, c - 1) || f(c - 1))
  }

  lemma {:induction false} AnyBelowSpec(f: int -> bool, c: int)
    ensures AnyBelow(f, c) <==> exists j :: 0 <= j < c && f(j)
    decreases c
  {
    if c > 0 {
      AnyBelowSpec(f, c - 1);
    }
  }

  /** The columns of row r whose piece of colour `byWhite` lists (kr, kc). */
  ghost function RowHits(g: Grid, n: int, byWhite: bool, r: int, kr: int, kc: int): int -> bool
    requires IsGrid(g, n) && 0 <= r < n
  {
    j => 0 <= j < n && g[r][j].Some? && g[r][j].value.white == byWhite && Square(kr, kc) in ValidMoves(g, n, r, j)
  }

  /** Some row among 0 .. r-1 has a hit: the outer loop of the attack scan. */
  ghost predicate AnyRowHit(g: Grid, n: int, byWhite: bool, kr: int, kc: int, r: int)
    requires IsGrid(g, n) && 0 <= r <= n
    decreases r
  {
    r > 0 && (AnyRowHit(g, n, byWhite, kr, kc, r - 1) || AnyBelow(RowHits(g, n, byWhite, r - 1, kr, kc), n))
  }

  /** No hit in rows 0 .. r-1 means no hit in any one of them. */
  lemma {:induction false} NoRowHitBelow(g: Grid, n: int, byWhite: bool, kr: int, kc: int, r: int, i: int)
    requires IsGrid(g, n) && 0 <= i < r <= n && !AnyRowHit(g, n, byWhite, kr, kc, r)
    ensures !AnyBelow(RowHits(g, n, byWhite, i, kr, kc), n)
    decreases r
  {
    if i < r - 1 {
      NoRowHitBelow(g, n, byWhite, kr, kc, r - 1, i);
    }
  }

  /** A scan that found no hit in any row proves the square unattacked. */
  lemma NoRowHitNoAttack(g: Grid, n: int, byWhite: bool, kr: int, kc: int)
    requires IsGrid(g, n) && !AnyRowHit(g, n, byWhite, kr, kc, n)
    ensures !Attacked(g, n, byWhite, kr, kc)
  {
    forall i, j | OnBoard(n, i, j) && g[i][j].Some? && g[i][j].value.white == byWhite
      ensures Square(kr, kc) !in ValidMoves(g, n, i, j)
    {
      NoRowHitBelow(g, n, byWhite, kr, kc, n, i);
      AnyBelowSpec(RowHits(g, n, byWhite, i, kr, kc), n);
      assert !RowHits(g, n, byWhite, i, kr, kc)(j);
    }
  }

  /** isInCheck: the first king of that colour is attacked; with no king, false. */
  ghost predicate InCheck(g: Grid, n: int, white: bool)
    requires IsGrid(g, n)
  {
    exists kr, kc :: IsFirstKing(g, n, white, kr, kc) && Attacked(g, n, !white, kr, kc)
  }

  /** The first king is unique, so check reduces to an attack on that square. */
  lemma FirstKingUnique(g: Grid, n: int, white: bool, kr: int, kc: int)
    requires IsGrid(g, n) && IsFirstKing(g, n, white, kr, kc)
    ensures forall r, c :: IsFirstKing(g, n, white, r, c) ==> r == kr && c == kc
    ensures InCheck(g, n, white) <==> Attacked(g, n, !white, kr, kc)
  {
  }

  lemma NoKingNoCheck(g: Grid, n: int, white: bool)
    requires IsGrid(g, n)
    requires forall r, c :: OnBoard(n, r, c) ==> !IsKingOf(g[r][c], white)
    ensures !InCheck(g, n, white)
  {
  }

  // --------------------------------------------------- board transitions

  /** The value the board engine holds: the grid, its side, the side to move
      and the undo stack (last element on top). */
  datatype Position = Position(cells: Grid, size: int, whiteTurn: bool, history: seq<MoveRecord>)

  predicate RecordOnBoard(rec: MoveRecord, n: int) {
    OnBoard(n, rec.sr, rec.sc) && OnBoard(n, rec.tr, rec.tc)
  }

  predicate ValidPos(p: Position) {
    IsSize(p.size) && IsGrid(p.cells, p.size) &&
    forall i :: 0 <= i < |p.history| ==> RecordOnBoard(p.history[i], p.size)
  }

  /** The starting position of a board of side 8 * m, White to move, empty stack. */
  function Start(m: int): (p: Position)
    requires m == 1 || m == 2 || m == 4
    ensures ValidPos(p)
  {
    Position(SetupGrid(m), 8 * m, true, [])
  }

  /** movePiece reads both squares before changing anything, so it fails without
      effect (an index exception or a null dereference in the source) unless both
      squares are on the board and the source square holds a piece. */
  predicate CanMove(p: Position, m: Move)
    requires ValidPos(p)
  {
    OnBoard(p.size, m.sr, m.sc) && OnBoard(p.size, m.tr, m.tc) && p.cells[m.sr][m.sc].Some?
  }

  /** The grid after moving the piece on the source square to the target. */
  function ApplyGrid(g: Grid, n: int, m: Move): (h: Grid)
    requires IsGrid(g, n) && OnBoard(n, m.sr, m.sc) && OnBoard(n, m.tr, m.tc)
    ensures IsGrid(h, n)
  {
    Set(Set(g, n, m.tr, m.tc, g[m.sr][m.sc]), n, m.sr, m.sc, None)
  }

  /** movePiece: push a record, move the piece, pass the turn. */
  function MovePiece(p: Position, m: Move): (q: Position)
    requires ValidPos(p) && CanMove(p, m)
    ensures ValidPos(q)
  {
    var rec := MoveRecord(m.sr, m.sc, m.tr, m.tc, p.cells[m.sr][m.sc].value, p.cells[m.tr][m.tc]);
    Position(ApplyGrid(p.cells, p.size, m), p.size, !p.whiteTurn, p.history + [rec])
  }

  /** undoLastMove: pop the top record, put the mover back as it was before the
      move and the captured piece on the target, pass the turn back. On an empty
      stack nothing changes. */
  function UndoLast(p: Position): (q: Position)
    requires ValidPos(p)
    ensures ValidPos(q)
  {
    if p.history == [] then p
    else
      var rec := p.history[|p.history| - 1];
      var g := Set(Set(p.cells, p.size, rec.sr, rec.sc, Some(rec.moved)), p.size, rec.tr, rec.tc, rec.captured);
      Position(g, p.size, !p.whiteTurn, p.history[..|p.history| - 1])
  }

  /** The five-argument undoMove the variant AI uses: whatever is on the target
      goes back to the source, `captured` goes back on the target and the turn
      passes back; the undo stack is left as it is. */
  function UndoMove(p: Position, m: Move, captured: Cell): (q: Position)
    requires ValidPos(p) && OnBoard(p.size, m.sr, m.sc) && OnBoard(p.size, m.tr, m.tc)
    ensures ValidPos(q)
  {
    var g := Set(Set(p.cells, p.size, m.sr, m.sc, p.cells[m.tr][m.tc]), p.size, m.tr, m.tc, captured);
    Position(g, p.size, !p.whiteTurn, p.history)
  }

  /** promotePiece: an occupied square takes the new kind; an empty one stays empty. */
  function Promote(p: Position, r: int, c: int, k: Kind): (q: Position)
    requires ValidPos(p) && OnBoard(p.size, r, c)
    ensures ValidPos(q)
  {
    match p.cells[r][c]
    case None => p
    case Some(x) => p.(cells := Set(p.cells, p.size, r, c, Some(Piece(k, x.white))))
  }

  /** A move followed by undoLastMove restores every square, the side to move
      and the stack, also when the mover was promoted in between. */
  lemma MoveUndoRoundTrip(p: Position, m: Move, promotion: Option<Kind>)
    requires ValidPos(p) && CanMove(p, m)
    ensures var q := MovePiece(p, m);
      var q' := if promotion.Some? then Promote(q, m.tr, m.tc, promotion.value) else q;
      UndoLast(q') == p
  {
    var q := MovePiece(p, m);
    var q' := if promotion.Some? then Promote(q, m.tr, m.tc, promotion.value) else q;
    assert q'.history == p.history + [q.history[|q.history| - 1]];
    assert q'.history[..|q'.history| - 1] == p.history;
    var u := UndoLast(q');
    forall i, j | OnBoard(p.size, i, j) ensures u.cells[i][j] == p.cells[i][j] {
    }
    GridExt(u.cells, p.cells, p.size);
  }

  /** A probe (move, then the five-argument undo with the square's old content)
      restores every square and the side to move, but leaves the move's record
      on the stack. */
  lemma ProbeRestores(p: Position, m: Move)
    requires ValidPos(p) && CanMove(p, m)
    ensures var q := UndoMove(MovePiece(p, m), m, p.cells[m.tr][m.tc]);
      q.cells == p.cells && q.whiteTurn == p.whiteTurn && q.size == p.size &&
      q.history == p.history + [MoveRecord(m.sr, m.sc, m.tr, m.tc, p.cells[m.sr][m.sc].value, p.cells[m.tr][m.tc])]
  {
    ProbeGrid(p.cells, p.size, m);
  }

  /** The grid part of a probe: moving, then putting back whatever stands on
      the target and restoring the target's old content, gives the grid back. */
  lemma ProbeGrid(g: Grid, n: int, m: Move)
    requires IsGrid(g, n) && OnBoard(n, m.sr, m.sc) && OnBoard(n, m.tr, m.tc)
    ensures var h := ApplyGrid(g, n, m);
      Set(Set(h, n, m.sr, m.sc, h[m.tr][m.tc]), n, m.tr, m.tc, g[m.tr][m.tc]) == g
  {
    var h := ApplyGrid(g, n, m);
    var q := Set(Set(h, n, m.sr, m.sc, h[m.tr][m.tc]), n, m.tr, m.tc, g[m.tr][m.tc]);
    forall i, j | OnBoard(n, i, j) ensures q[i][j] == g[i][j] {
    }
    GridExt(q, g, n);
  }
}
