/** The built-in opponent used in amusement mode and on boards other than
    8 x 8 (the source's AmusementChessAI): an evaluation function, a move
    generator and a depth-limited alpha-beta minimax that probes moves on the
    live board engine and takes them back. White minimises, Black maximises;
    the AI always moves for Black. */
module AmusementAi {
  import opened ChessTypes
  import Rules
  import Logic

  /** Java's Integer.MIN_VALUE and Integer.MAX_VALUE, the search's open bounds. */
  const MinInt: int := -2147483648
  const MaxInt: int := 2147483647

  /** The score of a position where the side to move has no move at all:
      Integer.MAX_VALUE / -2 with White to move and Integer.MAX_VALUE / 2 with
      Black to move (Java division truncates, so both are 1073741823 in size). */
  const NoMovesWhiteToMove: int := -1073741823
  const NoMovesBlackToMove: int := 1073741823

  function Min(a: int, b: int): int { if a <= b then a else b }
  function Max(a: int, b: int): int { if a >= b then a else b }
  function Abs(x: int): nat { if x < 0 then -x else x }

  // ------------------------------------------------------------ evaluation

  /** getPieceValue: the material value of each kind. */
  function PieceValue(k: Kind): (v: int)
    ensures 10 <= v <= 900
    ensures v == 900 <==> k == King
    ensures v == 10 <==> k == Pawn
  {
    match k
    case Pawn => 10
    case Knight => 30
    case Bishop => 30
    case Rook => 50
    case Queen => 90
    case King => 900
  }

  /** The Manhattan distance from (r, c) to the centre square (n / 2, n / 2). */
  function CenterDistance(r: int, c: int, n: int): nat {
    Abs(r - n / 2) + Abs(c - n / 2)
  }

  /** getCenterControlBonus: 5 at the centre, shrinking by 5 per board width of
      distance, never negative. */
  function CenterBonus(r: int, c: int, n: int): (b: int)
    requires n > 0
    ensures 0 <= b <= 5
  {
    var d := CenterDistance(r, c, n);
    Max(0, 5 - d * 5 / n)
  }

  lemma CenterBonusPeak(n: int)
    requires n > 0
    ensures CenterBonus(n / 2, n / 2, n) == 5
  {
  }

  lemma MulMonotone(n: int, x: int, y: int)
    requires n >= 0 && x <= y
    ensures n * x <= n * y
  {
    assert n * y - n * x == n * (y - x);
  }

  lemma DivMonotone(a: int, b: int, n: int)
    requires 0 <= a <= b && n > 0
    ensures a / n <= b / n
  {
    var qa, qb := a / n, b / n;
    if qa > qb {
      MulMonotone(n, qb + 1, qa);
    }
  }

  /** A square no farther from the centre than another earns at least as much. */
  lemma CenterBonusMonotone(n: int, r1: int, c1: int, r2: int, c2: int)
    requires n > 0 && CenterDistance(r1, c1, n) <= CenterDistance(r2, c2, n)
    ensures CenterBonus(r1, c1, n) >= CenterBonus(r2, c2, n)
  {
    DivMonotone(CenterDistance(r1, c1, n) * 5, CenterDistance(r2, c2, n) * 5, n);
  }

  /** Squares a full board width or more from the centre earn nothing. */
  lemma CenterBonusFar(n: int, r: int, c: int)
    requires n > 0 && CenterDistance(r, c, n) >= n
    ensures CenterBonus(r, c, n) == 0
  {
    DivMonotone(n * 5, CenterDistance(r, c, n) * 5, n);
  }

  /** getPawnAdvanceBonus: twice (n minus the pawn's distance from an edge),
      the distance counted from row 0 for White and from row n - 1 for Black. */
  function PawnAdvanceBonus(r: int, white: bool, n: int): int {
    if white then (n - r) * 2 else (n - (n - 1 - r)) * 2
  }

  /** The two colours are scored as mirror images, every step toward the
      promotion row is worth 2 more, and on the board the bonus lies in 2 .. 2 n. */
  lemma PawnAdvanceShape(r: int, n: int)
    ensures PawnAdvanceBonus(r, true, n) == PawnAdvanceBonus(n - 1 - r, false, n)
    ensures PawnAdvanceBonus(r - 1, true, n) == PawnAdvanceBonus(r, true, n) + 2
    ensures PawnAdvanceBonus(r + 1, false, n) == PawnAdvanceBonus(r, false, n) + 2
    ensures 0 <= r < n ==> 2 <= PawnAdvanceBonus(r, true, n) <= 2 * n && 2 <= PawnAdvanceBonus(r, false, n) <= 2 * n
  {
  }

  /** A piece of colour `white` stands on (r, c), which is on the board. */
  predicate FriendAt(g: Grid, n: int, r: int, c: int, white: bool)
    requires Rules.IsGrid(g, n)
  {
    Rules.OnBoard(n, r, c) && g[r][c].Some? && g[r][c].value.white == white
  }

  /** getKingSafetyBonus over the offsets `offs`: 3 for each friendly
      neighbour on the board. */
  function KingSafety(g: Grid, n: int, r: int, c: int, white: bool, offs: seq<(int, int)>): (s: int)
    requires Rules.IsGrid(g, n)
    ensures 0 <= s <= 3 * |offs| && s % 3 == 0
  {
    if offs == [] then 0
    else
      var o := offs[|offs| - 1];
      KingSafety(g, n, r, c, white, offs[..|offs| - 1]) + (if FriendAt(g, n, r + o.0, c + o.1, white) then 3 else 0)
  }

  /** KingSafety over one more offset. */
  lemma KingSafetyStep(g: Grid, n: int, r: int, c: int, white: bool, offs: seq<(int, int)>, k: int)
    requires Rules.IsGrid(g, n) && 0 <= k < |offs|
    ensures KingSafety(g, n, r, c, white, offs[..k + 1]) ==
            KingSafety(g, n, r, c, white, offs[..k]) + (if FriendAt(g, n, r + offs[k].0, c + offs[k].1, white) then 3 else 0)
  {
    assert offs[..k + 1][..k] == offs[..k];
  }

  /** A king with no friendly neighbour gets no safety bonus. */
  lemma {:induction false} KingSafetyAlone(g: Grid, n: int, r: int, c: int, white: bool, offs: seq<(int, int)>)
    requires Rules.IsGrid(g, n)
    requires forall i :: 0 <= i < |offs| ==> !FriendAt(g, n, r + offs[i].0, c + offs[i].1, white)
    ensures KingSafety(g, n, r, c, white, offs) == 0
    decreases |offs|
  {
    if offs != [] {
      KingSafetyAlone(g, n, r, c, white, offs[..|offs| - 1]);
    }
  }

  /** The part of evaluateBoard contributed by one square: material, and on
      boards larger than 8 x 8 also the centre, pawn-advance, mobility (2 per
      destination) and king-safety bonuses; added for Black, subtracted for White. */
  function CellScore(g: Grid, n: int, r: int, c: int): int
    requires Rules.IsGrid(g, n) && Rules.OnBoard(n, r, c)
  {
    match g[r][c]
    case None => 0
    case Some(p) =>
      var worth := PieceValue(p.kind) +
        (if n > 8 then
           CenterBonus(r, c, n) +
           (if p.kind == Pawn then PawnAdvanceBonus(r, p.white, n) else 0) +
           |Rules.ValidMoves(g, n, r, c)| * 2 +
           (if p.kind == King then KingSafety(g, n, r, c, p.white, Rules.KingSteps) else 0)
         else 0);
      if p.white then -worth else worth
  }

  /** Squares (r, 0) .. (r, k - 1). */
  function RowScore(g: Grid, n: int, r: int, k: int): int
    requires Rules.IsGrid(g, n) && 0 <= r < n && 0 <= k <= n
  {
    if k == 0 then 0 else RowScore(g, n, r, k - 1) + CellScore(g, n, r, k - 1)
  }

  /** Rows 0 .. k - 1. */
  function BoardScore(g: Grid, n: int, k: int): int
    requires Rules.IsGrid(g, n) && 0 <= k <= n
  {
    if k == 0 then 0 else BoardScore(g, n, k - 1) + RowScore(g, n, k - 1, n)
  }

  /** evaluateBoard: positive favours Black. The side in check is penalised by 50. */
  ghost function Evaluate(g: Grid, n: int): int
    requires Rules.IsGrid(g, n)
  {
    BoardScore(g, n, n) + (if Rules.InCheck(g, n, true) then 50 else 0) - (if Rules.InCheck(g, n, false) then 50 else 0)
  }

  /** Black's pieces count for Black and White's against, by at least their
      material; on the classic board a square scores exactly its material. */
  lemma CellScoreSign(g: Grid, n: int, r: int, c: int)
    requires Rules.IsGrid(g, n) && Rules.OnBoard(n, r, c)
    ensures g[r][c].None? ==> CellScore(g, n, r, c) == 0
    ensures g[r][c].Some? && !g[r][c].value.white ==> CellScore(g, n, r, c) >= PieceValue(g[r][c].value.kind)
    ensures g[r][c].Some? && g[r][c].value.white ==> CellScore(g, n, r, c) <= -PieceValue(g[r][c].value.kind)
    ensures n == 8 && g[r][c].Some? ==>
      CellScore(g, n, r, c) == (if g[r][c].value.white then -1 else 1) * PieceValue(g[r][c].value.kind)
  {
  }

  const CellBound: int := 2100

  /** No square scores more than 2100 either way. */
  lemma CellScoreBound(g: Grid, n: int, r: int, c: int)
    requires Rules.IsSize(n) && Rules.IsGrid(g, n) && Rules.OnBoard(n, r, c)
    ensures -CellBound <= CellScore(g, n, r, c) <= CellBound
  {
    Rules.ValidMovesLength(g, n, r, c);
  }

  lemma {:induction false} RowScoreBound(g: Grid, n: int, r: int, k: int)
    requires Rules.IsSize(n) && Rules.IsGrid(g, n) && 0 <= r < n && 0 <= k <= n
    ensures -CellBound * k <= RowScore(g, n, r, k) <= CellBound * k
  {
    if k > 0 {
      RowScoreBound(g, n, r, k - 1);
      CellScoreBound(g, n, r, k - 1);
    }
  }

  /** 2100 times the widest row. */
  const RowBound: int := 67200

  lemma {:induction false} BoardScoreBound(g: Grid, n: int, k: int)
    requires Rules.IsSize(n) && Rules.IsGrid(g, n) && 0 <= k <= n
    ensures -RowBound * k <= BoardScore(g, n, k) <= RowBound * k
  {
    if k > 0 {
      BoardScoreBound(g, n, k - 1);
      RowScoreBound(g, n, k - 1, n);
    }
  }

  const EvalBound: int := 2150450

  /** Every evaluation lies well inside the "no moves" scores, so the search
      never confuses a real position with one where the side to move is stuck. */
  lemma EvaluateBound(g: Grid, n: int)
    requires Rules.IsSize(n) && Rules.IsGrid(g, n)
    ensures -EvalBound <= Evaluate(g, n) <= EvalBound
    ensures EvalBound < NoMovesBlackToMove && NoMovesWhiteToMove < -EvalBound
  {
    BoardScoreBound(g, n, n);
  }

  // ------------------------------------------------------- move generation

  /** What generateAllMoves lists for the side `white`: a move from a square
      holding a piece of that colour to one of that piece's destinations; the
      corrected generator (onBoardOnly) also demands the target be on the board. */
  predicate Generated(g: Grid, n: int, white: bool, m: Move, onBoardOnly: bool)
    requires Rules.IsGrid(g, n)
  {
    Rules.OnBoard(n, m.sr, m.sc) && g[m.sr][m.sc].Some? && g[m.sr][m.sc].value.white == white &&
    Square(m.tr, m.tc) in Rules.ValidMoves(g, n, m.sr, m.sc) &&
    (onBoardOnly ==> Rules.OnBoard(n, m.tr, m.tc))
  }

  /** Moves that the board engine's movePiece can carry out. */
  predicate Playable(g: Grid, n: int, moves: seq<Move>)
    requires Rules.IsGrid(g, n)
  {
    forall i :: 0 <= i < |moves| ==>
      Rules.OnBoard(n, moves[i].sr, moves[i].sc) && Rules.OnBoard(n, moves[i].tr, moves[i].tc) &&
      g[moves[i].sr][moves[i].sc].Some?
  }

  /** A table of destination lists, one per square, row by row. */
  predicate IsTable(t: seq<seq<seq<Square>>>, n: int) {
    |t| == n && forall r :: 0 <= r < n ==> |t[r]| == n
  }

  /** The destinations getValidMoves reports for every square of the board. */
  function DestTable(g: Grid, n: int): (t: seq<seq<seq<Square>>>)
    requires Rules.IsGrid(g, n)
    ensures IsTable(t, n)
  {
    seq(n, r requires 0 <= r < n => seq(n, c requires 0 <= c < n => Rules.ValidMoves(g, n, r, c)))
  }

  lemma DestTableAt(g: Grid, n: int, r: int, c: int)
    requires Rules.IsGrid(g, n) && Rules.OnBoard(n, r, c)
    ensures DestTable(g, n)[r][c] == Rules.ValidMoves(g, n, r, c)
  {
  }

  /** Generated, with the destinations read from the table t. */
  predicate Listed(g: Grid, n: int, t: seq<seq<seq<Square>>>, white: bool, m: Move, onBoardOnly: bool)
    requires Rules.IsGrid(g, n) && IsTable(t, n)
  {
    Rules.OnBoard(n, m.sr, m.sc) && g[m.sr][m.sc].Some? && g[m.sr][m.sc].value.white == white &&
    Square(m.tr, m.tc) in t[m.sr][m.sc] &&
    (onBoardOnly ==> Rules.OnBoard(n, m.tr, m.tc))
  }

  lemma ListedGenerated(g: Grid, n: int, white: bool, m: Move, onBoardOnly: bool)
    requires Rules.IsGrid(g, n)
    ensures Listed(g, n, DestTable(g, n), white, m, onBoardOnly) <==> Generated(g, n, white, m, onBoardOnly)
  {
    if Rules.OnBoard(n, m.sr, m.sc) {
      DestTableAt(g, n, m.sr, m.sc);
    }
  }

  /** The points generateAllMoves' three nested loops pass: destination k of
      square (r, c), the end of row r (c == n), and the end of the board. */
  predicate ScanPoint(n: int, t: seq<seq<seq<Square>>>, r: int, c: int, k: int)
    requires IsTable(t, n)
  {
    (0 <= r < n && 0 <= c < n && 0 <= k <= |t[r][c]|) || (0 <= r < n && c == n && k == 0) || (r == n && c == 0 && k == 0)
  }

  /** What generateAllMoves adds for destination j of square (r, c): one move
      if the square holds a piece of the side (and, corrected, the destination
      is on the board). */
  function Emit(g: Grid, n: int, t: seq<seq<seq<Square>>>, white: bool, r: int, c: int, j: int, onBoardOnly: bool)
    : seq<Move>
    requires Rules.IsGrid(g, n) && IsTable(t, n) && Rules.OnBoard(n, r, c) && 0 <= j < |t[r][c]|
  {
    var d := t[r][c][j];
    if g[r][c].Some? && g[r][c].value.white == white && (!onBoardOnly || Rules.OnBoard(n, d.row, d.col))
    then [Move(r, c, d.row, d.col)]
    else []
  }

  /** The list generateAllMoves has built when its loops reach destination k
      of square (r, c): everything the squares before (r, c) in row-major
      order contribute, then the first k destinations of (r, c). */
  function Scan(g: Grid, n: int, t: seq<seq<seq<Square>>>, white: bool, r: int, c: int, k: int, onBoardOnly: bool)
    : seq<Move>
    requires Rules.IsGrid(g, n) && IsTable(t, n) && ScanPoint(n, t, r, c, k)
    decreases r, c, k
  {
    if k > 0 then Scan(g, n, t, white, r, c, k - 1, onBoardOnly) + Emit(g, n, t, white, r, c, k - 1, onBoardOnly)
    else if c > 0 then Scan(g, n, t, white, r, c - 1, |t[r][c - 1]|, onBoardOnly)
    else if r > 0 then Scan(g, n, t, white, r - 1, n, 0, onBoardOnly)
    else []
  }

  /** generateAllMoves as written: every listed destination becomes a move,
      including a pawn's forward step off the board. */
  function AllMovesAsWritten(g: Grid, n: int, white: bool): seq<Move>
    requires Rules.IsGrid(g, n)
  {
    Scan(g, n, DestTable(g, n), white, n, 0, 0, false)
  }

  /** generateAllMoves corrected: destinations off the board are skipped, so
      every move can be played by movePiece. */
  function AllMoves(g: Grid, n: int, white: bool): (ms: seq<Move>)
    requires Rules.IsGrid(g, n)
    ensures Playable(g, n, ms)
  {
    ScanPlayable(g, n, DestTable(g, n), white);
    Scan(g, n, DestTable(g, n), white, n, 0, 0, true)
  }

  /** One step of the scan, as an equation. */
  lemma ScanUnfold(g: Grid, n: int, t: seq<seq<seq<Square>>>, white: bool, r: int, c: int, k: int, onBoardOnly: bool)
    requires Rules.IsGrid(g, n) && IsTable(t, n) && ScanPoint(n, t, r, c, k)
    ensures k > 0 ==> Scan(g, n, t, white, r, c, k, onBoardOnly) ==
                      Scan(g, n, t, white, r, c, k - 1, onBoardOnly) + Emit(g, n, t, white, r, c, k - 1, onBoardOnly)
    ensures k == 0 < c ==> Scan(g, n, t, white, r, c, k, onBoardOnly) ==
                           Scan(g, n, t, white, r, c - 1, |t[r][c - 1]|, onBoardOnly)
    ensures k == c == 0 < r ==> Scan(g, n, t, white, r, c, k, onBoardOnly) == Scan(g, n, t, white, r - 1, n, 0, onBoardOnly)
  {
  }

  /** A square without a piece of the side adds nothing, whatever its destinations. */
  lemma {:induction false} ScanSkip(g: Grid, n: int, t: seq<seq<seq<Square>>>, white: bool, r: int, c: int, k: int,
                                    onBoardOnly: bool)
    requires Rules.IsGrid(g, n) && IsTable(t, n) && Rules.OnBoard(n, r, c) && 0 <= k <= |t[r][c]|
    requires g[r][c].None? || g[r][c].value.white != white
    ensures Scan(g, n, t, white, r, c, k, onBoardOnly) == Scan(g, n, t, white, r, c, 0, onBoardOnly)
    decreases k
  {
    if k > 0 {
      ScanUnfold(g, n, t, white, r, c, k, onBoardOnly);
      ScanSkip(g, n, t, white, r, c, k - 1, onBoardOnly);
    }
  }

  /** Entry j of `ms`, if there is one, is listed by the table. */
  predicate ListedAt(g: Grid, n: int, t: seq<seq<seq<Square>>>, white: bool, ms: seq<Move>, onBoardOnly: bool, j: int)
    requires Rules.IsGrid(g, n) && IsTable(t, n)
  {
    0 <= j < |ms| ==> Listed(g, n, t, white, ms[j], onBoardOnly)
  }

  /** Every move of `ms` is listed by the table. */
  ghost predicate AllListed(g: Grid, n: int, t: seq<seq<seq<Square>>>, white: bool, ms: seq<Move>, onBoardOnly: bool)
    requires Rules.IsGrid(g, n) && IsTable(t, n)
  {
    forall j :: ListedAt(g, n, t, white, ms, onBoardOnly, j)
  }

  lemma AllListedConcat(g: Grid, n: int, t: seq<seq<seq<Square>>>, white: bool, a: seq<Move>, b: seq<Move>,
                        onBoardOnly: bool)
    requires Rules.IsGrid(g, n) && IsTable(t, n)
    requires AllListed(g, n, t, white, a, onBoardOnly) && AllListed(g, n, t, white, b, onBoardOnly)
    ensures AllListed(g, n, t, white, a + b, onBoardOnly)
  {
    var ab := a + b;
    forall j
      ensures ListedAt(g, n, t, white, ab, onBoardOnly, j)
    {
      if 0 <= j < |a| {
        assert ListedAt(g, n, t, white, a, onBoardOnly, j);
        assert ab[j] == a[j];
      } else if |a| <= j < |ab| {
        assert ListedAt(g, n, t, white, b, onBoardOnly, j - |a|);
        assert ab[j] == b[j - |a|];
      }
    }
  }

  lemma EmitSound(g: Grid, n: int, t: seq<seq<seq<Square>>>, white: bool, r: int, c: int, j: int, onBoardOnly: bool)
    requires Rules.IsGrid(g, n) && IsTable(t, n) && Rules.OnBoard(n, r, c) && 0 <= j < |t[r][c]|
    ensures AllListed(g, n, t, white, Emit(g, n, t, white, r, c, j, onBoardOnly), onBoardOnly)
  {
    var ms := Emit(g, n, t, white, r, c, j, onBoardOnly);
    forall i
      ensures ListedAt(g, n, t, white, ms, onBoardOnly, i)
    {
      if 0 <= i < |ms| {
        assert t[r][c][j] in t[r][c];
      }
    }
  }

  lemma {:induction false} ScanSound(g: Grid, n: int, t: seq<seq<seq<Square>>>, white: bool, r: int, c: int, k: int,
                                     onBoardOnly: bool)
    requires Rules.IsGrid(g, n) && IsTable(t, n) && ScanPoint(n, t, r, c, k)
    ensures AllListed(g, n, t, white, Scan(g, n, t, white, r, c, k, onBoardOnly), onBoardOnly)
    decreases r, c, k
  {
    var ms := Scan(g, n, t, white, r, c, k, onBoardOnly);
    if k > 0 {
      var front, last := Scan(g, n, t, white, r, c, k - 1, onBoardOnly), Emit(g, n, t, white, r, c, k - 1, onBoardOnly);
      ScanSound(g, n, t, white, r, c, k - 1, onBoardOnly);
      EmitSound(g, n, t, white, r, c, k - 1, onBoardOnly);
      AllListedConcat(g, n, t, white, front, last, onBoardOnly);
      assert ms == front + last by { ScanUnfold(g, n, t, white, r, c, k, onBoardOnly); }
    } else if c > 0 {
      ScanSound(g, n, t, white, r, c - 1, |t[r][c - 1]|, onBoardOnly);
      assert ms == Scan(g, n, t, white, r, c - 1, |t[r][c - 1]|, onBoardOnly) by {
        ScanUnfold(g, n, t, white, r, c, k, onBoardOnly);
      }
    } else if r > 0 {
      ScanSound(g, n, t, white, r - 1, n, 0, onBoardOnly);
      assert ms == Scan(g, n, t, white, r - 1, n, 0, onBoardOnly) by { ScanUnfold(g, n, t, white, r, c, k, onBoardOnly); }
    }
  }

  lemma ScanPlayable(g: Grid, n: int, t: seq<seq<seq<Square>>>, white: bool)
    requires Rules.IsGrid(g, n) && IsTable(t, n)
    ensures Playable(g, n, Scan(g, n, t, white, n, 0, 0, true))
  {
    var ms := Scan(g, n, t, white, n, 0, 0, true);
    ScanSound(g, n, t, white, n, 0, 0, true);
    forall i | 0 <= i < |ms|
      ensures Rules.OnBoard(n, ms[i].sr, ms[i].sc) && Rules.OnBoard(n, ms[i].tr, ms[i].tc) && g[ms[i].sr][ms[i].sc].Some?
    {
      assert ListedAt(g, n, t, white, ms, true, i);
    }
  }

  /** Destination j of the source square of m comes before point (r, c, k) of the scan. */
  predicate Before(m: Move, j: int, r: int, c: int, k: int) {
    m.sr < r || (m.sr == r && (m.sc < c || (m.sc == c && j < k)))
  }

  lemma {:induction false} ScanComplete(g: Grid, n: int, t: seq<seq<seq<Square>>>, white: bool, r: int, c: int, k: int,
                                        onBoardOnly: bool, m: Move, j: int)
    requires Rules.IsGrid(g, n) && IsTable(t, n) && ScanPoint(n, t, r, c, k)
    requires Listed(g, n, t, white, m, onBoardOnly)
    requires 0 <= j < |t[m.sr][m.sc]| && t[m.sr][m.sc][j] == Square(m.tr, m.tc) && Before(m, j, r, c, k)
    ensures m in Scan(g, n, t, white, r, c, k, onBoardOnly)
    decreases r, c, k
  {
    var ms := Scan(g, n, t, white, r, c, k, onBoardOnly);
    if k > 0 {
      var front, last := Scan(g, n, t, white, r, c, k - 1, onBoardOnly), Emit(g, n, t, white, r, c, k - 1, onBoardOnly);
      assert ms == front + last by { ScanUnfold(g, n, t, white, r, c, k, onBoardOnly); }
      if m.sr == r && m.sc == c && j == k - 1 {
        assert last == [m];
      } else {
        ScanComplete(g, n, t, white, r, c, k - 1, onBoardOnly, m, j);
      }
    } else if c > 0 {
      ScanComplete(g, n, t, white, r, c - 1, |t[r][c - 1]|, onBoardOnly, m, j);
      assert ms == Scan(g, n, t, white, r, c - 1, |t[r][c - 1]|, onBoardOnly) by {
        ScanUnfold(g, n, t, white, r, c, k, onBoardOnly);
      }
    } else {
      ScanComplete(g, n, t, white, r - 1, n, 0, onBoardOnly, m, j);
      assert ms == Scan(g, n, t, white, r - 1, n, 0, onBoardOnly) by { ScanUnfold(g, n, t, white, r, c, k, onBoardOnly); }
    }
  }

  /** The generator over any table lists exactly the moves the table allows. */
  lemma ScanExact(g: Grid, n: int, t: seq<seq<seq<Square>>>, white: bool, onBoardOnly: bool, m: Move)
    requires Rules.IsGrid(g, n) && IsTable(t, n)
    ensures m in Scan(g, n, t, white, n, 0, 0, onBoardOnly) <==> Listed(g, n, t, white, m, onBoardOnly)
  {
    var ms := Scan(g, n, t, white, n, 0, 0, onBoardOnly);
    if Listed(g, n, t, white, m, onBoardOnly) {
      var j :| 0 <= j < |t[m.sr][m.sc]| && t[m.sr][m.sc][j] == Square(m.tr, m.tc);
      ScanComplete(g, n, t, white, n, 0, 0, onBoardOnly, m, j);
    }
    if m in ms {
      var i :| 0 <= i < |ms| && ms[i] == m;
      ScanSound(g, n, t, white, n, 0, 0, onBoardOnly);
      assert ListedAt(g, n, t, white, ms, onBoardOnly, i);
    }
  }

  /** The corrected generator lists exactly the on-board moves of the side's pieces. */
  lemma AllMovesExact(g: Grid, n: int, white: bool, m: Move)
    requires Rules.IsGrid(g, n)
    ensures m in AllMoves(g, n, white) <==> Generated(g, n, white, m, true)
  {
    ScanExact(g, n, DestTable(g, n), white, true, m);
    ListedGenerated(g, n, white, m, true);
  }

  /** The generator as written lists every destination, on the board or not. */
  lemma AllMovesAsWrittenExact(g: Grid, n: int, white: bool, m: Move)
    requires Rules.IsGrid(g, n)
    ensures m in AllMovesAsWritten(g, n, white) <==> Generated(g, n, white, m, false)
  {
    ScanExact(g, n, DestTable(g, n), white, false, m);
    ListedGenerated(g, n, white, m, false);
  }

  /** The defect of the generator as written: a pawn standing on the last row
      in its direction (which the search reaches, since probes never promote)
      yields a move whose target is off the board, which movePiece cannot play;
      the corrected generator leaves it out. */
  lemma OffBoardPawnMove(g: Grid, n: int, r: int, c: int)
    requires Rules.IsGrid(g, n) && Rules.OnBoard(n, r, c) && g[r][c].Some? && g[r][c].value.kind == Pawn
    requires !(0 <= r + Rules.Dir(g[r][c].value.white) < n)
    ensures var m := Move(r, c, r + Rules.Dir(g[r][c].value.white), c);
      m in AllMovesAsWritten(g, n, g[r][c].value.white) &&
      !Rules.OnBoard(n, m.tr, m.tc) &&
      m !in AllMoves(g, n, g[r][c].value.white)
  {
    var white := g[r][c].value.white;
    var m := Move(r, c, r + Rules.Dir(white), c);
    Rules.PawnOverrunListed(g, n, r, c);
    AllMovesAsWrittenExact(g, n, white, m);
    AllMovesExact(g, n, white, m);
  }

  /** No pawn of the side stands on the last row in its direction, the one
      place where getValidMoves lists a square off the board. */
  predicate NoPawnOnLastRow(g: Grid, n: int, white: bool)
    requires Rules.IsGrid(g, n)
  {
    forall r, c :: 0 <= r < n && 0 <= c < n && g[r][c] == Some(Piece(Pawn, white)) ==> 0 <= r + Rules.Dir(white) < n
  }

  /** Every destination the table lists for a piece of the side is on the board. */
  ghost predicate DestsOnBoard(g: Grid, n: int, t: seq<seq<seq<Square>>>, white: bool)
    requires Rules.IsGrid(g, n) && IsTable(t, n)
  {
    forall r: int, c: int, j: int :: 0 <= r < n && 0 <= c < n && 0 <= j < |t[r][c]| && g[r][c].Some? && g[r][c].value.white == white ==>
      Rules.OnBoard(n, t[r][c][j].row, t[r][c][j].col)
  }

  /** Without a pawn of the side on its last row, getValidMoves lists only
      squares on the board. */
  lemma DestTableOnBoard(g: Grid, n: int, white: bool)
    requires Rules.IsSize(n) && Rules.IsGrid(g, n) && NoPawnOnLastRow(g, n, white)
    ensures DestsOnBoard(g, n, DestTable(g, n), white)
  {
    var t: seq<seq<seq<Square>>> := DestTable(g, n);
    forall r: int, c: int, j: int | 0 <= r < n && 0 <= c < n && 0 <= j < |t[r][c]| && g[r][c].Some? && g[r][c].value.white == white
      ensures Rules.OnBoard(n, t[r][c][j].row, t[r][c][j].col)
    {
      DestTableAt(g, n, r, c);
      assert t[r][c][j] in t[r][c];
      Rules.ValidMovesTargets(g, n, r, c, t[r][c][j]);
    }
  }

  /** When every destination is on the board, both generators build the same
      list, entry by entry. */
  lemma {:induction false} ScanAgree(g: Grid, n: int, t: seq<seq<seq<Square>>>, white: bool, r: int, c: int, k: int)
    requires Rules.IsGrid(g, n) && IsTable(t, n) && ScanPoint(n, t, r, c, k) && DestsOnBoard(g, n, t, white)
    ensures Scan(g, n, t, white, r, c, k, false) == Scan(g, n, t, white, r, c, k, true)
    decreases r, c, k
  {
    var written, corrected := Scan(g, n, t, white, r, c, k, false), Scan(g, n, t, white, r, c, k, true);
    if k > 0 {
      ScanAgree(g, n, t, white, r, c, k - 1);
      assert Emit(g, n, t, white, r, c, k - 1, false) == Emit(g, n, t, white, r, c, k - 1, true);
      assert written == Scan(g, n, t, white, r, c, k - 1, false) + Emit(g, n, t, white, r, c, k - 1, false) by {
        ScanUnfold(g, n, t, white, r, c, k, false);
      }
      assert corrected == Scan(g, n, t, white, r, c, k - 1, true) + Emit(g, n, t, white, r, c, k - 1, true) by {
        ScanUnfold(g, n, t, white, r, c, k, true);
      }
    } else if c > 0 {
      ScanAgree(g, n, t, white, r, c - 1, |t[r][c - 1]|);
      assert written == Scan(g, n, t, white, r, c - 1, |t[r][c - 1]|, false) by { ScanUnfold(g, n, t, white, r, c, k, false); }
      assert corrected == Scan(g, n, t, white, r, c - 1, |t[r][c - 1]|, true) by { ScanUnfold(g, n, t, white, r, c, k, true); }
    } else if r > 0 {
      ScanAgree(g, n, t, white, r - 1, n, 0);
      assert written == Scan(g, n, t, white, r - 1, n, 0, false) by { ScanUnfold(g, n, t, white, r, c, k, false); }
      assert corrected == Scan(g, n, t, white, r - 1, n, 0, true) by { ScanUnfold(g, n, t, white, r, c, k, true); }
    }
  }

  /** The generator as written and the corrected one give the same list, in
      the same order, exactly when no pawn of the side stands on its last row:
      at every search node without such a pawn the two generators give the
      same list. */
  lemma AllMovesAgree(g: Grid, n: int, white: bool)
    requires Rules.IsSize(n) && Rules.IsGrid(g, n)
    ensures AllMovesAsWritten(g, n, white) == AllMoves(g, n, white) <==> NoPawnOnLastRow(g, n, white)
  {
    if NoPawnOnLastRow(g, n, white) {
      DestTableOnBoard(g, n, white);
      ScanAgree(g, n, DestTable(g, n), white, n, 0, 0);
    } else {
      var r, c :| 0 <= r < n && 0 <= c < n && g[r][c] == Some(Piece(Pawn, white)) && !(0 <= r + Rules.Dir(white) < n);
      OffBoardPawnMove(g, n, r, c);
    }
  }

  // ---------------------------------------------------------------- search

  /** What a call of minimax yields: its score and the records it leaves on
      the undo stack (undoMove takes a probe back without popping its record). */
  datatype Probe = Probe(value: int, pushed: seq<MoveRecord>)

  /** What findBestMove yields: the chosen move and the records it leaves. */
  datatype Choice = Choice(best: Option<Move>, pushed: seq<MoveRecord>)

  /** The record movePiece pushes for a probe of `m` on `g`. */
  function ProbeRecord(g: Grid, m: Move): MoveRecord
    requires |g| > m.sr >= 0 && |g[m.sr]| > m.sc >= 0 && g[m.sr][m.sc].Some?
    requires |g| > m.tr >= 0 && |g[m.tr]| > m.tc >= 0
  {
    MoveRecord(m.sr, m.sc, m.tr, m.tc, g[m.sr][m.sc].value, g[m.tr][m.tc])
  }

  /** minimax on grid `g` with side `white` to move: the evaluation at depth 0,
      otherwise the search over the side's moves. */
  ghost function Search(g: Grid, n: int, white: bool, depth: nat, alpha: int, beta: int): Probe
    requires Rules.IsSize(n) && Rules.IsGrid(g, n)
    decreases depth, 3, 0
  {
    if depth == 0 then Probe(Evaluate(g, n), [])
    else Branch(g, n, white, depth, alpha, beta)
  }

  /** minimax below depth 0: the "no moves" score when the side to move has
      none, otherwise the minimum (White) or maximum (Black) over its moves,
      with alpha-beta cutoffs. */
  ghost function Branch(g: Grid, n: int, white: bool, depth: nat, alpha: int, beta: int): Probe
    requires Rules.IsSize(n) && Rules.IsGrid(g, n) && depth >= 1
    decreases depth, 2, 0
  {
    var moves := AllMoves(g, n, white);
    if moves == [] then Probe(if white then NoMovesWhiteToMove else NoMovesBlackToMove, [])
    else if white then MinLoop(g, n, moves, depth, alpha, beta, MaxInt, [])
    else MaxLoop(g, n, moves, depth, alpha, beta, MinInt, [])
  }

  /** The search of the reply after probing `m` on `g`: minimax on the
      resulting grid with `white` to move. */
  ghost function Reply(g: Grid, n: int, m: Move, white: bool, depth: nat, alpha: int, beta: int): Probe
    requires Rules.IsSize(n) && Rules.IsGrid(g, n) && Rules.OnBoard(n, m.sr, m.sc) && Rules.OnBoard(n, m.tr, m.tc)
    decreases depth, 4, 0
  {
    Search(Rules.ApplyGrid(g, n, m), n, white, depth, alpha, beta)
  }

  /** The minimising loop over the remaining `moves` (White to move): each
      reply is searched with Black to move, beta shrinks to the smallest score,
      and the loop stops once beta <= alpha. */
  ghost function MinLoop(g: Grid, n: int, moves: seq<Move>, depth: nat, alpha: int, beta: int,
                         minEval: int, pushed: seq<MoveRecord>): Probe
    requires Rules.IsSize(n) && Rules.IsGrid(g, n) && depth >= 1 && Playable(g, n, moves)
    decreases depth, 1, |moves|
  {
    if moves == [] then Probe(minEval, pushed)
    else
      var m := moves[0];
      var sub := Reply(g, n, m, false, depth - 1, alpha, beta);
      var minEval' := Min(minEval, sub.value);
      var beta' := Min(beta, sub.value);
      var pushed' := pushed + [ProbeRecord(g, m)] + sub.pushed;
      if beta' <= alpha then Probe(minEval', pushed')
      else MinLoop(g, n, moves[1..], depth, alpha, beta', minEval', pushed')
  }

  /** The maximising loop over the remaining `moves` (Black to move). */
  ghost function MaxLoop(g: Grid, n: int, moves: seq<Move>, depth: nat, alpha: int, beta: int,
                         maxEval: int, pushed: seq<MoveRecord>): Probe
    requires Rules.IsSize(n) && Rules.IsGrid(g, n) && depth >= 1 && Playable(g, n, moves)
    decreases depth, 1, |moves|
  {
    if moves == [] then Probe(maxEval, pushed)
    else
      var m := moves[0];
      var sub := Reply(g, n, m, true, depth - 1, alpha, beta);
      var maxEval' := Max(maxEval, sub.value);
      var alpha' := Max(alpha, sub.value);
      var pushed' := pushed + [ProbeRecord(g, m)] + sub.pushed;
      if beta <= alpha' then Probe(maxEval', pushed')
      else MaxLoop(g, n, moves[1..], depth, alpha', beta, maxEval', pushed')
  }

  /** Scores strictly inside Java's int range, between the two "no moves" scores. */
  predicate InWindow(v: int) { NoMovesWhiteToMove <= v <= NoMovesBlackToMove }

  /** Every score minimax returns lies between the two "no moves" scores;
      in particular it never overflows and never equals Integer.MIN_VALUE
      or Integer.MAX_VALUE. */
  lemma {:induction false} SearchBound(g: Grid, n: int, white: bool, depth: nat, alpha: int, beta: int)
    requires Rules.IsSize(n) && Rules.IsGrid(g, n)
    ensures InWindow(Search(g, n, white, depth, alpha, beta).value)
    decreases depth, 3, 0
  {
    if depth == 0 {
      EvaluateBound(g, n);
    } else {
      var moves := AllMoves(g, n, white);
      if moves != [] {
        if white {
          MinLoopBound(g, n, moves, depth, alpha, beta, MaxInt, []);
        } else {
          MaxLoopBound(g, n, moves, depth, alpha, beta, MinInt, []);
        }
      }
    }
  }

  lemma {:induction false} MinLoopBound(g: Grid, n: int, moves: seq<Move>, depth: nat, alpha: int, beta: int,
                                        minEval: int, pushed: seq<MoveRecord>)
    requires Rules.IsSize(n) && Rules.IsGrid(g, n) && depth >= 1 && Playable(g, n, moves)
    requires InWindow(minEval) || (minEval == MaxInt && moves != [])
    ensures InWindow(MinLoop(g, n, moves, depth, alpha, beta, minEval, pushed).value)
    decreases depth, 1, |moves|
  {
    if moves != [] {
      var m := moves[0];
      var sub := Reply(g, n, m, false, depth - 1, alpha, beta);
      SearchBound(Rules.ApplyGrid(g, n, m), n, false, depth - 1, alpha, beta);
      var beta' := Min(beta, sub.value);
      if alpha < beta' {
        PlayableSuffix(g, n, moves, 1);
        MinLoopBound(g, n, moves[1..], depth, alpha, beta', Min(minEval, sub.value),
                     pushed + [ProbeRecord(g, m)] + sub.pushed);
      }
    }
  }

  lemma {:induction false} MaxLoopBound(g: Grid, n: int, moves: seq<Move>, depth: nat, alpha: int, beta: int,
                                        maxEval: int, pushed: seq<MoveRecord>)
    requires Rules.IsSize(n) && Rules.IsGrid(g, n) && depth >= 1 && Playable(g, n, moves)
    requires InWindow(maxEval) || (maxEval == MinInt && moves != [])
    ensures InWindow(MaxLoop(g, n, moves, depth, alpha, beta, maxEval, pushed).value)
    decreases depth, 1, |moves|
  {
    if moves != [] {
      var m := moves[0];
      var sub := Reply(g, n, m, true, depth - 1, alpha, beta);
      SearchBound(Rules.ApplyGrid(g, n, m), n, true, depth - 1, alpha, beta);
      var alpha' := Max(alpha, sub.value);
      if alpha' < beta {
        PlayableSuffix(g, n, moves, 1);
        MaxLoopBound(g, n, moves[1..], depth, alpha', beta, Max(maxEval, sub.value),
                     pushed + [ProbeRecord(g, m)] + sub.pushed);
      }
    }
  }

  /** findBestMove's loop over the remaining root `moves`: each move is scored
      by minimax with the other side to move and an open beta; the first move
      with a strictly larger score than all before it becomes the best. */
  ghost function RootLoop(g: Grid, n: int, turn: bool, moves: seq<Move>, depth: nat, alpha: int,
                          maxEval: int, best: Option<Move>, pushed: seq<MoveRecord>): Choice
    requires Rules.IsSize(n) && Rules.IsGrid(g, n) && depth >= 1 && Playable(g, n, moves)
    decreases |moves|
  {
    if moves == [] then Choice(best, pushed)
    else
      var m := moves[0];
      var sub := Reply(g, n, m, !turn, depth - 1, alpha, MaxInt);
      var better := sub.value > maxEval;
      var maxEval' := if better then sub.value else maxEval;
      var best' := if better then Some(m) else best;
      var alpha' := Max(alpha, sub.value);
      var pushed' := pushed + [ProbeRecord(g, m)] + sub.pushed;
      if MaxInt <= alpha' then Choice(best', pushed')
      else RootLoop(g, n, turn, moves[1..], depth, alpha', maxEval', best', pushed')
  }

  /** findBestMove: Black's moves are tried whatever the side to move
      (`turn`); no move when Black has none. */
  ghost function BestChoice(g: Grid, n: int, turn: bool, depth: nat): Choice
    requires Rules.IsSize(n) && Rules.IsGrid(g, n) && depth >= 1
  {
    var moves := AllMoves(g, n, false);
    if moves == [] then Choice(None, [])
    else RootLoop(g, n, turn, moves, depth, MinInt, MinInt, None, [])
  }

  /** The scores the root loop computes, move by move, with alpha raised to
      the best score so far. */
  ghost function RootEvals(g: Grid, n: int, turn: bool, moves: seq<Move>, depth: nat, alpha: int): (evs: seq<int>)
    requires Rules.IsSize(n) && Rules.IsGrid(g, n) && depth >= 1 && Playable(g, n, moves)
    ensures |evs| == |moves|
    decreases |moves|
  {
    if moves == [] then []
    else
      var v := Reply(g, n, moves[0], !turn, depth - 1, alpha, MaxInt).value;
      [v] + RootEvals(g, n, turn, moves[1..], depth, Max(alpha, v))
  }

  lemma {:induction false} RootEvalsBound(g: Grid, n: int, turn: bool, moves: seq<Move>, depth: nat, alpha: int)
    requires Rules.IsSize(n) && Rules.IsGrid(g, n) && depth >= 1 && Playable(g, n, moves)
    ensures forall i :: 0 <= i < |moves| ==> InWindow(RootEvals(g, n, turn, moves, depth, alpha)[i])
    decreases |moves|
  {
    if moves != [] {
      var v := Reply(g, n, moves[0], !turn, depth - 1, alpha, MaxInt).value;
      SearchBound(Rules.ApplyGrid(g, n, moves[0]), n, !turn, depth - 1, alpha, MaxInt);
      PlayableSuffix(g, n, moves, 1);
      RootEvalsBound(g, n, turn, moves[1..], depth, Max(alpha, v));
    }
  }

  /** The largest element. */
  function MaxOf(s: seq<int>): (x: int)
    requires |s| > 0
    ensures (exists i :: 0 <= i < |s| && s[i] == x) && forall i :: 0 <= i < |s| ==> s[i] <= x
  {
    if |s| == 1 then s[0] else Max(s[0], MaxOf(s[1..]))
  }

  /** The index of the first occurrence of the largest element. */
  function FirstMax(s: seq<int>): (k: nat)
    requires |s| > 0
    ensures k < |s| && s[k] == MaxOf(s)
    ensures forall j :: 0 <= j < k ==> s[j] < s[k]
  {
    if |s| == 1 || s[0] >= MaxOf(s[1..]) then 0 else 1 + FirstMax(s[1..])
  }

  /** The root loop never cuts off (every score is below Integer.MAX_VALUE),
      so it ends on the first move whose score is the maximum, unless no score
      beats the incoming `maxEval`. */
  lemma {:induction false} RootLoopPicks(g: Grid, n: int, turn: bool, moves: seq<Move>, depth: nat, alpha: int,
                                         maxEval: int, best: Option<Move>, pushed: seq<MoveRecord>)
    requires Rules.IsSize(n) && Rules.IsGrid(g, n) && depth >= 1 && Playable(g, n, moves)
    requires alpha < MaxInt
    ensures var evs := RootEvals(g, n, turn, moves, depth, alpha);
      RootLoop(g, n, turn, moves, depth, alpha, maxEval, best, pushed).best ==
        (if moves == [] || MaxOf(evs) <= maxEval then best else Some(moves[FirstMax(evs)]))
    decreases |moves|
  {
    if moves != [] {
      var m := moves[0];
      var sub := Reply(g, n, m, !turn, depth - 1, alpha, MaxInt);
      var v := sub.value;
      var better := v > maxEval;
      var maxEval' := if better then v else maxEval;
      var best' := if better then Some(m) else best;
      var alpha' := Max(alpha, v);
      var pushed' := pushed + [ProbeRecord(g, m)] + sub.pushed;
      PlayableSuffix(g, n, moves, 1);
      var ch := RootLoop(g, n, turn, moves, depth, alpha, maxEval, best, pushed);
      assert alpha' < MaxInt && ch == RootLoop(g, n, turn, moves[1..], depth, alpha', maxEval', best', pushed') by {
        SearchBound(Rules.ApplyGrid(g, n, m), n, !turn, depth - 1, alpha, MaxInt);
      }
      RootLoopPicks(g, n, turn, moves[1..], depth, alpha', maxEval', best', pushed');
      var rest := RootEvals(g, n, turn, moves[1..], depth, alpha');
      assert RootEvals(g, n, turn, moves, depth, alpha) == [v] + rest;
      FirstMaxStep(v, rest, maxEval, best, moves, ch.best);
    }
  }

  /** Every move the root loop probes leaves its record on the undo stack,
      and it probes them all. */
  lemma {:induction false} RootLoopRecords(g: Grid, n: int, turn: bool, moves: seq<Move>, depth: nat, alpha: int,
                                           maxEval: int, best: Option<Move>, pushed: seq<MoveRecord>)
    requires Rules.IsSize(n) && Rules.IsGrid(g, n) && depth >= 1 && Playable(g, n, moves)
    requires alpha < MaxInt
    ensures |RootLoop(g, n, turn, moves, depth, alpha, maxEval, best, pushed).pushed| >= |pushed| + |moves|
    decreases |moves|
  {
    if moves != [] {
      var m := moves[0];
      var sub := Reply(g, n, m, !turn, depth - 1, alpha, MaxInt);
      var v := sub.value;
      var better := v > maxEval;
      var maxEval' := if better then v else maxEval;
      var best' := if better then Some(m) else best;
      var alpha' := Max(alpha, v);
      var pushed' := pushed + [ProbeRecord(g, m)] + sub.pushed;
      PlayableSuffix(g, n, moves, 1);
      var ch := RootLoop(g, n, turn, moves, depth, alpha, maxEval, best, pushed);
      assert alpha' < MaxInt && ch == RootLoop(g, n, turn, moves[1..], depth, alpha', maxEval', best', pushed') by {
        SearchBound(Rules.ApplyGrid(g, n, m), n, !turn, depth - 1, alpha, MaxInt);
      }
      RootLoopRecords(g, n, turn, moves[1..], depth, alpha', maxEval', best', pushed');
    }
  }

  /** One step of the root loop's choice: prepending a score `v` for
      moves[0] to the remaining scores `rest`. */
  lemma FirstMaxStep(v: int, rest: seq<int>, maxEval: int, best: Option<Move>, moves: seq<Move>, result: Option<Move>)
    requires |moves| == 1 + |rest|
    requires var better := v > maxEval;
      var maxEval' := if better then v else maxEval;
      var best' := if better then Some(moves[0]) else best;
      result == (if rest == [] || MaxOf(rest) <= maxEval' then best' else Some(moves[1..][FirstMax(rest)]))
    ensures result == (if MaxOf([v] + rest) <= maxEval then best else Some(moves[FirstMax([v] + rest)]))
  {
    if rest == [] {
      assert MaxOf([v] + rest) == v && FirstMax([v] + rest) == 0;
    } else {
      MaxOfCons(v, rest);
      var top, k := MaxOf(rest), FirstMax(rest);
      assert moves[1..][k] == moves[1 + k];
      if v > maxEval && v >= top {
        assert result == Some(moves[0]);
      } else if v > maxEval {
        assert result == Some(moves[1 + k]);
      } else if top <= maxEval {
        assert result == best;
      } else {
        assert result == Some(moves[1 + k]);
      }
    }
  }

  /** MaxOf and FirstMax of a list with a score put in front. */
  lemma MaxOfCons(v: int, rest: seq<int>)
    requires rest != []
    ensures MaxOf([v] + rest) == Max(v, MaxOf(rest))
    ensures FirstMax([v] + rest) == if v >= MaxOf(rest) then 0 else 1 + FirstMax(rest)
  {
    assert ([v] + rest)[1..] == rest;
  }

  /** findBestMove returns no move exactly when Black has none; otherwise the
      first of Black's moves with the highest minimax score, each probe
      leaving its record on the undo stack. */
  lemma BestChoiceSpec(g: Grid, n: int, turn: bool, depth: nat)
    requires Rules.IsSize(n) && Rules.IsGrid(g, n) && depth >= 1
    ensures var moves := AllMoves(g, n, false);
      var ch := BestChoice(g, n, turn, depth);
      (ch.best.None? <==> moves == []) &&
      (moves != [] ==>
        var evs := RootEvals(g, n, turn, moves, depth, MinInt);
        ch.best == Some(moves[FirstMax(evs)]) && |ch.pushed| >= |moves|)
  {
    var moves := AllMoves(g, n, false);
    if moves != [] {
      RootLoopPicks(g, n, turn, moves, depth, MinInt, MinInt, None, []);
      RootLoopRecords(g, n, turn, moves, depth, MinInt, MinInt, None, []);
      RootEvalsBound(g, n, turn, moves, depth, MinInt);
      var evs := RootEvals(g, n, turn, moves, depth, MinInt);
      assert InWindow(evs[FirstMax(evs)]);
    }
  }

  // --------------------------------------------- the AI on the board engine

  /** getKingSafetyBonus: the eight neighbours in the order of the source's
      nested loop over (dr, dc), skipping (0, 0). */
  method KingSafetyBonus(logic: Logic.GameLogic, kingR: int, kingC: int, white: bool) returns (safety: int)
    requires logic.Valid()
    ensures safety == KingSafety(logic.cells, logic.size, kingR, kingC, white, Rules.KingSteps)
  {
    safety := 0;
    var n := logic.GetBoardSize();
    var k := 0;
    while k < |Rules.KingSteps|
      invariant 0 <= k <= |Rules.KingSteps|
      invariant safety == KingSafety(logic.cells, n, kingR, kingC, white, Rules.KingSteps[..k])
    {
      var nr, nc := kingR + Rules.KingSteps[k].0, kingC + Rules.KingSteps[k].1;
      if nr >= 0 && nr < n && nc >= 0 && nc < n {
        var x := logic.GetPiece(nr, nc);
        if x.Some? && x.value.white == white {
          safety := safety + 3;
        }
      }
      KingSafetyStep(logic.cells, n, kingR, kingC, white, Rules.KingSteps, k);
      k := k + 1;
    }
    assert Rules.KingSteps[..k] == Rules.KingSteps;
  }

  /** evaluateBoard. */
  method EvaluateBoard(logic: Logic.GameLogic) returns (score: int)
    requires logic.Valid()
    ensures score == Evaluate(logic.cells, logic.size)
  {
    score := 0;
    var n := logic.GetBoardSize();
    var r := 0;
    while r < n
      invariant 0 <= r <= n
      invariant score == BoardScore(logic.cells, n, r)
    {
      var c := 0;
      while c < n
        invariant 0 <= c <= n
        invariant score == BoardScore(logic.cells, n, r) + RowScore(logic.cells, n, r, c)
      {
        var delta := ScoreSquare(logic, r, c);
        score := score + delta;
        c := c + 1;
      }
      r := r + 1;
    }
    var whiteInCheck := logic.IsInCheck(true);
    if whiteInCheck {
      score := score + 50;
    }
    var blackInCheck := logic.IsInCheck(false);
    if blackInCheck {
      score := score - 50;
    }
  }

  /** The body of evaluateBoard's inner loop: what the square (r, c) adds. */
  method ScoreSquare(logic: Logic.GameLogic, r: int, c: int) returns (delta: int)
    requires logic.Valid() && Rules.OnBoard(logic.size, r, c)
    ensures delta == CellScore(logic.cells, logic.size, r, c)
  {
    delta := 0;
    var n := logic.GetBoardSize();
    var isAmusementMode := n > 8;
    var x := logic.GetPiece(r, c);
    if x.Some? {
      var p := x.value;
      var val := PieceValue(p.kind);
      if !p.white { delta := delta + val; } else { delta := delta - val; }
      if isAmusementMode {
        var centerBonus := CenterBonus(r, c, n);
        if !p.white { delta := delta + centerBonus; } else { delta := delta - centerBonus; }
        if p.kind == Pawn {
          var pawnAdvanceBonus := PawnAdvanceBonus(r, p.white, n);
          if !p.white { delta := delta + pawnAdvanceBonus; } else { delta := delta - pawnAdvanceBonus; }
        }
        var dests := logic.GetValidMoves(r, c);
        DestTableAt(logic.cells, n, r, c);
        var mobilityBonus := |dests| * 2;
        if !p.white { delta := delta + mobilityBonus; } else { delta := delta - mobilityBonus; }
        if p.kind == King {
          var safetyBonus := KingSafetyBonus(logic, r, c, p.white);
          if !p.white { delta := delta + safetyBonus; } else { delta := delta - safetyBonus; }
        }
      }
    }
  }

  /** generateAllMoves, corrected to skip destinations off the board. */
  method GenerateAllMoves(logic: Logic.GameLogic, white: bool) returns (all: seq<Move>)
    requires logic.Valid()
    ensures all == AllMoves(logic.cells, logic.size, white)
  {
    all := [];
    var n := logic.GetBoardSize();
    ghost var t := DestTable(logic.cells, n);
    var r := 0;
    while r < n
      invariant 0 <= r <= n
      invariant all == Scan(logic.cells, n, t, white, r, 0, 0, true)
    {
      all := MovesOfRow(logic, white, r, all);
      ScanUnfold(logic.cells, n, t, white, r + 1, 0, 0, true);
      r := r + 1;
    }
  }

  /** The middle loop of generateAllMoves, over the squares of row r. */
  method MovesOfRow(logic: Logic.GameLogic, white: bool, r: int, all: seq<Move>) returns (all': seq<Move>)
    requires logic.Valid() && 0 <= r < logic.size
    requires all == Scan(logic.cells, logic.size, DestTable(logic.cells, logic.size), white, r, 0, 0, true)
    ensures all' == Scan(logic.cells, logic.size, DestTable(logic.cells, logic.size), white, r, logic.size, 0, true)
  {
    all' := all;
    var n := logic.GetBoardSize();
    ghost var t := DestTable(logic.cells, n);
    var c := 0;
    while c < n
      invariant 0 <= c <= n
      invariant all' == Scan(logic.cells, n, t, white, r, c, 0, true)
    {
      all' := MovesOfSquare(logic, white, r, c, all');
      ScanUnfold(logic.cells, n, t, white, r, c + 1, 0, true);
      c := c + 1;
    }
  }

  /** The body of the middle loop for the square (r, c): if it holds a piece
      of the side, the inner loop adds a move per destination. */
  method MovesOfSquare(logic: Logic.GameLogic, white: bool, r: int, c: int, all: seq<Move>) returns (all': seq<Move>)
    requires logic.Valid() && Rules.OnBoard(logic.size, r, c)
    requires all == Scan(logic.cells, logic.size, DestTable(logic.cells, logic.size), white, r, c, 0, true)
    ensures var t := DestTable(logic.cells, logic.size);
      all' == Scan(logic.cells, logic.size, t, white, r, c, |t[r][c]|, true)
  {
    all' := all;
    var n := logic.GetBoardSize();
    ghost var t := DestTable(logic.cells, n);
    var x := logic.GetPiece(r, c);
    if x.Some? && x.value.white == white {
      var dests := logic.GetValidMoves(r, c);
      DestTableAt(logic.cells, n, r, c);
      all' := MovesToDests(logic.cells, n, t, white, r, c, dests, all');
    } else {
      ScanSkip(logic.cells, n, t, white, r, c, |t[r][c]|, true);
    }
  }

  /** The innermost loop of generateAllMoves: a move from (r, c) to each
      destination on the board. */
  method MovesToDests(ghost g: Grid, n: int, ghost t: seq<seq<seq<Square>>>, white: bool, r: int, c: int,
                      dests: seq<Square>, all: seq<Move>) returns (all': seq<Move>)
    requires Rules.IsGrid(g, n) && IsTable(t, n) && Rules.OnBoard(n, r, c) && t[r][c] == dests
    requires all == Scan(g, n, t, white, r, c, 0, true)
    requires g[r][c].Some? && g[r][c].value.white == white
    ensures all' == Scan(g, n, t, white, r, c, |dests|, true)
  {
    all' := all;
    var k := 0;
    while k < |dests|
      invariant 0 <= k <= |dests|
      invariant all' == Scan(g, n, t, white, r, c, k, true)
    {
      var d := dests[k];
      if 0 <= d.row < n && 0 <= d.col < n {
        all' := all' + [Move(r, c, d.row, d.col)];
      }
      ScanUnfold(g, n, t, white, r, c, k + 1, true);
      k := k + 1;
    }
  }

  /** One probe of minimax and findBestMove: play `m`, search the reply with
      minimax, take `m` back with undoMove. The grid and the side to move are
      restored; the stack keeps the probe's record and the search's records. */
  method ProbeMove(logic: Logic.GameLogic, ghost g: Grid, ghost n: int, ghost turn: bool, m: Move,
                   depth: nat, alpha: int, beta: int) returns (eval: int, ghost sub: Probe)
    requires logic.Valid() && logic.cells == g && logic.size == n && logic.whiteTurn == turn
    requires Rules.OnBoard(n, m.sr, m.sc) && Rules.OnBoard(n, m.tr, m.tc) && g[m.sr][m.sc].Some?
    modifies logic, logic.board
    ensures logic.Valid() && logic.board == old(logic.board) && logic.size == n
    ensures logic.cells == g && logic.whiteTurn == turn
    ensures sub == Reply(g, n, m, !turn, depth, alpha, beta)
    ensures eval == sub.value && logic.history == old(logic.history) + [ProbeRecord(g, m)] + sub.pushed
    decreases depth, 3
  {
    var captured := logic.MovePiece(m.sr, m.sc, m.tr, m.tc);
    eval := Minimax(logic, depth, alpha, beta);
    sub := Reply(g, n, m, !turn, depth, alpha, beta);
    logic.UndoMove(m.sr, m.sc, m.tr, m.tc, captured);
    Rules.ProbeGrid(g, n, m);
  }

  /** minimax: every probe is taken back, so the grid, the side to move and
      the board array are as before; the undo stack keeps the probes' records. */
  method Minimax(logic: Logic.GameLogic, depth: nat, alpha: int, beta: int) returns (value: int)
    requires logic.Valid()
    modifies logic, logic.board
    ensures logic.Valid() && logic.board == old(logic.board) && logic.size == old(logic.size)
    ensures logic.cells == old(logic.cells) && logic.whiteTurn == old(logic.whiteTurn)
    ensures var res := Search(old(logic.cells), logic.size, logic.whiteTurn, depth, alpha, beta);
      value == res.value && logic.history == old(logic.history) + res.pushed
    decreases depth, 2
  {
    if depth == 0 {
      value := EvaluateBoard(logic);
      return;
    }
    var isWhiteTurn := logic.whiteTurn;
    var moves := GenerateAllMoves(logic, isWhiteTurn);
    if |moves| == 0 {
      value := if isWhiteTurn then NoMovesWhiteToMove else NoMovesBlackToMove;
      return;
    }
    if isWhiteTurn {
      value := MinimizeOver(logic, moves, depth, alpha, beta);
    } else {
      value := MaximizeOver(logic, moves, depth, alpha, beta);
    }
  }

  /** The minimising branch of minimax (White to move). */
  method MinimizeOver(logic: Logic.GameLogic, moves: seq<Move>, depth: nat, alpha: int, beta: int) returns (value: int)
    requires logic.Valid() && logic.whiteTurn && depth >= 1 && Playable(logic.cells, logic.size, moves)
    modifies logic, logic.board
    ensures logic.Valid() && logic.board == old(logic.board) && logic.size == old(logic.size)
    ensures logic.cells == old(logic.cells) && logic.whiteTurn == old(logic.whiteTurn)
    ensures var res := MinLoop(old(logic.cells), logic.size, moves, depth, alpha, beta, MaxInt, []);
      value == res.value && logic.history == old(logic.history) + res.pushed
    decreases depth, 1
  {
    ghost var g, n, h0 := logic.cells, logic.size, logic.history;
    ghost var target := MinLoop(g, n, moves, depth, alpha, beta, MaxInt, []);
    var minEval := MaxInt;
    var b := beta;
    ghost var pushed: seq<MoveRecord> := [];
    var i := 0;
    var stop := false;
    while i < |moves| && !stop
      invariant 0 <= i <= |moves|
      invariant logic.Valid() && logic.board == old(logic.board) && logic.size == n
      invariant logic.cells == g && logic.whiteTurn && logic.history == h0 + pushed
      invariant stop ==> target == Probe(minEval, pushed)
      invariant !stop ==> MinLoop(g, n, moves[i..], depth, alpha, b, minEval, pushed) == target
      decreases |moves| - i, if stop then 0 else 1
    {
      minEval, b, pushed := MinTurn(logic, g, n, moves, i, depth, alpha, b, minEval, h0, pushed);
      i := i + 1;
      stop := b <= alpha;
    }
    value := minEval;
  }

  /** The maximising branch of minimax (Black to move). */
  method MaximizeOver(logic: Logic.GameLogic, moves: seq<Move>, depth: nat, alpha: int, beta: int) returns (value: int)
    requires logic.Valid() && !logic.whiteTurn && depth >= 1 && Playable(logic.cells, logic.size, moves)
    modifies logic, logic.board
    ensures logic.Valid() && logic.board == old(logic.board) && logic.size == old(logic.size)
    ensures logic.cells == old(logic.cells) && logic.whiteTurn == old(logic.whiteTurn)
    ensures var res := MaxLoop(old(logic.cells), logic.size, moves, depth, alpha, beta, MinInt, []);
      value == res.value && logic.history == old(logic.history) + res.pushed
    decreases depth, 1
  {
    ghost var g, n, h0 := logic.cells, logic.size, logic.history;
    ghost var target := MaxLoop(g, n, moves, depth, alpha, beta, MinInt, []);
    var maxEval := MinInt;
    var a := alpha;
    ghost var pushed: seq<MoveRecord> := [];
    var i := 0;
    var stop := false;
    while i < |moves| && !stop
      invariant 0 <= i <= |moves|
      invariant logic.Valid() && logic.board == old(logic.board) && logic.size == n
      invariant logic.cells == g && !logic.whiteTurn && logic.history == h0 + pushed
      invariant stop ==> target == Probe(maxEval, pushed)
      invariant !stop ==> MaxLoop(g, n, moves[i..], depth, a, beta, maxEval, pushed) == target
      decreases |moves| - i, if stop then 0 else 1
    {
      maxEval, a, pushed := MaxTurn(logic, g, n, moves, i, depth, a, beta, maxEval, h0, pushed);
      i := i + 1;
      stop := beta <= a;
    }
    value := maxEval;
  }

  /** The undo stack after a probe: the records so far, the probe's record
      and the records of the reply's search. */
  lemma StackStep(h0: seq<MoveRecord>, pushed: seq<MoveRecord>, rec: MoveRecord, sub: seq<MoveRecord>)
    ensures h0 + pushed + [rec] + sub == h0 + (pushed + [rec] + sub)
  {
  }

  /** The body of minimax's minimising loop for moves[i]: probe it, lower
      minEval and beta to its score. */
  method MinTurn(logic: Logic.GameLogic, ghost g: Grid, ghost n: int, moves: seq<Move>, i: int, depth: nat,
                 alpha: int, beta: int, minEval: int, ghost h0: seq<MoveRecord>, ghost pushed: seq<MoveRecord>)
    returns (minEval': int, beta': int, ghost pushed': seq<MoveRecord>)
    requires logic.Valid() && logic.cells == g && logic.size == n && logic.whiteTurn
    requires depth >= 1 && Playable(g, n, moves) && 0 <= i < |moves| && logic.history == h0 + pushed
    modifies logic, logic.board
    decreases depth, 0
    ensures logic.Valid() && logic.board == old(logic.board) && logic.size == n
    ensures logic.cells == g && logic.whiteTurn && logic.history == h0 + pushed'
    ensures Playable(g, n, moves[i + 1..])
    ensures beta' <= alpha ==> MinLoop(g, n, moves[i..], depth, alpha, beta, minEval, pushed) == Probe(minEval', pushed')
    ensures alpha < beta' ==> MinLoop(g, n, moves[i..], depth, alpha, beta, minEval, pushed) ==
                              MinLoop(g, n, moves[i + 1..], depth, alpha, beta', minEval', pushed')
  {
    var m := moves[i];
    assert Rules.OnBoard(n, m.sr, m.sc) && Rules.OnBoard(n, m.tr, m.tc) && g[m.sr][m.sc].Some?;
    var eval, sub := ProbeMove(logic, g, n, true, m, depth - 1, alpha, beta);
    MinLoopStep(g, n, moves, i, depth, alpha, beta, minEval, pushed, sub);
    minEval' := Min(minEval, eval);
    beta' := Min(beta, eval);
    StackStep(h0, pushed, ProbeRecord(g, m), sub.pushed);
    pushed' := pushed + [ProbeRecord(g, m)] + sub.pushed;
  }

  /** The body of minimax's maximising loop for moves[i]: probe it, raise
      maxEval and alpha to its score. */
  method MaxTurn(logic: Logic.GameLogic, ghost g: Grid, ghost n: int, moves: seq<Move>, i: int, depth: nat,
                 alpha: int, beta: int, maxEval: int, ghost h0: seq<MoveRecord>, ghost pushed: seq<MoveRecord>)
    returns (maxEval': int, alpha': int, ghost pushed': seq<MoveRecord>)
    requires logic.Valid() && logic.cells == g && logic.size == n && !logic.whiteTurn
    requires depth >= 1 && Playable(g, n, moves) && 0 <= i < |moves| && logic.history == h0 + pushed
    modifies logic, logic.board
    decreases depth, 0
    ensures logic.Valid() && logic.board == old(logic.board) && logic.size == n
    ensures logic.cells == g && !logic.whiteTurn && logic.history == h0 + pushed'
    ensures Playable(g, n, moves[i + 1..])
    ensures beta <= alpha' ==> MaxLoop(g, n, moves[i..], depth, alpha, beta, maxEval, pushed) == Probe(maxEval', pushed')
    ensures alpha' < beta ==> MaxLoop(g, n, moves[i..], depth, alpha, beta, maxEval, pushed) ==
                              MaxLoop(g, n, moves[i + 1..], depth, alpha', beta, maxEval', pushed')
  {
    var m := moves[i];
    assert Rules.OnBoard(n, m.sr, m.sc) && Rules.OnBoard(n, m.tr, m.tc) && g[m.sr][m.sc].Some?;
    var eval, sub := ProbeMove(logic, g, n, false, m, depth - 1, alpha, beta);
    MaxLoopStep(g, n, moves, i, depth, alpha, beta, maxEval, pushed, sub);
    maxEval' := Max(maxEval, eval);
    alpha' := Max(alpha, eval);
    StackStep(h0, pushed, ProbeRecord(g, m), sub.pushed);
    pushed' := pushed + [ProbeRecord(g, m)] + sub.pushed;
  }

  /** One turn of the minimising loop, at position i of `moves`, given the
      reply's search result `sub`. */
  lemma MinLoopStep(g: Grid, n: int, moves: seq<Move>, i: int, depth: nat, alpha: int, beta: int,
                    minEval: int, pushed: seq<MoveRecord>, sub: Probe)
    requires Rules.IsSize(n) && Rules.IsGrid(g, n) && depth >= 1 && Playable(g, n, moves) && 0 <= i < |moves|
    requires sub == Reply(g, n, moves[i], false, depth - 1, alpha, beta)
    ensures Playable(g, n, moves[i + 1..])
    ensures var pushed' := pushed + [ProbeRecord(g, moves[i])] + sub.pushed;
      var minEval', beta' := Min(minEval, sub.value), Min(beta, sub.value);
      (beta' <= alpha ==> MinLoop(g, n, moves[i..], depth, alpha, beta, minEval, pushed) == Probe(minEval', pushed')) &&
      (alpha < beta' ==> MinLoop(g, n, moves[i..], depth, alpha, beta, minEval, pushed) ==
                         MinLoop(g, n, moves[i + 1..], depth, alpha, beta', minEval', pushed'))
  {
    PlayableSuffix(g, n, moves, i + 1);
    assert moves[i..][0] == moves[i];
    assert moves[i..][1..] == moves[i + 1..];
  }

  /** A suffix of a playable list is playable. */
  lemma PlayableSuffix(g: Grid, n: int, moves: seq<Move>, i: int)
    requires Rules.IsGrid(g, n) && Playable(g, n, moves) && 0 <= i <= |moves|
    ensures Playable(g, n, moves[i..])
  {
    var rest := moves[i..];
    forall k | 0 <= k < |rest|
      ensures Rules.OnBoard(n, rest[k].sr, rest[k].sc) && Rules.OnBoard(n, rest[k].tr, rest[k].tc) &&
              g[rest[k].sr][rest[k].sc].Some?
    {
      assert rest[k] == moves[i + k];
    }
  }

  /** One turn of the maximising loop, at position i of `moves`. */
  lemma MaxLoopStep(g: Grid, n: int, moves: seq<Move>, i: int, depth: nat, alpha: int, beta: int,
                    maxEval: int, pushed: seq<MoveRecord>, sub: Probe)
    requires Rules.IsSize(n) && Rules.IsGrid(g, n) && depth >= 1 && Playable(g, n, moves) && 0 <= i < |moves|
    requires sub == Reply(g, n, moves[i], true, depth - 1, alpha, beta)
    ensures Playable(g, n, moves[i + 1..])
    ensures var pushed' := pushed + [ProbeRecord(g, moves[i])] + sub.pushed;
      var maxEval', alpha' := Max(maxEval, sub.value), Max(alpha, sub.value);
      (beta <= alpha' ==> MaxLoop(g, n, moves[i..], depth, alpha, beta, maxEval, pushed) == Probe(maxEval', pushed')) &&
      (alpha' < beta ==> MaxLoop(g, n, moves[i..], depth, alpha, beta, maxEval, pushed) ==
                         MaxLoop(g, n, moves[i + 1..], depth, alpha', beta, maxEval', pushed'))
  {
    PlayableSuffix(g, n, moves, i + 1);
    assert moves[i..][0] == moves[i];
    assert moves[i..][1..] == moves[i + 1..];
  }

  /** One turn of the root loop, at position i of `moves`. */
  lemma RootLoopStep(g: Grid, n: int, turn: bool, moves: seq<Move>, i: int, depth: nat, alpha: int,
                     maxEval: int, best: Option<Move>, pushed: seq<MoveRecord>, sub: Probe)
    requires Rules.IsSize(n) && Rules.IsGrid(g, n) && depth >= 1 && Playable(g, n, moves) && 0 <= i < |moves|
    requires sub == Reply(g, n, moves[i], !turn, depth - 1, alpha, MaxInt)
    ensures Playable(g, n, moves[i + 1..])
    ensures var better := sub.value > maxEval;
      var maxEval' := if better then sub.value else maxEval;
      var best' := if better then Some(moves[i]) else best;
      var alpha' := Max(alpha, sub.value);
      var pushed' := pushed + [ProbeRecord(g, moves[i])] + sub.pushed;
      (MaxInt <= alpha' ==> RootLoop(g, n, turn, moves[i..], depth, alpha, maxEval, best, pushed) == Choice(best', pushed')) &&
      (alpha' < MaxInt ==> RootLoop(g, n, turn, moves[i..], depth, alpha, maxEval, best, pushed) ==
                           RootLoop(g, n, turn, moves[i + 1..], depth, alpha', maxEval', best', pushed'))
  {
    PlayableSuffix(g, n, moves, i + 1);
    assert moves[i..][0] == moves[i];
    assert moves[i..][1..] == moves[i + 1..];
  }

  /** The body of findBestMove's loop for moves[i]: probe it, keep it if its
      score beats the best so far, raise alpha. */
  method RootTurn(logic: Logic.GameLogic, ghost g: Grid, ghost n: int, ghost turn: bool, moves: seq<Move>, i: int,
                  depth: nat, alpha: int, maxEval: int, best: Option<Move>, ghost h0: seq<MoveRecord>,
                  ghost pushed: seq<MoveRecord>)
    returns (alpha': int, maxEval': int, best': Option<Move>, ghost pushed': seq<MoveRecord>)
    requires logic.Valid() && logic.cells == g && logic.size == n && logic.whiteTurn == turn
    requires logic.history == h0 + pushed
    requires depth >= 1 && Playable(g, n, moves) && 0 <= i < |moves|
    modifies logic, logic.board
    ensures logic.Valid() && logic.board == old(logic.board) && logic.size == n
    ensures logic.cells == g && logic.whiteTurn == turn
    ensures logic.history == h0 + pushed'
    ensures MaxInt <= alpha' ==> RootLoop(g, n, turn, moves[i..], depth, alpha, maxEval, best, pushed) == Choice(best', pushed')
    ensures alpha' < MaxInt ==> RootLoop(g, n, turn, moves[i..], depth, alpha, maxEval, best, pushed) ==
                                RootLoop(g, n, turn, moves[i + 1..], depth, alpha', maxEval', best', pushed')
  {
    var m := moves[i];
    assert Rules.OnBoard(n, m.sr, m.sc) && Rules.OnBoard(n, m.tr, m.tc) && g[m.sr][m.sc].Some?;
    var eval, sub := ProbeMove(logic, g, n, turn, m, depth - 1, alpha, MaxInt);
    RootLoopStep(g, n, turn, moves, i, depth, alpha, maxEval, best, pushed, sub);
    maxEval', best' := maxEval, best;
    if eval > maxEval {
      maxEval' := eval;
      best' := Some(m);
    }
    alpha' := Max(alpha, eval);
    StackStep(h0, pushed, ProbeRecord(g, m), sub.pushed);
    pushed' := pushed + [ProbeRecord(g, m)] + sub.pushed;
  }

  /** findBestMove: the AI plays Black. */
  method FindBestMove(logic: Logic.GameLogic, depth: nat) returns (best: Option<Move>)
    requires logic.Valid() && depth >= 1
    modifies logic, logic.board
    ensures logic.Valid() && logic.board == old(logic.board) && logic.size == old(logic.size)
    ensures logic.cells == old(logic.cells) && logic.whiteTurn == old(logic.whiteTurn)
    ensures var ch := BestChoice(old(logic.cells), logic.size, logic.whiteTurn, depth);
      best == ch.best && logic.history == old(logic.history) + ch.pushed
  {
    ghost var g, n, turn, h0 := logic.cells, logic.size, logic.whiteTurn, logic.history;
    var allMoves := GenerateAllMoves(logic, false);
    if |allMoves| == 0 {
      return None;
    }
    ghost var target := RootLoop(g, n, turn, allMoves, depth, MinInt, MinInt, None, []);
    best := None;
    var maxEval := MinInt;
    var alpha := MinInt;
    var beta := MaxInt;
    ghost var pushed: seq<MoveRecord> := [];
    var i := 0;
    var stop := false;
    while i < |allMoves| && !stop
      invariant 0 <= i <= |allMoves| && Playable(g, n, allMoves)
      invariant logic.Valid() && logic.board == old(logic.board) && logic.size == n
      invariant logic.cells == g && logic.whiteTurn == turn && logic.history == h0 + pushed
      invariant stop ==> target == Choice(best, pushed)
      invariant !stop ==> RootLoop(g, n, turn, allMoves[i..], depth, alpha, maxEval, best, pushed) == target
      decreases |allMoves| - i, if stop then 0 else 1
    {
      alpha, maxEval, best, pushed := RootTurn(logic, g, n, turn, allMoves, i, depth, alpha, maxEval, best, h0, pushed);
      i := i + 1;
      stop := beta <= alpha;
    }
  }
}
