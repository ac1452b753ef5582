/** The game bookkeeping of the source's GameScreen: the undo budget and
    policy, the move log and its replay cursor, whose turn it is, the choice
    between the external engine and the variant AI with its depth, the
    promotion of the AI's pawn and the fog-of-war visible set. The screen
    drives one board engine (Logic.GameLogic) in place. */
module Screen {
  import opened ChessTypes
  import Rules
  import Logic
  import Uci
  import AmusementAi
  import Pgn

  // ------------------------------------------------------------ undo

  /** undo once the budget and a non-empty stack allow it: while the AI's timer
      runs only the player's move is taken back; otherwise one move, and a
      second one when the first leaves Black to move and the stack is not empty. */
  function UndoPolicy(p: Rules.Position, aiThinking: bool): (q: Rules.Position)
    requires Rules.ValidPos(p)
    ensures Rules.ValidPos(q)
  {
    var q := Rules.UndoLast(p);
    if !aiThinking && !q.whiteTurn && q.history != [] then Rules.UndoLast(q) else q
  }

  /** An undo pops one record while the AI thinks and one or two otherwise,
      and unless the stack runs empty it hands the move back to White. */
  lemma UndoPolicyPops(p: Rules.Position, aiThinking: bool)
    requires Rules.ValidPos(p) && p.history != []
    ensures var q := UndoPolicy(p, aiThinking);
      var k := |p.history| - |q.history|;
      (k == 1 || k == 2) && q.history == p.history[..|p.history| - k] &&
      (aiThinking ==> k == 1) &&
      (!aiThinking ==> q.whiteTurn || q.history == [])
  {
    var q1 := Rules.UndoLast(p);
    if !aiThinking && !q1.whiteTurn && q1.history != [] {
      var q2 := Rules.UndoLast(q1);
      assert q2.history == p.history[..|p.history| - 2];
    }
  }

  /** The move with the promotion the player or the AI may apply after it. */
  function MoveThenPromote(p: Rules.Position, m: Move, promotion: Option<Kind>): (q: Rules.Position)
    requires Rules.ValidPos(p) && Rules.CanMove(p, m)
    ensures Rules.ValidPos(q)
  {
    var q := Rules.MovePiece(p, m);
    if promotion.Some? then Rules.Promote(q, m.tr, m.tc, promotion.value) else q
  }

  /** With White to move, a player's move and the reply (each possibly
      promoted) are both taken back by one undo: the position, the side to
      move and the stack are as before the player's move. */
  lemma UndoTakesBackExchange(p: Rules.Position, m1: Move, pr1: Option<Kind>, m2: Move, pr2: Option<Kind>)
    requires Rules.ValidPos(p) && p.whiteTurn && Rules.CanMove(p, m1)
    requires Rules.CanMove(MoveThenPromote(p, m1, pr1), m2)
    ensures UndoPolicy(MoveThenPromote(MoveThenPromote(p, m1, pr1), m2, pr2), false) == p
  {
    var q1 := MoveThenPromote(p, m1, pr1);
    Rules.MoveUndoRoundTrip(p, m1, pr1);
    Rules.MoveUndoRoundTrip(q1, m2, pr2);
  }

  /** While the AI thinks, an undo takes back exactly the player's move. */
  lemma UndoWhileThinking(p: Rules.Position, m: Move, promotion: Option<Kind>)
    requires Rules.ValidPos(p) && Rules.CanMove(p, m)
    ensures UndoPolicy(MoveThenPromote(p, m, promotion), true) == p
  {
    Rules.MoveUndoRoundTrip(p, m, promotion);
  }

  // ------------------------------------------------ AI move dispatch

  /** performAIMove hands the move to the variant AI in amusement mode, on
      boards other than 8 x 8, and when no external engine could be started. */
  predicate UseVariantAi(amusement: bool, n: int, engineAvailable: bool) {
    amusement || n != 8 || !engineAvailable
  }

  /** The variant AI's depth: the engine table's depth for the skill level,
      capped at 4 plies on boards larger than 8 x 8. */
  function AiDepth(skill: int, n: int): (d: int)
    ensures 2 <= d <= Uci.SkillToDepth(skill)
    ensures n > 8 ==> d <= 4
    ensures n <= 8 ==> d == Uci.SkillToDepth(skill)
  {
    var d := Uci.SkillToDepth(skill);
    if n > 8 && d > 4 then 4 else d
  }

  /** A higher skill never makes the variant AI search shallower, and on a big
      board every skill from 1 on searches exactly 4 plies. */
  lemma AiDepthMonotone(a: int, b: int, n: int)
    requires a <= b
    ensures AiDepth(a, n) <= AiDepth(b, n)
    ensures n > 8 && a >= 1 ==> AiDepth(a, n) == 4
  {
    Uci.SkillToDepthMonotone(a, b);
  }

  // ------------------------------------------------------- promotion

  /** The promotion rule of the player's move handler: a pawn promotes on the
      last row in its direction, row 0 for White and row n - 1 for Black. */
  predicate Promotes(p: Piece, row: int, n: int) {
    p.kind == Pawn && ((p.white && row == 0) || (!p.white && row == n - 1))
  }

  /** applyAIMove's rule as written: the rows are swapped, a black pawn would
      promote on row 0 and a white one on row n - 1. */
  predicate AiPromotesAsWritten(p: Piece, row: int, n: int) {
    p.kind == Pawn && ((!p.white && row == 0) || (p.white && row == n - 1))
  }

  /** The rule as written never promotes a black pawn that got where it is by
      a move of its own: its moves go down the board, never onto row 0, so a
      black pawn stepping onto row n - 1, where the player's rule promotes it,
      stays a pawn. */
  lemma AiPromotionAsWrittenMissed(g: Grid, n: int, r: int, c: int, s: Square)
    requires Rules.IsGrid(g, n) && Rules.OnBoard(n, r, c) && g[r][c] == Some(Piece(Pawn, false))
    requires s in Rules.ValidMoves(g, n, r, c)
    ensures !AiPromotesAsWritten(Piece(Pawn, false), s.row, n)
  {
    Rules.PawnTargetRow(g, n, false, r, c, s);
  }

  /** applyAIMove after movePiece succeeded: a captured king ends the game;
      otherwise a pawn on its last row becomes a queen (the corrected rule). */
  function AfterAiMove(p: Rules.Position, m: Move): (q: Rules.Position)
    requires Rules.ValidPos(p) && Rules.CanMove(p, m)
    ensures Rules.ValidPos(q)
  {
    var q := Rules.MovePiece(p, m);
    var captured := p.cells[m.tr][m.tc];
    var moved := p.cells[m.sr][m.sc].value;
    if captured.Some? && captured.value.kind == King then q
    else if Promotes(moved, m.tr, p.size) then Rules.Promote(q, m.tr, m.tc, Queen)
    else q
  }

  /** applyAIMove: nothing happens without a move, or when movePiece throws
      (a square off the board, or an empty source square). */
  function AfterAi(p: Rules.Position, best: Option<Move>): (q: Rules.Position)
    requires Rules.ValidPos(p)
    ensures Rules.ValidPos(q)
  {
    if best.Some? && Rules.CanMove(p, best.value) then AfterAiMove(p, best.value) else p
  }

  /** A black pawn the AI moves onto row n - 1 is a black queen afterwards,
      unless its move captured the white king; the move is still one undo away. */
  lemma AiPromotesAtFarRow(p: Rules.Position, m: Move)
    requires Rules.ValidPos(p) && Rules.CanMove(p, m)
    requires p.cells[m.sr][m.sc] == Some(Piece(Pawn, false)) && m.tr == p.size - 1
    requires Square(m.tr, m.tc) in Rules.ValidMoves(p.cells, p.size, m.sr, m.sc)
    requires p.cells[m.tr][m.tc].None? || p.cells[m.tr][m.tc].value.kind != King
    ensures AfterAiMove(p, m).cells[m.tr][m.tc] == Some(Piece(Queen, false))
    ensures Rules.UndoLast(AfterAiMove(p, m)) == p
  {
    Rules.PawnTargetRow(p.cells, p.size, false, m.sr, m.sc, Square(m.tr, m.tc));
    assert Rules.MovePiece(p, m).cells[m.tr][m.tc] == Some(Piece(Pawn, false));
    Rules.MoveUndoRoundTrip(p, m, Some(Queen));
  }

  /** The consequence of the search's probes staying on the stack: after a
      variant-AI turn, undo takes back the AI's move and then a left-over
      probe record instead of the player's move, which stays on the stack. */
  lemma UndoAfterVariantAi(q: Rules.Position, probes: seq<MoveRecord>, m: Move)
    requires Rules.ValidPos(q) && !q.whiteTurn && probes != []
    requires Rules.ValidPos(q.(history := q.history + probes))
    requires Rules.CanMove(q.(history := q.history + probes), m)
    ensures var r := UndoPolicy(AfterAiMove(q.(history := q.history + probes), m), false);
      r.history == q.history + probes[..|probes| - 1] && r.whiteTurn &&
      |r.history| >= |q.history|
  {
    var q' := q.(history := q.history + probes);
    var a := AfterAiMove(q', m);
    assert a.history == q'.history + [a.history[|a.history| - 1]];
    assert a.history[..|a.history| - 1] == q'.history;
    assert q'.history[..|q'.history| - 1] == q.history + probes[..|probes| - 1];
  }

  /** What that second pop does to the board: it applies the left-over probe
      record, so its target square gets back the record's captured content
      and its source square the record's mover, whatever stands there now. */
  lemma UndoAfterVariantAiCells(q: Rules.Position, probes: seq<MoveRecord>, m: Move)
    requires Rules.ValidPos(q) && !q.whiteTurn && probes != []
    requires Rules.ValidPos(q.(history := q.history + probes))
    requires Rules.CanMove(q.(history := q.history + probes), m)
    ensures var rec := probes[|probes| - 1];
      var r := UndoPolicy(AfterAiMove(q.(history := q.history + probes), m), false);
      Rules.RecordOnBoard(rec, r.size) && r.cells[rec.tr][rec.tc] == rec.captured &&
      (rec.sr != rec.tr || rec.sc != rec.tc ==> r.cells[rec.sr][rec.sc] == Some(rec.moved))
  {
    var q' := q.(history := q.history + probes);
    var a := AfterAiMove(q', m);
    var u := Rules.UndoLast(a);
    assert a.history == q'.history + [a.history[|a.history| - 1]];
    assert a.history[..|a.history| - 1] == q'.history;
    assert u.history == q'.history;
    assert u.history[|u.history| - 1] == probes[|probes| - 1];
    assert Rules.RecordOnBoard(q'.history[|q'.history| - 1], q'.size);
    assert u.size == q.size;
  }

  /** The same for the search's actual output: when the variant AI finds a
      move from a position with Black to move, the undo that follows its turn
      hands the move to White with the player's move still on the stack. */
  lemma VariantAiTurnThenUndo(p: Rules.Position, depth: nat)
    requires Rules.ValidPos(p) && !p.whiteTurn && depth >= 1
    requires AmusementAi.BestChoice(p.cells, p.size, p.whiteTurn, depth).best.Some?
    requires Rules.ValidPos(p.(history := p.history + AmusementAi.BestChoice(p.cells, p.size, p.whiteTurn, depth).pushed))
    ensures var ch := AmusementAi.BestChoice(p.cells, p.size, p.whiteTurn, depth);
      var r := UndoPolicy(AfterAi(p.(history := p.history + ch.pushed), ch.best), false);
      |r.history| >= |p.history| && r.history[..|p.history|] == p.history && r.whiteTurn
  {
    var ch := AmusementAi.BestChoice(p.cells, p.size, p.whiteTurn, depth);
    AmusementAi.BestChoiceSpec(p.cells, p.size, p.whiteTurn, depth);
    var moves := AmusementAi.AllMoves(p.cells, p.size, false);
    var k := AmusementAi.FirstMax(AmusementAi.RootEvals(p.cells, p.size, p.whiteTurn, moves, depth, AmusementAi.MinInt));
    assert ch.best.value == moves[k];
    UndoAfterVariantAi(p, ch.pushed, ch.best.value);
    var r := UndoPolicy(AfterAi(p.(history := p.history + ch.pushed), ch.best), false);
    assert r.history[..|p.history|] == (p.history + ch.pushed[..|ch.pushed| - 1])[..|p.history|];
  }

  // ------------------------------------------------------------ replay

  function AsMove(e: PgnMove): Move {
    Move(e.sr, e.sc, e.tr, e.tc)
  }

  /** A rebuilt position, and whether every move of the log could be played. */
  datatype Replay = Replay(pos: Rules.Position, complete: bool)

  /** replayPrev and stopReplay: reset to the 8 x 8 opening position and play
      the first k logged moves in order; the first move movePiece cannot play
      throws, which ends the rebuild there. */
  function Rebuild(log: seq<PgnMove>, k: int): (r: Replay)
    requires 0 <= k <= |log|
    ensures Rules.ValidPos(r.pos)
  {
    if k == 0 then Replay(Rules.Start(1), true)
    else
      var prev := Rebuild(log, k - 1);
      var m := AsMove(log[k - 1]);
      if prev.complete && Rules.CanMove(prev.pos, m) then Replay(Rules.MovePiece(prev.pos, m), true)
      else Replay(prev.pos, false)
  }

  /** One more logged move: replayNext's step from a completely rebuilt prefix
      lands on the rebuild of the next prefix. */
  lemma RebuildNext(log: seq<PgnMove>, k: int)
    requires 0 <= k < |log| && Rebuild(log, k).complete
    ensures var p := Rebuild(log, k).pos;
      Rebuild(log, k + 1) ==
        if Rules.CanMove(p, AsMove(log[k])) then Replay(Rules.MovePiece(p, AsMove(log[k])), true)
        else Replay(p, false)
  {
  }

  /** A rebuild that played k moves played every shorter prefix too. */
  lemma {:induction false} RebuildPrefix(log: seq<PgnMove>, j: int, k: int)
    requires 0 <= j <= k <= |log| && Rebuild(log, k).complete
    ensures Rebuild(log, j).complete
    decreases k
  {
    if j < k {
      RebuildPrefix(log, j, k - 1);
    }
  }

  /** Once a move cannot be played, the rest of the log changes nothing. */
  lemma {:induction false} RebuildStuck(log: seq<PgnMove>, i: int, k: int)
    requires 0 <= i < k <= |log| && Rebuild(log, i).complete
    requires !Rules.CanMove(Rebuild(log, i).pos, AsMove(log[i]))
    ensures Rebuild(log, k) == Replay(Rebuild(log, i).pos, false)
    decreases k
  {
    if k > i + 1 {
      RebuildStuck(log, i, k - 1);
    }
  }

  /** A rebuild that played every move has one stack record per move, with the
      logged squares, and the side to move alternates from White. */
  lemma {:induction false} RebuildRecords(log: seq<PgnMove>, k: int)
    requires 0 <= k <= |log| && Rebuild(log, k).complete
    ensures var p := Rebuild(log, k).pos;
      |p.history| == k && p.size == 8 && (p.whiteTurn <==> k % 2 == 0) &&
      forall i :: 0 <= i < k ==> SameSquares(p.history[i], log[i])
    decreases k
  {
    if k > 0 {
      RebuildStep(log, k);
      RebuildRecords(log, k - 1);
      var h := Rebuild(log, k - 1).pos.history;
      HistoryStep(h, Rebuild(log, k).pos.history[k - 1], log, k);
    }
  }

  /** A complete rebuild of k moves is the complete rebuild of k - 1 moves with
      one more record, naming the squares of log entry k - 1, pushed. */
  lemma RebuildStep(log: seq<PgnMove>, k: int)
    requires 0 < k <= |log| && Rebuild(log, k).complete
    ensures Rebuild(log, k - 1).complete
    ensures var p, q := Rebuild(log, k - 1).pos, Rebuild(log, k).pos;
      q.size == p.size && q.whiteTurn == !p.whiteTurn &&
      q.history == p.history + [q.history[|p.history|]] &&
      SameSquares(q.history[|p.history|], log[k - 1])
  {
    MoveRecordSquares(Rebuild(log, k - 1).pos, AsMove(log[k - 1]));
  }

  /** The record a move pushes names the move's two squares. */
  lemma MoveRecordSquares(p: Rules.Position, m: Move)
    requires Rules.ValidPos(p) && Rules.CanMove(p, m)
    ensures var q := Rules.MovePiece(p, m);
      q.size == p.size && q.whiteTurn == !p.whiteTurn &&
      q.history == p.history + [q.history[|p.history|]] &&
      q.history[|p.history|].sr == m.sr && q.history[|p.history|].sc == m.sc &&
      q.history[|p.history|].tr == m.tr && q.history[|p.history|].tc == m.tc
  {
  }

  /** Pushing a record that matches the next log entry keeps the stack and the
      log matched entry by entry. */
  lemma HistoryStep(h: seq<MoveRecord>, rec: MoveRecord, log: seq<PgnMove>, k: int)
    requires 0 < k <= |log| && |h| == k - 1
    requires forall i :: 0 <= i < k - 1 ==> SameSquares(h[i], log[i])
    requires SameSquares(rec, log[k - 1])
    ensures forall i :: 0 <= i < k ==> SameSquares((h + [rec])[i], log[i])
  {
  }

  /** A stack record and a log entry name the same two squares. */
  predicate SameSquares(rec: MoveRecord, e: PgnMove) {
    rec.sr == e.sr && rec.sc == e.sc && rec.tr == e.tr && rec.tc == e.tc
  }

  // ------------------------------------------------------ attack range

  /** The list with s appended unless it is already there. */
  function AddNew(range: seq<Square>, s: Square): seq<Square> {
    if s in range then range else range + [s]
  }

  /** AddNew applied to each of ds in turn. */
  function AddAll(range: seq<Square>, ds: seq<Square>): seq<Square> {
    if ds == [] then range else AddNew(AddAll(range, ds[..|ds| - 1]), ds[|ds| - 1])
  }

  predicate NoDuplicates(range: seq<Square>) {
    forall i, j :: 0 <= i < j < |range| ==> range[i] != range[j]
  }

  /** Adding squares keeps the list free of duplicates and contains exactly the
      old squares and the added ones. */
  lemma {:induction false} AddAllSpec(range: seq<Square>, ds: seq<Square>)
    requires NoDuplicates(range)
    ensures NoDuplicates(AddAll(range, ds))
    ensures forall s :: s in AddAll(range, ds) <==> s in range || s in ds
  {
    if ds != [] {
      var init := ds[..|ds| - 1];
      AddAllSpec(range, init);
      assert forall s :: s in ds <==> s in init || s == ds[|ds| - 1];
    }
  }

  /** A square of the side's own pieces adds its destinations, then itself. */
  predicate Own(g: Grid, n: int, white: bool, r: int, c: int)
    requires Rules.IsGrid(g, n) && Rules.OnBoard(n, r, c)
  {
    g[r][c].Some? && g[r][c].value.white == white
  }

  function Visit(g: Grid, n: int, t: seq<seq<seq<Square>>>, white: bool, range: seq<Square>, r: int, c: int): seq<Square>
    requires Rules.IsGrid(g, n) && AmusementAi.IsTable(t, n) && Rules.OnBoard(n, r, c)
  {
    if Own(g, n, white, r, c) then AddNew(AddAll(range, t[r][c]), Square(r, c)) else range
  }

  /** The list getAttackRange has built when its scan reaches column c of row
      r (c == n: the end of the row), with destinations read from table t. */
  function Range(g: Grid, n: int, t: seq<seq<seq<Square>>>, white: bool, r: int, c: int): seq<Square>
    requires Rules.IsGrid(g, n) && AmusementAi.IsTable(t, n) && 0 <= r < n && 0 <= c <= n
    decreases r, c
  {
    if c > 0 then Visit(g, n, t, white, Range(g, n, t, white, r, c - 1), r, c - 1)
    else if r > 0 then Range(g, n, t, white, r - 1, n)
    else []
  }

  /** getAttackRange: the squares of the side's pieces and their destinations,
      each once, in the order the row-major scan first meets them. */
  function AttackRange(g: Grid, n: int, white: bool): seq<Square>
    requires Rules.IsGrid(g, n) && n > 0
  {
    Range(g, n, AmusementAi.DestTable(g, n), white, n - 1, n)
  }

  /** A square a piece of the side at (r, c) sees: its own or one it may move to. */
  predicate Sees(g: Grid, n: int, t: seq<seq<seq<Square>>>, white: bool, r: int, c: int, s: Square)
    requires Rules.IsGrid(g, n) && AmusementAi.IsTable(t, n)
  {
    Rules.OnBoard(n, r, c) && Own(g, n, white, r, c) && (s == Square(r, c) || s in t[r][c])
  }

  /** The scan up to (r, c) holds each square once, and exactly those some
      earlier own piece sees. */
  lemma {:induction false} RangeSpec(g: Grid, n: int, t: seq<seq<seq<Square>>>, white: bool, r: int, c: int)
    requires Rules.IsGrid(g, n) && AmusementAi.IsTable(t, n) && 0 <= r < n && 0 <= c <= n
    ensures NoDuplicates(Range(g, n, t, white, r, c))
    ensures forall s :: s in Range(g, n, t, white, r, c) <==>
      exists r', c' :: (r' < r || (r' == r && c' < c)) && Sees(g, n, t, white, r', c', s)
    decreases r, c
  {
    var range := Range(g, n, t, white, r, c);
    if c > 0 {
      var prev := Range(g, n, t, white, r, c - 1);
      RangeSpec(g, n, t, white, r, c - 1);
      if Own(g, n, white, r, c - 1) {
        AddAllSpec(prev, t[r][c - 1]);
      }
      forall s
        ensures s in range <==> exists r', c' :: (r' < r || (r' == r && c' < c)) && Sees(g, n, t, white, r', c', s)
      {
        if s in range && !(s in prev) {
          assert Sees(g, n, t, white, r, c - 1, s);
        }
        if exists r', c' :: (r' < r || (r' == r && c' < c)) && Sees(g, n, t, white, r', c', s) {
          var r', c' :| (r' < r || (r' == r && c' < c)) && Sees(g, n, t, white, r', c', s);
          if r' == r && c' == c - 1 {
            assert s in range;
          }
        }
      }
    } else if r > 0 {
      RangeSpec(g, n, t, white, r - 1, n);
      forall s
        ensures s in range <==> exists r', c' :: (r' < r || (r' == r && c' < c)) && Sees(g, n, t, white, r', c', s)
      {
        if exists r', c' :: (r' < r || (r' == r && c' < c)) && Sees(g, n, t, white, r', c', s) {
          var r', c' :| (r' < r || (r' == r && c' < c)) && Sees(g, n, t, white, r', c', s);
          assert r' < r - 1 || (r' == r - 1 && c' < n);
        }
      }
    }
  }

  /** The fog-of-war set lists each square once, and a square is in it exactly
      when it holds a piece of the side or some piece of the side may move to
      it (getValidMoves' off-board pawn step included). */
  lemma AttackRangeExact(g: Grid, n: int, white: bool, s: Square)
    requires Rules.IsGrid(g, n) && n > 0
    ensures NoDuplicates(AttackRange(g, n, white))
    ensures s in AttackRange(g, n, white) <==>
      exists r, c :: Rules.OnBoard(n, r, c) && Own(g, n, white, r, c) &&
        (s == Square(r, c) || s in Rules.ValidMoves(g, n, r, c))
  {
    var t := AmusementAi.DestTable(g, n);
    RangeSpec(g, n, t, white, n - 1, n);
    if s in AttackRange(g, n, white) {
      var r, c :| (r < n - 1 || (r == n - 1 && c < n)) && Sees(g, n, t, white, r, c, s);
      AmusementAi.DestTableAt(g, n, r, c);
    }
    if exists r, c :: Rules.OnBoard(n, r, c) && Own(g, n, white, r, c) && (s == Square(r, c) || s in Rules.ValidMoves(g, n, r, c)) {
      var r, c :| Rules.OnBoard(n, r, c) && Own(g, n, white, r, c) && (s == Square(r, c) || s in Rules.ValidMoves(g, n, r, c));
      AmusementAi.DestTableAt(g, n, r, c);
      assert Sees(g, n, t, white, r, c, s);
    }
  }

  // ------------------------------------------------------------ screen

  class GameScreen {
    var logic: Logic.GameLogic
    var vsAi: bool
    /** The skill level 0..20 chosen in the menu (not clamped here). */
    var skill: int
    var undoCount: int
    /** The game log, oldest move first. */
    var moveHistory: seq<PgnMove>
    /** The replay cursor: -1 outside replay mode, else the number of logged
        moves on the board. */
    var replayIndex: int
    /** The captured pieces, most recent last. */
    var capturedPieces: seq<Piece>
    var amusement: bool
    var multiplier: int
    /** Whether the external engine could be started. */
    var engineAvailable: bool

    ghost predicate Valid()
      reads this, logic, logic.board
    {
      logic.Valid() && 0 <= undoCount <= 3 && -1 <= replayIndex <= |moveHistory| &&
      (multiplier == 1 || multiplier == 2 || multiplier == 4)
    }

    /** In replay mode the board holds the rebuild of the first replayIndex
        logged moves, all of which could be played. */
    ghost predicate InSync()
      reads this, logic
    {
      replayIndex >= 0 ==>
        replayIndex <= |moveHistory| && Rebuild(moveHistory, replayIndex) == Replay(logic.Pos(), true)
    }

    /** A new screen: a fresh engine on the opening position, skill 5, three
        undos, an empty log, not in replay mode. */
    constructor (engineAvailable: bool)
      ensures Valid() && fresh(logic) && logic.Pos() == Rules.Start(1)
      ensures !vsAi && skill == 5 && undoCount == 3 && moveHistory == [] && replayIndex == -1
      ensures capturedPieces == [] && !amusement && multiplier == 1
      ensures this.engineAvailable == engineAvailable
    {
      logic := new Logic.GameLogic();
      vsAi := false;
      skill := 5;
      undoCount := 3;
      moveHistory := [];
      replayIndex := -1;
      capturedPieces := [];
      amusement := false;
      multiplier := 1;
      this.engineAvailable := engineAvailable;
    }

    /** startNewGame. The source draws the amusement multiplier at random; it
        is a parameter here. Returns the skill level sent to the engine, if
        one is running. */
    method StartNewGame(vsAi: bool, difficulty: int, amusementMode: bool, randomMultiplier: int)
      returns (engineSkill: Option<int>)
      requires Valid() && (randomMultiplier == 2 || randomMultiplier == 4)
      modifies this, logic
      ensures Valid() && logic == old(logic) && engineAvailable == old(engineAvailable)
      ensures this.vsAi == vsAi && skill == difficulty && undoCount == 3 && moveHistory == []
      ensures replayIndex == -1 && capturedPieces == [] && amusement == amusementMode
      ensures engineSkill == if engineAvailable then Some(Uci.ClampSkill(difficulty)) else None
      ensures amusementMode ==> multiplier == randomMultiplier && logic.Pos() == Rules.Start(randomMultiplier)
      ensures !amusementMode ==> multiplier == 1 && logic.Pos() == Rules.Start(1)
    {
      ResetSession(vsAi, difficulty, amusementMode);
      engineSkill := if engineAvailable then Some(Uci.ClampSkill(difficulty)) else None;
      ResetPieces(amusementMode, randomMultiplier);
    }

    /** The session part of startNewGame: mode, difficulty, a full undo budget,
        an empty log and capture list, replay mode off. */
    method ResetSession(vsAi: bool, difficulty: int, amusementMode: bool)
      requires Valid()
      modifies this`vsAi, this`skill, this`undoCount, this`moveHistory, this`replayIndex,
        this`capturedPieces, this`amusement
      ensures Valid()
      ensures this.vsAi == vsAi && skill == difficulty && undoCount == 3 && moveHistory == []
      ensures replayIndex == -1 && capturedPieces == [] && amusement == amusementMode
    {
      this.vsAi := vsAi;
      skill := difficulty;
      undoCount := 3;
      moveHistory := [];
      replayIndex := -1;
      capturedPieces := [];
      amusement := amusementMode;
    }

    /** The board part of startNewGame: a variant board of the chosen multiplier
        in amusement mode, the classic board otherwise. */
    method ResetPieces(amusementMode: bool, randomMultiplier: int)
      requires Valid() && (randomMultiplier == 2 || randomMultiplier == 4)
      modifies this`multiplier, logic
      ensures Valid()
      ensures amusementMode ==> multiplier == randomMultiplier && logic.Pos() == Rules.Start(randomMultiplier)
      ensures !amusementMode ==> multiplier == 1 && logic.Pos() == Rules.Start(1)
    {
      if amusementMode {
        multiplier := randomMultiplier;
        logic.ResetAmusementBoard(multiplier);
      } else {
        multiplier := 1;
        logic.ResetBoard();
      }
    }

    /** undo: with budget left and a move on the stack, take back moves by
        UndoPolicy and spend one undo; otherwise nothing changes. */
    method Undo(aiThinking: bool)
      requires Valid()
      modifies this`undoCount, logic, logic.board
      ensures Valid() && logic.board == old(logic.board)
      ensures old(undoCount) > 0 && old(logic.history) != [] ==>
        undoCount == old(undoCount) - 1 && logic.Pos() == UndoPolicy(old(logic.Pos()), aiThinking)
      ensures !(old(undoCount) > 0 && old(logic.history) != []) ==>
        undoCount == old(undoCount) && logic.Pos() == old(logic.Pos())
    {
      var canUndo := logic.CanUndo();
      if undoCount > 0 && canUndo {
        logic.UndoLastMove();
        if !aiThinking {
          canUndo := logic.CanUndo();
          if !logic.whiteTurn && canUndo {
            logic.UndoLastMove();
          }
        }
        undoCount := undoCount - 1;
      }
    }

    /** recordMove, called after movePiece put the mover on (tr, tc): outside
        replay mode the log gains the move's entry and the captured piece is
        pushed; in replay mode nothing is recorded. */
    method RecordMove(sr: int, sc: int, tr: int, tc: int, captured: Cell)
      requires Valid() && Rules.OnBoard(logic.size, tr, tc) && logic.cells[tr][tc].Some?
      modifies this`moveHistory, this`capturedPieces
      ensures Valid()
      ensures old(replayIndex) >= 0 ==>
        moveHistory == old(moveHistory) && capturedPieces == old(capturedPieces)
      ensures old(replayIndex) < 0 ==>
        moveHistory == old(moveHistory) +
          [PgnMove(Pgn.Notation(tr, tc, logic.cells[tr][tc].value, captured), sr, sc, tr, tc, captured)] &&
        capturedPieces == old(capturedPieces) + (if captured.Some? then [captured.value] else [])
    {
      if replayIndex >= 0 {
        return;
      }
      var moved := logic.GetPiece(tr, tc);
      var notation := Pgn.Notation(tr, tc, moved.value, captured);
      moveHistory := moveHistory + [PgnMove(notation, sr, sc, tr, tc, captured)];
      if captured.Some? {
        capturedPieces := capturedPieces + [captured.value];
      }
    }

    /** applyAIMove. Returns whether the AI captured the king. A move from a
        square onto itself empties it; outside replay mode recordMove then
        throws on the missing piece, which ends the method before the win
        check, while in replay mode recordMove returns at once and the win
        check still runs. */
    method ApplyAiMove(best: Option<Move>) returns (aiWins: bool)
      requires Valid()
      modifies this`moveHistory, this`capturedPieces, logic, logic.board
      ensures Valid() && logic.board == old(logic.board)
      ensures AiMoveApplied(old(logic.Pos()), best, old(replayIndex) >= 0, old(moveHistory), old(capturedPieces),
                            logic.Pos(), moveHistory, capturedPieces, aiWins)
    {
      aiWins := false;
      if best.None? {
        return;
      }
      var m := best.value;
      var n := logic.GetBoardSize();
      if !(0 <= m.sr < n && 0 <= m.sc < n && 0 <= m.tr < n && 0 <= m.tc < n) {
        return;
      }
      var src := logic.GetPiece(m.sr, m.sc);
      if src.None? {
        return;
      }
      aiWins := PlayAiMove(m);
    }

    /** The part of applyAIMove after the checks: play the move, log it, and
        either report the king's capture or promote a pawn that reached its
        last row. */
    method PlayAiMove(m: Move) returns (aiWins: bool)
      requires Valid() && Rules.CanMove(logic.Pos(), m)
      modifies this`moveHistory, this`capturedPieces, logic, logic.board
      ensures Valid() && logic.board == old(logic.board)
      ensures AiMoveApplied(old(logic.Pos()), Some(m), old(replayIndex) >= 0, old(moveHistory), old(capturedPieces),
                            logic.Pos(), moveHistory, capturedPieces, aiWins)
    {
      aiWins := false;
      var n := logic.GetBoardSize();
      var captured := logic.MovePiece(m.sr, m.sc, m.tr, m.tc);
      var moved := logic.GetPiece(m.tr, m.tc);
      if moved.None? && replayIndex < 0 {
        return;
      }
      if moved.Some? {
        RecordMove(m.sr, m.sc, m.tr, m.tc, captured);
      }
      if captured.Some? && captured.value.kind == King {
        aiWins := true;
      } else if moved.Some? && Promotes(moved.value, m.tr, n) {
        logic.PromotePiece(m.tr, m.tc, Queen);
      }
    }

    /** performAIMove: the variant AI searches at AiDepth on the shared engine
        (leaving one record per probed move on the stack) and its choice is
        applied; otherwise the external engine's reply, a parameter here, is
        applied. Returns whether the AI captured the king; the position, the
        log, the capture list and the result are applyAIMove's, started from
        the position the search left. */
    method PerformAiMove(engineReply: Option<Move>) returns (aiWins: bool)
      requires Valid()
      modifies this`moveHistory, this`capturedPieces, logic, logic.board
      ensures Valid() && logic.board == old(logic.board)
      ensures var ch := AiChoice(old(logic.cells), old(logic.size), old(logic.whiteTurn), amusement, engineAvailable,
                                 skill, engineReply);
        var p := Rules.Position(old(logic.cells), old(logic.size), old(logic.whiteTurn), old(logic.history) + ch.pushed);
        Rules.ValidPos(p) &&
        AiMoveApplied(p, ch.best, old(replayIndex) >= 0, old(moveHistory), old(capturedPieces),
                      logic.Pos(), moveHistory, capturedPieces, aiWins)
    {
      var best := ChooseAiMove(engineReply);
      aiWins := ApplyAiMove(best);
    }

    /** The first half of performAIMove: the move to apply, and the records
        the variant AI's search leaves on the stack. */
    method ChooseAiMove(engineReply: Option<Move>) returns (best: Option<Move>)
      requires Valid()
      modifies logic, logic.board
      ensures Valid() && logic.board == old(logic.board)
      ensures var ch := AiChoice(old(logic.cells), old(logic.size), old(logic.whiteTurn), amusement, engineAvailable,
                                 skill, engineReply);
        best == ch.best &&
        logic.Pos() == Rules.Position(old(logic.cells), old(logic.size), old(logic.whiteTurn), old(logic.history) + ch.pushed)
    {
      var n := logic.GetBoardSize();
      best := engineReply;
      if UseVariantAi(amusement, n, engineAvailable) {
        var depth := AiDepth(skill, n);
        best := AmusementAi.FindBestMove(logic, depth);
      }
    }

    /** isPlayerTurn: never in replay mode; always against a human; only as
        White against the AI. */
    function IsPlayerTurn(): bool
      reads this, logic
    {
      if replayIndex >= 0 then false else if !vsAi then true else logic.whiteTurn
    }

    /** onTurnEnd's condition for starting the AI's timer. */
    predicate AiTurnDue()
      reads this, logic
    {
      vsAi && !logic.whiteTurn && replayIndex < 0
    }

    /** getAttackRange: the fog-of-war visible set of one side, built by the
        source's row-major scan with a linear duplicate check per square. */
    method GetAttackRange(white: bool) returns (range: seq<Square>)
      requires Valid()
      ensures range == AttackRange(logic.cells, logic.size, white)
    {
      var n := logic.GetBoardSize();
      ghost var g := logic.cells;
      ghost var t := AmusementAi.DestTable(g, n);
      range := [];
      var r := 0;
      while r < n
        invariant 0 <= r <= n
        invariant range == if r == 0 then [] else Range(g, n, t, white, r - 1, n)
      {
        var c := 0;
        assert range == Range(g, n, t, white, r, 0);
        while c < n
          invariant 0 <= c <= n
          invariant range == Range(g, n, t, white, r, c)
        {
          var p := logic.GetPiece(r, c);
          if p.Some? && p.value.white == white {
            var moves := logic.GetValidMoves(r, c);
            AmusementAi.DestTableAt(g, n, r, c);
            range := AddDestinations(range, moves);
            var posExists := Contains(range, Square(r, c));
            if !posExists {
              range := range + [Square(r, c)];
            }
          }
          c := c + 1;
        }
        r := r + 1;
      }
    }

    /** The inner loop of getAttackRange: each destination is appended unless
        the list already holds it. */
    static method AddDestinations(range: seq<Square>, moves: seq<Square>) returns (res: seq<Square>)
      ensures res == AddAll(range, moves)
    {
      res := range;
      var k := 0;
      while k < |moves|
        invariant 0 <= k <= |moves|
        invariant res == AddAll(range, moves[..k])
      {
        var present := Contains(res, moves[k]);
        if !present {
          res := res + [moves[k]];
        }
        assert moves[..k + 1][..k] == moves[..k];
        k := k + 1;
      }
      assert moves[..|moves|] == moves;
    }

    /** The linear search getAttackRange runs before every append. */
    static method Contains(range: seq<Square>, s: Square) returns (found: bool)
      ensures found <==> s in range
    {
      found := false;
      var i := 0;
      while i < |range|
        invariant 0 <= i <= |range|
        invariant s !in range[..i]
      {
        if range[i] == s {
          return true;
        }
        i := i + 1;
      }
      assert range[..i] == range;
    }

    /** startReplay: refused on an empty log; otherwise the cursor goes to 0
        and the engine to the 8 x 8 opening position. */
    method StartReplay()
      requires Valid()
      modifies this`replayIndex, logic
      ensures Valid()
      ensures old(moveHistory) == [] ==> replayIndex == old(replayIndex) && logic.Pos() == old(logic.Pos())
      ensures old(moveHistory) != [] ==> replayIndex == 0 && logic.Pos() == Rules.Start(1) && InSync()
    {
      if |moveHistory| == 0 {
        return;
      }
      replayIndex := 0;
      logic.ResetBoard();
    }

    /** replayNext: while the cursor is before the end of the log, play the
        logged move under it and advance. Outside replay mode the cursor -1
        makes the list access throw, and a move movePiece cannot play throws
        too: nothing changes then. */
    method ReplayNext()
      requires Valid()
      modifies this`replayIndex, logic, logic.board
      ensures Valid() && logic.board == old(logic.board)
      ensures var k := old(replayIndex);
        if 0 <= k < |moveHistory| && Rules.CanMove(old(logic.Pos()), AsMove(moveHistory[k])) then
          replayIndex == k + 1 && logic.Pos() == Rules.MovePiece(old(logic.Pos()), AsMove(moveHistory[k]))
        else
          replayIndex == k && logic.Pos() == old(logic.Pos())
      ensures old(InSync()) ==> InSync()
    {
      if replayIndex < |moveHistory| {
        if replayIndex < 0 {
          return;
        }
        var played := PlayLogged(moveHistory[replayIndex]);
        if !played {
          return;
        }
        if old(InSync()) {
          RebuildNext(moveHistory, replayIndex);
        }
        replayIndex := replayIndex + 1;
      }
    }

    /** One logged move handed to movePiece: it is played when both squares
        are on the board and the source holds a piece; otherwise movePiece
        throws before changing anything. */
    method PlayLogged(e: PgnMove) returns (played: bool)
      requires logic.Valid()
      modifies logic, logic.board
      ensures logic.Valid() && logic.board == old(logic.board)
      ensures played <==> Rules.CanMove(old(logic.Pos()), AsMove(e))
      ensures played ==> logic.Pos() == Rules.MovePiece(old(logic.Pos()), AsMove(e))
      ensures !played ==> logic.Pos() == old(logic.Pos())
    {
      var n := logic.GetBoardSize();
      if !(0 <= e.sr < n && 0 <= e.sc < n && 0 <= e.tr < n && 0 <= e.tc < n) {
        return false;
      }
      var src := logic.GetPiece(e.sr, e.sc);
      if src.None? {
        return false;
      }
      var captured := logic.MovePiece(e.sr, e.sc, e.tr, e.tc);
      return true;
    }

    /** replayPrev: while the cursor is past the start, step it back and
        rebuild the board from the 8 x 8 opening position. */
    method ReplayPrev()
      requires Valid()
      modifies this`replayIndex, logic
      ensures Valid()
      ensures old(replayIndex) > 0 ==>
        replayIndex == old(replayIndex) - 1 && logic.Pos() == Rebuild(moveHistory, replayIndex).pos
      ensures old(replayIndex) <= 0 ==> replayIndex == old(replayIndex) && logic.Pos() == old(logic.Pos())
      ensures old(InSync()) ==> InSync()
    {
      if replayIndex > 0 {
        if old(InSync()) {
          RebuildPrefix(moveHistory, replayIndex - 1, replayIndex);
        }
        replayIndex := replayIndex - 1;
        ReplayLog(replayIndex);
      }
    }

    /** stopReplay: leave replay mode and rebuild the board from the 8 x 8
        opening position with the whole log. */
    method StopReplay()
      requires Valid()
      modifies this`replayIndex, logic
      ensures Valid() && replayIndex == -1
      ensures logic.Pos() == Rebuild(moveHistory, |moveHistory|).pos
    {
      replayIndex := -1;
      ReplayLog(|moveHistory|);
    }

    /** The rebuild loop replayPrev and stopReplay share: reset, then play the
        first `count` logged moves until one throws. */
    method ReplayLog(count: int)
      requires Valid() && 0 <= count <= |moveHistory|
      modifies logic
      ensures Valid() && logic.Pos() == Rebuild(moveHistory, count).pos
    {
      logic.ResetBoard();
      PlayLog(count);
    }

    /** The loop of the rebuild: from the opening position, play the first
        `count` logged moves in order, stopping at the first one that throws. */
    method PlayLog(count: int)
      requires logic.Valid() && 0 <= count <= |moveHistory| && logic.Pos() == Rules.Start(1)
      modifies logic, logic.board
      ensures logic.Valid() && logic.board == old(logic.board)
      ensures logic.Pos() == Rebuild(moveHistory, count).pos
    {
      var i := 0;
      while i < count
        invariant 0 <= i <= count && logic.Valid() && logic.board == old(logic.board)
        invariant Rebuild(moveHistory, i) == Replay(logic.Pos(), true)
      {
        var played := PlayLogged(moveHistory[i]);
        if !played {
          RebuildStuck(moveHistory, i, count);
          return;
        }
        RebuildNext(moveHistory, i);
        i := i + 1;
      }
    }
  }

  /** applyAIMove's move is played and lands a piece on its target: movePiece
      does not throw and the move is not from a square onto itself. */
  predicate Lands(p: Rules.Position, best: Option<Move>)
    requires Rules.ValidPos(p)
  {
    best.Some? && Rules.CanMove(p, best.value) && !SelfMove(best.value)
  }

  /** A move from a square onto itself, which movePiece turns into emptying it. */
  predicate SelfMove(m: Move) {
    m.sr == m.tr && m.sc == m.tc
  }

  /** The piece recordMove pushes onto the capture list for move m on p, if any. */
  function CapturedBy(p: Rules.Position, m: Move): seq<Piece>
    requires Rules.ValidPos(p) && Rules.CanMove(p, m)
  {
    var captured := p.cells[m.tr][m.tc];
    if captured.Some? then [captured.value] else []
  }

  /** The move performAIMove applies and the records it leaves: the variant
      AI's search in amusement mode, off 8 x 8 or without an engine, and
      otherwise the engine's reply with no records. */
  ghost function AiChoice(g: Grid, n: int, turn: bool, amusement: bool, engineAvailable: bool, skill: int,
                          engineReply: Option<Move>): AmusementAi.Choice
    requires Rules.IsSize(n) && Rules.IsGrid(g, n)
  {
    if UseVariantAi(amusement, n, engineAvailable) then AmusementAi.BestChoice(g, n, turn, AiDepth(skill, n))
    else AmusementAi.Choice(engineReply, [])
  }

  /** The log entry recordMove writes for move m played on p. */
  function LogEntry(p: Rules.Position, m: Move): PgnMove
    requires Rules.ValidPos(p) && Rules.CanMove(p, m)
  {
    var captured := p.cells[m.tr][m.tc];
    PgnMove(Pgn.Notation(m.tr, m.tc, p.cells[m.sr][m.sc].value, captured), m.sr, m.sc, m.tr, m.tc, captured)
  }

  /** What applyAIMove does when it starts from position p with the move
      `best` (`replaying` is replay mode), from the log and capture list
      (log, captures) to the position q, the log and list (log', captures')
      and its result `win`:
      - the position is AfterAi's: unchanged when movePiece cannot play the
        move, otherwise moved and, unless a king was taken, promoted;
      - the AI wins iff the move is played, it takes a king, and it gets past
        recordMove, which a self-move does only in replay mode;
      - outside replay mode a move that lands is logged with its entry and
        its captured piece is pushed; otherwise log and list are unchanged. */
  ghost predicate AiMoveApplied(p: Rules.Position, best: Option<Move>, replaying: bool,
                                log: seq<PgnMove>, captures: seq<Piece>,
                                q: Rules.Position, log': seq<PgnMove>, captures': seq<Piece>, win: bool)
    requires Rules.ValidPos(p)
  {
    q == AfterAi(p, best) &&
    (win <==> best.Some? && Rules.CanMove(p, best.value) && (!SelfMove(best.value) || replaying) &&
              p.cells[best.value.tr][best.value.tc].Some? && p.cells[best.value.tr][best.value.tc].value.kind == King) &&
    (if Lands(p, best) && !replaying
     then log' == log + [LogEntry(p, best.value)] && captures' == captures + CapturedBy(p, best.value)
     else log' == log && captures' == captures)
  }

  /** Outside replay mode the player and the AI take turns: against the AI
      exactly one of them is due, against a human the player always is; in
      replay mode neither is. */
  lemma TurnsPartition(s: GameScreen)
    ensures s.replayIndex >= 0 ==> !s.IsPlayerTurn() && !s.AiTurnDue()
    ensures s.replayIndex < 0 && s.vsAi ==> (s.IsPlayerTurn() <==> !s.AiTurnDue())
    ensures s.replayIndex < 0 && !s.vsAi ==> s.IsPlayerTurn() && !s.AiTurnDue()
  {
  }
}
