/** The pure helpers of the external-engine controller (ChessAIController):
    the skill-to-depth table, the skill clamp, the FEN serialiser for the 8 x 8
    board, the decoder of long-algebraic UCI moves and the parse of the engine's
    `bestmove` reply. The FEN serialiser is paired with a decoder written from
    the notation's definition (section 16.1 of the PGN standard), and the UCI
    decoder with the matching encoder. */
module Uci {
  import opened ChessTypes
  import Rules
  import SeqFacts

  // ------------------------------------------------------ difficulty

  /** mapSkillLevelToDepth: the search depth asked of the engine for a skill level. */
  function SkillToDepth(skill: int): (depth: int)
    ensures 2 <= depth <= 22
  {
    if skill <= 0 then 2
    else if skill <= 4 then 4
    else if skill == 5 then 5
    else if skill <= 9 then 8
    else if skill == 10 then 10
    else if skill <= 14 then 12
    else if skill == 15 then 15
    else if skill <= 19 then 18
    else 22
  }

  /** A higher skill never asks for a shallower search. */
  lemma SkillToDepthMonotone(a: int, b: int)
    requires a <= b
    ensures SkillToDepth(a) <= SkillToDepth(b)
  {
  }

  /** The documented table: levels 5, 10 and 15 search exactly that deep, level
      0 and below searches 2 plies, level 20 and above 22 plies, and in between
      the depth stays within a few plies of the level. */
  lemma SkillTable(skill: int)
    ensures skill <= 0 ==> SkillToDepth(skill) == 2
    ensures skill == 5 || skill == 10 || skill == 15 ==> SkillToDepth(skill) == skill
    ensures skill >= 20 ==> SkillToDepth(skill) == 22
    ensures 0 < skill <= 20 ==> skill - 2 <= SkillToDepth(skill) <= skill + 3
  {
  }

  /** setSkillLevel: the level sent to the engine is clamped into 0..20. */
  function ClampSkill(level: int): (c: int)
    ensures 0 <= c <= 20
    ensures 0 <= level <= 20 ==> c == level
    ensures level < 0 ==> c == 0
    ensures level > 20 ==> c == 20
  {
    if level < 0 then 0 else if level > 20 then 20 else level
  }

  // ------------------------------------------------------------- FEN

  /** The FEN letter of a piece: lower case for Black, upper case for White. */
  function PieceChar(p: Piece): char {
    match p.kind
    case Pawn => if p.white then 'P' else 'p'
    case Rook => if p.white then 'R' else 'r'
    case Knight => if p.white then 'N' else 'n'
    case Bishop => if p.white then 'B' else 'b'
    case Queen => if p.white then 'Q' else 'q'
    case King => if p.white then 'K' else 'k'
  }

  /** The piece a FEN letter stands for. */
  function CharPiece(ch: char): Option<Piece> {
    match ch
    case 'P' => Some(Piece(Pawn, true))
    case 'p' => Some(Piece(Pawn, false))
    case 'R' => Some(Piece(Rook, true))
    case 'r' => Some(Piece(Rook, false))
    case 'N' => Some(Piece(Knight, true))
    case 'n' => Some(Piece(Knight, false))
    case 'B' => Some(Piece(Bishop, true))
    case 'b' => Some(Piece(Bishop, false))
    case 'Q' => Some(Piece(Queen, true))
    case 'q' => Some(Piece(Queen, false))
    case 'K' => Some(Piece(King, true))
    case 'k' => Some(Piece(King, false))
    case _ => None
  }

  predicate IsDigit(ch: char) { '0' <= ch <= '9' }

  function Digit(k: int): (ch: char)
    requires 0 <= k <= 9
    ensures IsDigit(ch) && ch as int - '0' as int == k
  {
    ('0' as int + k) as char
  }

  /** The digit for a run of `empty` empty squares, or nothing when there is none. */
  function EmptyRun(empty: int): string
    requires 0 <= empty <= 9
  {
    if empty > 0 then [Digit(empty)] else []
  }

  /** One rank field: scanning left to right with a counter of pending empty
      squares, a piece first flushes the counter as a digit and then adds its
      letter; the counter is flushed once more at the end of the rank. */
  function RankText(cells: seq<Cell>, empty: nat): string
    requires empty + |cells| <= 8
    decreases |cells|
  {
    if cells == [] then EmptyRun(empty)
    else if cells[0].None? then RankText(cells[1..], empty + 1)
    else EmptyRun(empty) + [PieceChar(cells[0].value)] + RankText(cells[1..], 0)
  }

  /** The ranks joined by '/'. */
  function Join(ranks: seq<string>): string
    requires |ranks| >= 1
  {
    if |ranks| == 1 then ranks[0] else ranks[0] + "/" + Join(ranks[1..])
  }

  /** Piece placement of an 8 x 8 grid: rank fields for rows 0 to 7 (rank 8
      first, as FEN wants), separated by '/'. */
  function Placement(g: Grid): string
    requires Rules.IsGrid(g, 8)
  {
    Join(RankFields(g))
  }

  function RankFields(g: Grid): (ranks: seq<string>)
    requires Rules.IsGrid(g, 8)
    ensures |ranks| == 8 && forall r :: 0 <= r < 8 ==> ranks[r] == RankText(g[r], 0)
  {
    seq(8, r requires 0 <= r < 8 => RankText(g[r], 0))
  }

  /** The fields after the placement: the side to move, no castling rights,
      no en-passant square, half-move clock 0, full-move number 1. */
  function SideFields(whiteTurn: bool): string {
    if whiteTurn then " w - - 0 1" else " b - - 0 1"
  }

  /** toFEN: refused (the source throws) unless the board is 8 x 8. */
  function ToFen(g: Grid, n: int, whiteTurn: bool): (fen: Option<string>)
    requires Rules.IsGrid(g, n)
    ensures fen.None? <==> n != 8
  {
    if n != 8 then None else Some(Placement(g) + SideFields(whiteTurn))
  }

  // ------------------------------------------------------ FEN decoding

  function Nones(k: nat): (s: seq<Cell>)
    ensures |s| == k && forall i :: 0 <= i < k ==> s[i] == None
  {
    seq(k, _ => None)
  }

  /** The squares one character of a rank field stands for: a digit 1-8 for
      that many empty squares, a piece letter for one piece. */
  function CharCells(ch: char): Option<seq<Cell>> {
    if '1' <= ch <= '8' then Some(Nones(ch as int - '0' as int))
    else match CharPiece(ch)
      case Some(p) => Some([Some(p)])
      case None => None
  }

  function Concat(a: Option<seq<Cell>>, b: Option<seq<Cell>>): Option<seq<Cell>> {
    if a.Some? && b.Some? then Some(a.value + b.value) else None
  }

  /** The squares a rank field describes, or None if it holds a stray character. */
  function Expand(s: string): Option<seq<Cell>> {
    if s == [] then Some([]) else Concat(CharCells(s[0]), Expand(s[1..]))
  }

  /** Split at every '/'; a string without '/' is one field. */
  function Split(s: string): (fields: seq<string>)
    ensures |fields| >= 1
  {
    if s == [] then [[]]
    else
      var rest := Split(s[1..]);
      if s[0] == '/' then [[]] + rest else [[s[0]] + rest[0]] + rest[1..]
  }

  function DecodeRanks(fields: seq<string>): Option<Grid> {
    if fields == [] then Some([])
    else
      var row := Expand(fields[0]);
      var rest := DecodeRanks(fields[1..]);
      if row.Some? && |row.value| == 8 && rest.Some? then Some([row.value] + rest.value) else None
  }

  /** The grid a placement field describes: eight rank fields of eight squares. */
  function DecodePlacement(s: string): Option<Grid> {
    var fields := Split(s);
    if |fields| != 8 then None else DecodeRanks(fields)
  }

  /** The grid and side to move of a FEN string of the form toFEN writes. */
  function FromFen(s: string): Option<(Grid, bool)> {
    if |s| < 10 then None
    else
      var body, tail := s[..|s| - 10], s[|s| - 10..];
      var side := if tail == SideFields(true) then Some(true) else if tail == SideFields(false) then Some(false) else None;
      var g := DecodePlacement(body);
      if side.Some? && g.Some? then Some((g.value, side.value)) else None
  }

  // ------------------------------------------------------ FEN lemmas

  lemma {:induction false} ExpandConcat(a: string, b: string)
    ensures Expand(a + b) == Concat(Expand(a), Expand(b))
    decreases |a|
  {
    if a == [] {
      assert a + b == b;
      match Expand(b)
      case None =>
      case Some(v) => assert [] + v == v;
    } else {
      assert (a + b)[0] == a[0] && (a + b)[1..] == a[1..] + b;
      ExpandConcat(a[1..], b);
      var x, y, z := CharCells(a[0]), Expand(a[1..]), Expand(b);
      if x.Some? && y.Some? && z.Some? {
        assert x.value + (y.value + z.value) == (x.value + y.value) + z.value;
      }
    }
  }

  lemma CharPieceInverse(p: Piece)
    ensures CharPiece(PieceChar(p)) == Some(p)
    ensures !('1' <= PieceChar(p) <= '8') && PieceChar(p) != '/'
  {
  }

  /** The digit for a run of empty squares stands for that many empty squares. */
  lemma ExpandRun(empty: int)
    requires 0 <= empty <= 8
    ensures Expand(EmptyRun(empty)) == Some(Nones(empty))
  {
    if empty > 0 {
      var d := Digit(empty);
      assert '1' <= d <= '8';
      assert Expand([d]) == Concat(CharCells(d), Expand([]));
      assert Nones(empty) + [] == Nones(empty);
    }
  }

  /** A piece letter stands for that one piece. */
  lemma ExpandPiece(p: Piece)
    ensures Expand([PieceChar(p)]) == Some([Some(p)])
  {
    CharPieceInverse(p);
    assert Expand([PieceChar(p)]) == Concat(CharCells(PieceChar(p)), Expand([]));
    assert [Some(p)] + [] == [Some(p)];
  }

  /** The step of RankRoundTrip past an empty square. */
  lemma RankEmptyStep(cells: seq<Cell>, empty: nat)
    requires cells != [] && cells[0].None? && empty + |cells| <= 8
    requires Expand(RankText(cells[1..], empty + 1)) == Some(Nones(empty + 1) + cells[1..])
    ensures Expand(RankText(cells, empty)) == Some(Nones(empty) + cells)
  {
    assert Nones(empty + 1) + cells[1..] == Nones(empty) + cells;
  }

  /** The step of RankRoundTrip past a piece. */
  lemma RankPieceStep(cells: seq<Cell>, empty: nat)
    requires cells != [] && cells[0].Some? && empty + |cells| <= 8
    requires Expand(RankText(cells[1..], 0)) == Some(Nones(0) + cells[1..])
    ensures Expand(RankText(cells, empty)) == Some(Nones(empty) + cells)
  {
    var p := cells[0].value;
    var a, b, rest := EmptyRun(empty), [PieceChar(p)], RankText(cells[1..], 0);
    SeqFacts.AppendEmpty(cells[1..]);
    ExpandRun(empty);
    ExpandPiece(p);
    ExpandConcat(a, b);
    ExpandConcat(a + b, rest);
    SeqFacts.ConsTail(cells);
    SeqFacts.AppendAssoc(Nones(empty), [Some(p)], cells[1..]);
  }

  /** A rank field describes exactly the pending empty squares followed by the
      cells it was written from. */
  lemma {:induction false} RankRoundTrip(cells: seq<Cell>, empty: nat)
    requires empty + |cells| <= 8
    ensures Expand(RankText(cells, empty)) == Some(Nones(empty) + cells)
    decreases |cells|
  {
    if cells == [] {
      ExpandRun(empty);
      assert Nones(empty) + cells == Nones(empty);
    } else if cells[0].None? {
      RankRoundTrip(cells[1..], empty + 1);
      RankEmptyStep(cells, empty);
    } else {
      RankRoundTrip(cells[1..], 0);
      RankPieceStep(cells, empty);
    }
  }

  /** No two digits are adjacent in a rank field: each run of empty squares is
      written as a single digit. */
  predicate NoAdjacentDigits(s: string) {
    forall i :: 0 <= i < |s| - 1 ==> !(IsDigit(s[i]) && IsDigit(s[i + 1]))
  }

  lemma {:induction false} RankRunsCollapsed(cells: seq<Cell>, empty: nat)
    requires empty + |cells| <= 8
    ensures NoAdjacentDigits(RankText(cells, empty))
    ensures '/' !in RankText(cells, empty)
    decreases |cells|
  {
    if cells == [] {
    } else if cells[0].None? {
      RankRunsCollapsed(cells[1..], empty + 1);
    } else {
      var p := cells[0].value;
      RankRunsCollapsed(cells[1..], 0);
      CharPieceInverse(p);
      var pre, rest := EmptyRun(empty) + [PieceChar(p)], RankText(cells[1..], 0);
      var s := pre + rest;
      assert !IsDigit(PieceChar(p));
      forall i | 0 <= i < |s| - 1 ensures !(IsDigit(s[i]) && IsDigit(s[i + 1])) {
        if i + 1 < |pre| {
          assert s[i + 1] == PieceChar(p);
        } else if i + 1 == |pre| {
          assert s[i] == PieceChar(p);
        } else {
          assert s[i] == rest[i - |pre|] && s[i + 1] == rest[i + 1 - |pre|];
        }
      }
    }
  }

  lemma {:induction false} SplitField(a: string, t: string)
    requires '/' !in a
    ensures Split(a + t) == [a + Split(t)[0]] + Split(t)[1..]
    decreases |a|
  {
    if a == [] {
      assert a + t == t;
      assert a + Split(t)[0] == Split(t)[0];
      assert Split(t) == [Split(t)[0]] + Split(t)[1..];
    } else {
      assert (a + t)[0] == a[0] && (a + t)[1..] == a[1..] + t;
      SplitField(a[1..], t);
      assert [a[0]] + (a[1..] + Split(t)[0]) == a + Split(t)[0];
    }
  }

  /** Splitting joined fields that contain no '/' gives the fields back. */
  lemma {:induction false} SplitJoin(ranks: seq<string>)
    requires |ranks| >= 1
    requires forall i :: 0 <= i < |ranks| ==> '/' !in ranks[i]
    ensures Split(Join(ranks)) == ranks
    decreases |ranks|
  {
    if |ranks| == 1 {
      SplitField(ranks[0], []);
      assert ranks[0] + [] == ranks[0];
    } else {
      SplitJoin(ranks[1..]);
      var j := Join(ranks[1..]);
      assert ranks[0] + "/" + j == ranks[0] + ("/" + j);
      SplitField(ranks[0], "/" + j);
      assert ("/" + j)[0] == '/' && ("/" + j)[1..] == j;
      assert Split("/" + j) == [[]] + ranks[1..];
      assert ranks[0] + [] == ranks[0];
      assert [ranks[0]] + ranks[1..] == ranks;
    }
  }

  lemma {:induction false} DecodeRanksOf(g: Grid, fields: seq<string>)
    requires |g| == |fields|
    requires forall i :: 0 <= i < |g| ==> |g[i]| == 8 && Expand(fields[i]) == Some(g[i])
    ensures DecodeRanks(fields) == Some(g)
    decreases |g|
  {
    if g != [] {
      DecodeRanksOf(g[1..], fields[1..]);
      assert [g[0]] + g[1..] == g;
    }
  }

  /** The placement of an 8 x 8 grid is eight '/'-separated rank fields, each
      describing exactly its row, with every run of empty squares written as
      a single digit; so decoding it gives the grid back. */
  lemma PlacementShape(g: Grid)
    requires Rules.IsGrid(g, 8)
    ensures var fields := Split(Placement(g));
      |fields| == 8 &&
      (forall r :: 0 <= r < 8 ==> Expand(fields[r]) == Some(g[r]) && NoAdjacentDigits(fields[r]))
    ensures DecodePlacement(Placement(g)) == Some(g)
  {
    var ranks := RankFields(g);
    forall r | 0 <= r < 8 ensures '/' !in ranks[r] && NoAdjacentDigits(ranks[r]) && Expand(ranks[r]) == Some(g[r]) {
      RankRunsCollapsed(g[r], 0);
      RankRoundTrip(g[r], 0);
      assert Nones(0) + g[r] == g[r];
    }
    SplitJoin(ranks);
    DecodeRanksOf(g, ranks);
  }

  /** FEN round trip: toFEN of an 8 x 8 board decodes to the same squares and
      the same side to move. */
  lemma FenRoundTrip(g: Grid, whiteTurn: bool)
    requires Rules.IsGrid(g, 8)
    ensures ToFen(g, 8, whiteTurn).Some?
    ensures FromFen(ToFen(g, 8, whiteTurn).value) == Some((g, whiteTurn))
  {
    var s := Placement(g) + SideFields(whiteTurn);
    PlacementShape(g);
    assert s[..|s| - 10] == Placement(g);
    assert s[|s| - 10..] == SideFields(whiteTurn);
  }

  /** A rank without empty squares is the sequence of its pieces' letters. */
  lemma {:induction false} RankTextFull(cells: seq<Cell>)
    requires |cells| <= 8 && forall i :: 0 <= i < |cells| ==> cells[i].Some?
    ensures RankText(cells, 0) == seq(|cells|, i requires 0 <= i < |cells| => PieceChar(cells[i].value))
    decreases |cells|
  {
    if cells != [] {
      RankTextFull(cells[1..]);
    }
  }

  /** A run of empty squares closing a rank is one digit. */
  lemma {:induction false} RankTextEmpty(cells: seq<Cell>, empty: nat)
    requires empty + |cells| <= 8 && forall i :: 0 <= i < |cells| ==> cells[i].None?
    ensures RankText(cells, empty) == EmptyRun(empty + |cells|)
    decreases |cells|
  {
    if cells != [] {
      RankTextEmpty(cells[1..], empty + 1);
    }
  }

  /** A rank of pieces only is written as their letters. */
  lemma PieceRank(cells: seq<Cell>, text: string)
    requires |cells| == |text| <= 8
    requires forall i :: 0 <= i < |cells| ==> cells[i].Some? && PieceChar(cells[i].value) == text[i]
    ensures RankText(cells, 0) == text
  {
    RankTextFull(cells);
  }

  const StartRanks: seq<string> := ["rnbqkbnr", "pppppppp", "8", "8", "8", "8", "PPPPPPPP", "RNBQKBNR"]

  /** After resetBoard the FEN is the standard starting position: the rank
      fields "rnbqkbnr", "pppppppp", four times "8", "PPPPPPPP" and "RNBQKBNR"
      joined by '/', White to move. */
  lemma StartFen()
    ensures ToFen(Rules.SetupGrid(1), 8, true) == Some(Join(StartRanks) + " w - - 0 1")
  {
    StartPlacement();
  }

  lemma StartPlacement()
    ensures Placement(Rules.SetupGrid(1)) == Join(StartRanks)
  {
    var g := Rules.SetupGrid(1);
    var ranks := RankFields(g);
    PieceRank(g[0], "rnbqkbnr");
    PieceRank(g[1], "pppppppp");
    PieceRank(g[6], "PPPPPPPP");
    PieceRank(g[7], "RNBQKBNR");
    RankTextEmpty(g[2], 0);
    RankTextEmpty(g[3], 0);
    RankTextEmpty(g[4], 0);
    RankTextEmpty(g[5], 0);
    assert ranks == StartRanks;
  }

  // ------------------------------------------------------------- UCI

  /** uciToMove: files 'a'.. are columns 0.., rank '1' is the bottom row 7 and
      rank '8' the top row 0; anything after the fourth character (a promotion
      letter) is ignored. Shorter text, or a square off the board, gives None. */
  function UciToMove(s: string, n: int): (m: Option<Move>)
    ensures |s| < 4 ==> m.None?
    ensures m.Some? ==> Rules.OnBoard(n, m.value.sr, m.value.sc) && Rules.OnBoard(n, m.value.tr, m.value.tc)
  {
    if |s| < 4 then None
    else
      var fromCol := s[0] as int - 'a' as int;
      var fromRow := 8 - (s[1] as int - '0' as int);
      var toCol := s[2] as int - 'a' as int;
      var toRow := 8 - (s[3] as int - '0' as int);
      if fromRow < 0 || fromRow >= n || toRow < 0 || toRow >= n ||
         fromCol < 0 || fromCol >= n || toCol < 0 || toCol >= n then None
      else Some(Move(fromRow, fromCol, toRow, toCol))
  }

  /** The long-algebraic text of a square of a board of side n (at most 32):
      file letter, then the rank character 8 - row counted from '0'. */
  function SquareText(r: int, c: int, n: int): (t: string)
    requires Rules.IsSize(n) && Rules.OnBoard(n, r, c)
    ensures |t| == 2
  {
    [('a' as int + c) as char, ('0' as int + 8 - r) as char]
  }

  function MoveToUci(m: Move, n: int): (t: string)
    requires Rules.IsSize(n) && Rules.OnBoard(n, m.sr, m.sc) && Rules.OnBoard(n, m.tr, m.tc)
    ensures |t| == 4
  {
    SquareText(m.sr, m.sc, n) + SquareText(m.tr, m.tc, n)
  }

  /** Encoding an on-board move and decoding it gives the move back, whatever
      follows the four characters. */
  lemma UciRoundTrip(m: Move, n: int, suffix: string)
    requires Rules.IsSize(n) && Rules.OnBoard(n, m.sr, m.sc) && Rules.OnBoard(n, m.tr, m.tc)
    ensures UciToMove(MoveToUci(m, n) + suffix, n) == Some(m)
  {
    var t := MoveToUci(m, n) + suffix;
    assert t[0] as int == 'a' as int + m.sc && t[1] as int == '0' as int + 8 - m.sr;
    assert t[2] as int == 'a' as int + m.tc && t[3] as int == '0' as int + 8 - m.tr;
  }

  /** Conversely a decoded move encodes to the first four characters. */
  lemma UciDecodeEncode(s: string, n: int)
    requires Rules.IsSize(n) && UciToMove(s, n).Some?
    ensures MoveToUci(UciToMove(s, n).value, n) == s[..4]
  {
    var m := UciToMove(s, n).value;
    var t := MoveToUci(m, n);
    assert t[0] == s[0] && t[1] == s[1] && t[2] == s[2] && t[3] == s[3];
  }

  /** On the 8 x 8 board the squares are exactly the files a-h and ranks 1-8. */
  lemma UciSquaresOnClassicBoard(s: string)
    requires |s| >= 4
    ensures UciToMove(s, 8).Some? <==>
      'a' <= s[0] <= 'h' && '1' <= s[1] <= '8' && 'a' <= s[2] <= 'h' && '1' <= s[3] <= '8'
  {
  }

  // ------------------------------------------------------ bestmove

  /** The characters Java's regular expression class \s matches. */
  predicate IsSpace(ch: char) {
    ch == ' ' || ch == '\t' || ch == '\n' || ch == '\U{B}' || ch == '\U{C}' || ch == '\r'
  }

  function SkipWord(s: string): (t: string)
    ensures |t| <= |s| && t == s[|s| - |t|..]
    ensures t == [] || IsSpace(t[0])
    ensures forall i :: 0 <= i < |s| - |t| ==> !IsSpace(s[i])
  {
    if s == [] || IsSpace(s[0]) then s else SkipWord(s[1..])
  }

  function SkipSpace(s: string): (t: string)
    ensures |t| <= |s| && t == s[|s| - |t|..]
    ensures t == [] || !IsSpace(t[0])
    ensures forall i :: 0 <= i < |s| - |t| ==> IsSpace(s[i])
  {
    if s == [] || !IsSpace(s[0]) then s else SkipSpace(s[1..])
  }

  function Word(s: string): (w: string)
    ensures |w| <= |s| && w == s[..|w|]
    ensures forall i :: 0 <= i < |w| ==> !IsSpace(w[i])
    ensures |w| == |s| || IsSpace(s[|w|])
  {
    if s == [] || IsSpace(s[0]) then [] else [s[0]] + Word(s[1..])
  }

  /** The second whitespace-separated token of a reply line that starts with
      "bestmove" (parts[1] of the split); None when there is none or it is
      "0000", the engine's null move. */
  function BestMoveToken(line: string): (tok: Option<string>)
    ensures tok.Some? ==> tok.value != [] && tok.value != "0000"
    ensures tok.Some? ==> forall i :: 0 <= i < |tok.value| ==> !IsSpace(tok.value[i])
  {
    var rest := SkipSpace(SkipWord(line));
    if rest == [] then None
    else
      var w := Word(rest);
      if w == "0000" then None else Some(w)
  }

  /** The keyword of the reply line holds no whitespace. */
  lemma KeywordIsWord()
    ensures forall i :: 0 <= i < |"bestmove"| ==> !IsSpace("bestmove"[i])
  {
  }

  /** A reply "bestmove <t> ..." yields the token t. */
  lemma BestMoveTokenOf(t: string, sep: string, tail: string)
    requires t != [] && t != "0000" && forall i :: 0 <= i < |t| ==> !IsSpace(t[i])
    requires sep != [] && forall i :: 0 <= i < |sep| ==> IsSpace(sep[i])
    requires tail == [] || IsSpace(tail[0])
    ensures BestMoveToken("bestmove" + (sep + (t + tail))) == Some(t)
  {
    KeywordIsWord();
    SkipWordPrefix("bestmove", sep + (t + tail));
    SkipSpacePrefix(sep, t + tail);
    WordPrefix(t, tail);
  }

  lemma {:induction false} SkipWordPrefix(w: string, rest: string)
    requires forall i :: 0 <= i < |w| ==> !IsSpace(w[i])
    requires rest != [] && IsSpace(rest[0])
    ensures SkipWord(w + rest) == rest
    decreases |w|
  {
    if w == [] {
      assert w + rest == rest;
    } else {
      assert (w + rest)[1..] == w[1..] + rest;
      SkipWordPrefix(w[1..], rest);
    }
  }

  lemma {:induction false} SkipSpacePrefix(sp: string, rest: string)
    requires forall i :: 0 <= i < |sp| ==> IsSpace(sp[i])
    requires rest != [] && !IsSpace(rest[0])
    ensures SkipSpace(sp + rest) == rest
    decreases |sp|
  {
    if sp == [] {
      assert sp + rest == rest;
    } else {
      assert (sp + rest)[1..] == sp[1..] + rest;
      SkipSpacePrefix(sp[1..], rest);
    }
  }

  lemma {:induction false} WordPrefix(w: string, tail: string)
    requires forall i :: 0 <= i < |w| ==> !IsSpace(w[i])
    requires tail == [] || IsSpace(tail[0])
    ensures Word(w + tail) == w
    decreases |w|
  {
    if w == [] {
      assert w + tail == tail;
    } else {
      assert (w + tail)[0] == w[0] && (w + tail)[1..] == w[1..] + tail;
      WordPrefix(w[1..], tail);
      assert [w[0]] + w[1..] == w;
    }
  }

  predicate StartsWith(s: string, prefix: string) {
    |prefix| <= |s| && s[..|prefix|] == prefix
  }

  /** The outcome of one engine query. */
  datatype EngineReply =
    | BestMove(move: Move)
    | NotClassicBoard      // only 8 x 8 positions are sent to the engine
    | NoBestMoveLine       // the reply ended without a bestmove line
    | NoLegalMove          // bestmove without a move, or the null move 0000
    | Unconvertible(text: string)  // uciToMove refused the move text

  /** The first reply line starting with "bestmove", if any. */
  function FindBestMoveLine(lines: seq<string>): (line: Option<string>)
    ensures line.Some? ==> line.value in lines && StartsWith(line.value, "bestmove")
    ensures line.None? ==> forall i :: 0 <= i < |lines| ==> !StartsWith(lines[i], "bestmove")
  {
    if lines == [] then None
    else if StartsWith(lines[0], "bestmove") then Some(lines[0])
    else FindBestMoveLine(lines[1..])
  }

  /** The result path of requestBestMoveAsync, given the engine's reply lines. */
  function EngineMove(n: int, lines: seq<string>): (reply: EngineReply)
    ensures reply.BestMove? ==> Rules.OnBoard(n, reply.move.sr, reply.move.sc) && Rules.OnBoard(n, reply.move.tr, reply.move.tc)
    ensures n != 8 ==> reply == NotClassicBoard
  {
    if n != 8 then NotClassicBoard
    else match FindBestMoveLine(lines)
      case None => NoBestMoveLine
      case Some(line) =>
        match BestMoveToken(line)
        case None => NoLegalMove
        case Some(tok) =>
          match UciToMove(tok, n)
          case None => Unconvertible(tok)
          case Some(m) => BestMove(m)
  }

  /** The UCI text of an on-board move is one token and never the null move. */
  lemma MoveTextIsToken(m: Move)
    requires Rules.OnBoard(8, m.sr, m.sc) && Rules.OnBoard(8, m.tr, m.tc)
    ensures var t := MoveToUci(m, 8);
      t != "0000" && forall i :: 0 <= i < |t| ==> !IsSpace(t[i])
  {
    var t := MoveToUci(m, 8);
    assert t[0] as int >= 'a' as int && t[2] as int >= 'a' as int;
    assert t[1] as int >= '1' as int && t[3] as int >= '1' as int;
    assert t[0] != '0';
  }

  /** The reply line of an engine that chose the move text t. */
  function ReplyLine(t: string): string {
    "bestmove" + (" " + t)
  }

  /** The reply line naming an on-board move carries that move's text as its token. */
  lemma BestMoveLineOf(m: Move)
    requires Rules.OnBoard(8, m.sr, m.sc) && Rules.OnBoard(8, m.tr, m.tc)
    ensures StartsWith(ReplyLine(MoveToUci(m, 8)), "bestmove")
    ensures BestMoveToken(ReplyLine(MoveToUci(m, 8))) == Some(MoveToUci(m, 8))
  {
    var t := MoveToUci(m, 8);
    assert ReplyLine(t)[..8] == "bestmove";
    MoveTextIsToken(m);
    BestMoveTokenOf(t, " ", []);
    assert t + [] == t;
  }

  /** An engine that answers "bestmove" with the text of an on-board move
      yields that move. */
  lemma EngineMoveOf(m: Move, before: seq<string>)
    requires Rules.OnBoard(8, m.sr, m.sc) && Rules.OnBoard(8, m.tr, m.tc)
    requires forall i :: 0 <= i < |before| ==> !StartsWith(before[i], "bestmove")
    ensures EngineMove(8, before + [ReplyLine(MoveToUci(m, 8))]) == BestMove(m)
  {
    var t := MoveToUci(m, 8);
    BestMoveLineOf(m);
    FirstLineAfter(before, ReplyLine(t));
    UciRoundTrip(m, 8, []);
    assert t + [] == t;
  }

  lemma {:induction false} FirstLineAfter(before: seq<string>, line: string)
    requires StartsWith(line, "bestmove")
    requires forall i :: 0 <= i < |before| ==> !StartsWith(before[i], "bestmove")
    ensures FindBestMoveLine(before + [line]) == Some(line)
    decreases |before|
  {
    if before == [] {
      assert before + [line] == [line];
    } else {
      assert (before + [line])[1..] == before[1..] + [line];
      FirstLineAfter(before[1..], line);
    }
  }
}
