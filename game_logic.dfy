/** The board engine (the source's GameLogic): an N x N array of optional
    pieces, the side to move and the undo stack, updated in place. Every method
    is proved against the value-level definitions of module Rules through the
    ghost field `cells`, which Valid() ties to the array. */
module Logic {
  import opened ChessTypes
  import Rules

  class GameLogic {
    var board: array2<Cell>
    var size: int
    var whiteTurn: bool
    var history: seq<MoveRecord>

    /** The abstract grid; Valid() says it mirrors `board` square by square. */
    ghost var cells: Grid

    ghost predicate Valid()
      reads this, board
      ensures Valid() ==> Rules.ValidPos(Pos())
    {
      Rules.IsSize(size) && board.Length0 == size && board.Length1 == size &&
      Rules.IsGrid(cells, size) &&
      (forall r, c :: 0 <= r < size && 0 <= c < size ==> board[r, c] == cells[r][c]) &&
      (forall i :: 0 <= i < |history| ==> Rules.RecordOnBoard(history[i], size))
    }

    /** The state as a value. */
    ghost function Pos(): Rules.Position
      reads this
    {
      Rules.Position(cells, size, whiteTurn, history)
    }

    /** A new engine starts on the classic opening position. */
    constructor ()
      ensures Valid() && Pos() == Rules.Start(1)
    {
      board := new Cell[8, 8]((r, c) => None);
      size := 8;
      whiteTurn := true;
      history := [];
      cells := Rules.SetupGrid(1);
      new;
      ResetBoard();
    }

    /** resetBoard: the classic 8 x 8 opening position, White to move, empty stack. */
    method ResetBoard()
      modifies this
      ensures Valid() && fresh(board) && Pos() == Rules.Start(1)
    {
      size := 8;
      var b := new Cell[8, 8]((r, c) => None);
      history := [];
      PlaceBackRank(b, 1, 0, false);
      FillPawnRows(b, 1, 1, 2, false, false);
      PlaceBackRank(b, 1, 7, true);
      FillPawnRows(b, 1, 6, 7, true, false);
      SetupMatches(b, 1, 8, 7);
      board := b;
      cells := Rules.SetupGrid(1);
      whiteTurn := true;
    }

    /** resetAmusementBoard: the enlarged opening position of side 8 * m. */
    method ResetAmusementBoard(m: int)
      requires m == 2 || m == 4
      modifies this
      ensures Valid() && fresh(board) && Pos() == Rules.Start(m)
    {
      var n := 8 * m;
      size := n;
      var b := new Cell[n, n]((r, c) => None);
      history := [];
      PlaceBackRank(b, m, 0, false);
      FillPawnRows(b, m, 1, m + 1, false, false);
      PlaceBackRank(b, m, n - 1, true);
      FillPawnRows(b, m, n - 1 - m, n - 1, true, true);
      SetupMatches(b, m, n, n - 1);
      board := b;
      cells := Rules.SetupGrid(m);
      whiteTurn := true;
    }

    /** After the four placement steps the array holds the starting layout. */
    static lemma SetupMatches(b: array2<Cell>, m: int, n: int, last: int)
      requires m >= 1 && n == 8 * m && last == n - 1 && b.Length0 == n && b.Length1 == n
      requires forall j :: 0 <= j < n ==> b[0, j] == Rules.SetupCell(m, 0, j)
      requires forall j :: 0 <= j < n ==> b[last, j] == Rules.SetupCell(m, last, j)
      requires forall i, j :: 1 <= i < m + 1 && 0 <= j < n ==> b[i, j] == Some(Piece(Pawn, false))
      requires forall i, j :: n - 1 - m <= i < n - 1 && 0 <= j < n ==> b[i, j] == Some(Piece(Pawn, true))
      requires forall i, j :: m + 1 <= i < n - 1 - m && 0 <= j < n ==> b[i, j] == None
      ensures forall i, j :: 0 <= i < n && 0 <= j < n ==> b[i, j] == Rules.SetupGrid(m)[i][j]
    {
      forall i, j | 0 <= i < n && 0 <= j < n
        ensures b[i, j] == Rules.SetupCell(m, i, j)
      {
        if i == 0 {
        } else if i == n - 1 {
        } else if i < m + 1 {
          assert b[i, j] == Some(Piece(Pawn, false));
        } else if i >= n - 1 - m {
          assert b[i, j] == Some(Piece(Pawn, true));
        } else {
          assert b[i, j] == None;
        }
      }
    }

    /** The eight back-rank assignments of one colour on row `row`. */
    static method PlaceBackRank(b: array2<Cell>, m: int, row: int, white: bool)
      requires m >= 1 && b.Length0 == 8 * m && b.Length1 == 8 * m && (row == 0 || row == 8 * m - 1)
      requires white == (row == 8 * m - 1)
      requires forall j :: 0 <= j < 8 * m ==> b[row, j] == None
      modifies b
      ensures forall j :: 0 <= j < 8 * m ==> b[row, j] == Rules.SetupCell(m, row, j)
      ensures forall i, j :: 0 <= i < 8 * m && 0 <= j < 8 * m && i != row ==> b[i, j] == old(b[i, j])
    {
      var n := 8 * m;
      b[row, 0] := Some(Piece(Rook, white));
      b[row, n - 1] := Some(Piece(Rook, white));
      b[row, m] := Some(Piece(Knight, white));
      b[row, n - 1 - m] := Some(Piece(Knight, white));
      b[row, 2 * m] := Some(Piece(Bishop, white));
      b[row, n - 1 - 2 * m] := Some(Piece(Bishop, white));
      b[row, 3 * m] := Some(Piece(Queen, white));
      b[row, 4 * m] := Some(Piece(King, white));
    }

    /** Pawns of one colour on every column of rows from..to-1; with
        `onlyEmpty` a square already holding a piece is left alone. */
    static method FillPawnRows(b: array2<Cell>, m: int, from: int, to: int, white: bool, onlyEmpty: bool)
      requires m >= 1 && b.Length0 == 8 * m && b.Length1 == 8 * m && 0 <= from <= to <= 8 * m
      requires onlyEmpty ==> forall i, j :: from <= i < to && 0 <= j < 8 * m ==> b[i, j] == None
      modifies b
      ensures forall i, j :: from <= i < to && 0 <= j < 8 * m ==> b[i, j] == Some(Piece(Pawn, white))
      ensures forall i, j :: 0 <= i < 8 * m && 0 <= j < 8 * m && !(from <= i < to) ==> b[i, j] == old(b[i, j])
    {
      var n := 8 * m;
      var row := from;
      while row < to
        invariant from <= row <= to
        invariant forall i, j :: from <= i < row && 0 <= j < n ==> b[i, j] == Some(Piece(Pawn, white))
        invariant forall i, j :: 0 <= i < n && 0 <= j < n && !(from <= i < row) ==> b[i, j] == old(b[i, j])
      {
        var col := 0;
        while col < n
          invariant 0 <= col <= n
          invariant forall j :: 0 <= j < col ==> b[row, j] == Some(Piece(Pawn, white))
          invariant forall i, j :: from <= i < row && 0 <= j < n ==> b[i, j] == Some(Piece(Pawn, white))
          invariant forall i, j :: 0 <= i < n && 0 <= j < n && !(from <= i < row) && !(i == row && j < col) ==> b[i, j] == old(b[i, j])
        {
          if !onlyEmpty || b[row, col].None? {
            b[row, col] := Some(Piece(Pawn, white));
          }
          col := col + 1;
        }
        row := row + 1;
      }
    }

    function GetBoardSize(): (n: int)
      reads this, board
      requires Valid()
      ensures Rules.IsSize(n)
    {
      size
    }

    /** getPiece: bounds-checked; off the board it reports an empty square. */
    method GetPiece(r: int, c: int) returns (x: Cell)
      requires Valid()
      ensures x == Rules.PieceAt(cells, size, r, c)
    {
      if r < 0 || r >= size || c < 0 || c >= size {
        return None;
      }
      x := board[r, c];
    }

    /** movePiece: no legality check; pushes the record, moves, passes the turn. */
    method MovePiece(sr: int, sc: int, tr: int, tc: int) returns (captured: Cell)
      requires Valid() && Rules.CanMove(Pos(), Move(sr, sc, tr, tc))
      modifies this, board
      ensures Valid() && board == old(board)
      ensures Pos() == Rules.MovePiece(old(Pos()), Move(sr, sc, tr, tc))
      ensures captured == old(cells[tr][tc])
    {
      var p := board[sr, sc];
      captured := board[tr, tc];
      history := history + [MoveRecord(sr, sc, tr, tc, p.value, captured)];
      board[tr, tc] := p;
      board[sr, sc] := None;
      cells := Rules.ApplyGrid(cells, size, Move(sr, sc, tr, tc));
      whiteTurn := !whiteTurn;
    }

    /** undoLastMove: pops the top record and restores its two squares, with the
        mover as it was before the move; no effect on an empty stack. */
    method UndoLastMove()
      requires Valid()
      modifies this, board
      ensures Valid() && board == old(board)
      ensures Pos() == Rules.UndoLast(old(Pos()))
    {
      if |history| > 0 {
        var rec := history[|history| - 1];
        history := history[..|history| - 1];
        board[rec.sr, rec.sc] := Some(rec.moved);
        board[rec.tr, rec.tc] := rec.captured;
        cells := Rules.Set(Rules.Set(cells, size, rec.sr, rec.sc, Some(rec.moved)), size, rec.tr, rec.tc, rec.captured);
        whiteTurn := !whiteTurn;
      }
    }

    predicate CanUndo()
      reads this
    {
      |history| > 0
    }

    /** undoMove: the variant AI's probe undo; the stack is not popped. */
    method UndoMove(sr: int, sc: int, tr: int, tc: int, captured: Cell)
      requires Valid() && Rules.OnBoard(size, sr, sc) && Rules.OnBoard(size, tr, tc)
      modifies this, board
      ensures Valid() && board == old(board)
      ensures Pos() == Rules.UndoMove(old(Pos()), Move(sr, sc, tr, tc), captured)
    {
      var p := board[tr, tc];
      board[sr, sc] := p;
      board[tr, tc] := captured;
      cells := Rules.Set(Rules.Set(cells, size, sr, sc, p), size, tr, tc, captured);
      whiteTurn := !whiteTurn;
    }

    /** promotePiece: an occupied square takes the new kind. */
    method PromotePiece(r: int, c: int, k: Kind)
      requires Valid() && Rules.OnBoard(size, r, c)
      modifies this, board
      ensures Valid() && board == old(board)
      ensures Pos() == Rules.Promote(old(Pos()), r, c, k)
    {
      var x := board[r, c];
      if x.Some? {
        board[r, c] := Some(Piece(k, x.value.white));
        cells := Rules.Set(cells, size, r, c, Some(Piece(k, x.value.white)));
      }
    }

    /** isInCheck: find the first king of the colour in row-major order, then
        look for an opposing piece that lists its square. */
    method IsInCheck(white: bool) returns (check: bool)
      requires Valid()
      ensures check <==> Rules.InCheck(cells, size, white)
      ensures (forall r, c :: Rules.OnBoard(size, r, c) ==> !Rules.IsKingOf(cells[r][c], white)) ==> !check
    {
      var kingR, kingC := FindKing(white);
      if kingR == -1 {
        return false;
      }
      Rules.FirstKingUnique(cells, size, white, kingR, kingC);
      check := IsAttackedBy(!white, kingR, kingC);
    }

    /** The king search of isInCheck: the first king of the colour in row-major
        order, or (-1, -1) when there is none. */
    method FindKing(white: bool) returns (kingR: int, kingC: int)
      requires Valid()
      ensures kingR == -1 ==> forall i, j :: Rules.OnBoard(size, i, j) ==> !Rules.IsKingOf(cells[i][j], white)
      ensures kingR != -1 ==> Rules.IsFirstKing(cells, size, white, kingR, kingC)
    {
      kingR, kingC := -1, -1;
      var r := 0;
      while r < size && kingR == -1
        invariant 0 <= r <= size
        decreases size - r, if kingR == -1 then 1 else 0
        invariant kingR == -1 ==> forall i, j :: 0 <= i < r && 0 <= j < size ==> !Rules.IsKingOf(cells[i][j], white)
        invariant kingR != -1 ==> Rules.IsFirstKing(cells, size, white, kingR, kingC)
      {
        var c := 0;
        while c < size && kingR == -1
          invariant 0 <= c <= size
          decreases size - c, if kingR == -1 then 1 else 0
          invariant kingR == -1 ==> forall j :: 0 <= j < c ==> !Rules.IsKingOf(cells[r][j], white)
          invariant kingR != -1 ==> Rules.IsFirstKing(cells, size, white, kingR, kingC)
        {
          var p := board[r, c];
          if p.Some? && p.value.kind == King && p.value.white == white {
            kingR, kingC := r, c;
          } else {
            c := c + 1;
          }
        }
        if kingR == -1 {
          r := r + 1;
        }
      }
    }

    /** The attack scan of isInCheck: does a piece of colour `byWhite` list (kr, kc)? */
    method IsAttackedBy(byWhite: bool, kr: int, kc: int) returns (attacked: bool)
      requires Valid()
      ensures attacked <==> Rules.Attacked(cells, size, byWhite, kr, kc)
    {
      var r := 0;
      while r < size
        invariant 0 <= r <= size
        invariant !Rules.AnyRowHit(cells, size, byWhite, kr, kc, r)
      {
        var found, col := RowAttacker(byWhite, kr, kc, r);
        if found {
          Rules.AttackWitness(cells, size, byWhite, kr, kc, r, col);
          return true;
        }
        r := r + 1;
      }
      Rules.NoRowHitNoAttack(cells, size, byWhite, kr, kc);
      return false;
    }

    /** One row of the attack scan: a column whose piece of colour `byWhite`
        lists (kr, kc), scanning left to right and stopping at the first. */
    method RowAttacker(byWhite: bool, kr: int, kc: int, r: int) returns (found: bool, col: int)
      requires Valid() && 0 <= r < size
      ensures found ==> (0 <= col < size && cells[r][col].Some? && cells[r][col].value.white == byWhite &&
        Square(kr, kc) in Rules.ValidMoves(cells, size, r, col))
      ensures !found ==> !Rules.AnyBelow(Rules.RowHits(cells, size, byWhite, r, kr, kc), size)
    {
      col := 0;
      while col < size
        invariant 0 <= col <= size
        invariant !Rules.AnyBelow(Rules.RowHits(cells, size, byWhite, r, kr, kc), col)
      {
        var p := board[r, col];
        if p.Some? && p.value.white == byWhite {
          var moves := GetValidMoves(r, col);
          found := Lists(moves, kr, kc);
          if found {
            return;
          }
        }
        col := col + 1;
      }
      found := false;
    }

    /** The innermost loop of the attack scan: is (kr, kc) among the moves? */
    static method Lists(moves: seq<Square>, kr: int, kc: int) returns (hit: bool)
      ensures hit <==> Square(kr, kc) in moves
    {
      var k := 0;
      while k < |moves|
        invariant 0 <= k <= |moves|
        invariant Square(kr, kc) !in moves[..k]
      {
        if moves[k].row == kr && moves[k].col == kc {
          assert moves[k] == Square(kr, kc);
          return true;
        }
        k := k + 1;
      }
      assert moves[..k] == moves;
      return false;
    }

    /** getValidMoves for the piece on (r, c); an empty square has none. */
    method GetValidMoves(r: int, c: int) returns (moves: seq<Square>)
      requires Valid() && Rules.OnBoard(size, r, c)
      ensures moves == Rules.ValidMoves(cells, size, r, c)
    {
      moves := [];
      var x := board[r, c];
      if x.None? {
        return;
      }
      var p := x.value;
      match p.kind {
        case Pawn => moves := PawnMovesOf(p, r, c);
        case Rook => moves := AddAllLines(p, r, c, Rules.RookDirs);
        case Bishop => moves := AddAllLines(p, r, c, Rules.BishopDirs);
        case Queen => moves := AddAllLines(p, r, c, Rules.QueenDirs);
        case Knight => moves := CheckMoves(p, r, c, Rules.KnightJumps);
        case King => moves := CheckMoves(p, r, c, Rules.KingSteps);
      }
    }

    /** The pawn case of getValidMoves. */
    method PawnMovesOf(p: Piece, r: int, c: int) returns (moves: seq<Square>)
      requires Valid() && p.kind == Pawn
      ensures moves == Rules.PawnMoves(cells, size, p.white, r, c)
    {
      var dir := if p.white then -1 else 1;
      moves := PawnAdvanceOf(p, r, c);
      moves := CheckCapture(moves, p, r + dir, c - 1);
      moves := CheckCapture(moves, p, r + dir, c + 1);
    }

    /** The forward part of the pawn case: one step onto an empty square, and
        a second from the pawn's start row when that square is empty too. */
    method PawnAdvanceOf(p: Piece, r: int, c: int) returns (moves: seq<Square>)
      requires Valid()
      ensures moves == Rules.PawnAdvance(cells, size, p.white, r, c)
    {
      moves := [];
      var dir := if p.white then -1 else 1;
      var pawnRows := size / 8;
      var startRow := if p.white then size - 1 - pawnRows else pawnRows;
      assert dir == Rules.Dir(p.white) && startRow == Rules.PawnStartRow(size, p.white);
      var ahead := GetPiece(r + dir, c);
      if ahead.None? {
        moves := moves + [Square(r + dir, c)];
        if r == startRow {
          var ahead2 := GetPiece(r + 2 * dir, c);
          if ahead2.None? {
            moves := moves + [Square(r + 2 * dir, c)];
          }
        }
      }
    }

    /** addLines for each direction in turn. */
    method AddAllLines(p: Piece, r: int, c: int, dirs: seq<(int, int)>) returns (moves: seq<Square>)
      requires Valid() && Rules.AllDirs(dirs)
      ensures moves == Rules.Slides(cells, size, p.white, r, c, dirs)
    {
      moves := [];
      var i := 0;
      while i < |dirs|
        invariant 0 <= i <= |dirs|
        invariant moves == Rules.Slides(cells, size, p.white, r, c, dirs[..i])
      {
        assert dirs[..i + 1][..i] == dirs[..i];
        moves := AddLines(moves, p, r, c, dirs[i].0, dirs[i].1);
        i := i + 1;
      }
      assert dirs[..i] == dirs;
    }

    /** addLines: walk from (r, c) along (dr, dc) while on the board, listing
        empty squares and stopping at the first piece, listed if it is an enemy. */
    method AddLines(moves: seq<Square>, p: Piece, r: int, c: int, dr: int, dc: int) returns (res: seq<Square>)
      requires Valid() && Rules.IsDir(dr, dc)
      ensures res == moves + Rules.Ray(cells, size, p.white, r + dr, c + dc, dr, dc)
    {
      res := moves;
      var nr, nc := r + dr, c + dc;
      while 0 <= nr < size && 0 <= nc < size
        invariant res + Rules.Ray(cells, size, p.white, nr, nc, dr, dc) == moves + Rules.Ray(cells, size, p.white, r + dr, c + dc, dr, dc)
        decreases Rules.RayMeasure(size, nr, nc, dr, dc)
      {
        var t := board[nr, nc];
        if t.None? {
          Rules.RayEmptyStep(cells, size, p.white, nr, nc, dr, dc);
          AppendOne(res, Square(nr, nc), Rules.Ray(cells, size, p.white, nr + dr, nc + dc, dr, dc));
          res := res + [Square(nr, nc)];
        } else {
          Rules.RayOccupiedStep(cells, size, p.white, nr, nc, dr, dc);
          if t.value.white != p.white {
            res := res + [Square(nr, nc)];
          } else {
            assert res + [] == res;
          }
          return;
        }
        nr, nc := nr + dr, nc + dc;
      }
      assert res + [] == res;
    }

    /** checkMove for each offset in turn (the knight's jump table, or the
        king's eight neighbours in the order of its nested loops). */
    method CheckMoves(p: Piece, r: int, c: int, offs: seq<(int, int)>) returns (moves: seq<Square>)
      requires Valid()
      ensures moves == Rules.Jumps(cells, size, p.white, r, c, offs)
    {
      moves := [];
      var i := 0;
      while i < |offs|
        invariant 0 <= i <= |offs|
        invariant moves == Rules.Jumps(cells, size, p.white, r, c, offs[..i])
      {
        assert offs[..i + 1][..i] == offs[..i];
        var tr, tc := r + offs[i].0, c + offs[i].1;
        if 0 <= tr < size && 0 <= tc < size {
          var t := board[tr, tc];
          if t.None? || t.value.white != p.white {
            moves := moves + [Square(tr, tc)];
          }
        }
        i := i + 1;
      }
      assert offs[..i] == offs;
    }

    /** checkCapture: add (r, c) when it is on the board and holds an enemy. */
    method CheckCapture(moves: seq<Square>, p: Piece, r: int, c: int) returns (res: seq<Square>)
      requires Valid()
      ensures res == moves + Rules.Capture(cells, size, p.white, r, c)
    {
      res := moves;
      if 0 <= r < size && 0 <= c < size {
        var t := board[r, c];
        if t.Some? && t.value.white != p.white {
          res := res + [Square(r, c)];
        }
      }
    }
  }

  /** Appending one element and then a tail is appending the element's
      sequence with the tail. */
  lemma AppendOne<T>(a: seq<T>, x: T, rest: seq<T>)
    ensures a + [x] + rest == a + ([x] + rest)
  {
  }
}
