/** The simplified algebraic notation the game log records for every move
    (GameScreen.toPGNNotation): the piece letter (none for a pawn), an `x` for
    a capture, the file letter and the rank number. The writer is paired with
    a reader that takes the text apart from its right end. */
module Pgn {
  import opened ChessTypes

  /** The piece letter of the notation; a pawn has none. */
  function KindLetter(k: Kind): string {
    match k
    case King => "K"
    case Queen => "Q"
    case Rook => "R"
    case Bishop => "B"
    case Knight => "N"
    case Pawn => ""
  }

  /** The kind a piece letter stands for. */
  function LetterKind(ch: char): Option<Kind> {
    if ch == 'K' then Some(King)
    else if ch == 'Q' then Some(Queen)
    else if ch == 'R' then Some(Rook)
    else if ch == 'B' then Some(Bishop)
    else if ch == 'N' then Some(Knight)
    else None
  }

  predicate IsDigit(ch: char) { '0' <= ch <= '9' }

  predicate AllDigits(s: string) { forall i :: 0 <= i < |s| ==> IsDigit(s[i]) }

  function DigitChar(d: int): char
    requires 0 <= d < 10
  {
    ('0' as int + d) as char
  }

  /** The decimal digits of a natural number, most significant first. */
  function NatText(v: nat): (s: string)
    ensures |s| >= 1 && AllDigits(s)
  {
    if v < 10 then [DigitChar(v)] else NatText(v / 10) + [DigitChar(v % 10)]
  }

  /** The number a digit string denotes. */
  function DigitsValue(s: string): nat
    requires AllDigits(s)
  {
    if s == [] then 0 else 10 * DigitsValue(s[..|s| - 1]) + (s[|s| - 1] as int - '0' as int)
  }

  /** Reading back the digits of a number gives the number. */
  lemma {:induction false} NatTextRoundTrip(v: nat)
    ensures DigitsValue(NatText(v)) == v
  {
    if v >= 10 {
      var s := NatText(v);
      assert s[..|s| - 1] == NatText(v / 10);
      NatTextRoundTrip(v / 10);
    }
  }

  /** An int appended to a Java string: a minus sign for a negative value,
      then the digits of its magnitude. */
  function IntText(i: int): (s: string)
    ensures |s| >= 1
  {
    if i < 0 then "-" + NatText(-i) else NatText(i)
  }

  /** toPGNNotation: piece letter, `x` when something was captured, the file
      letter (`a` plus the column) and the rank (8 minus the row). On the
      larger boards the file runs past `h` and the rank can be zero, negative
      or have two digits. Boards have at most 32 files. */
  function Notation(tr: int, tc: int, p: Piece, captured: Cell): string
    requires 0 <= tc < 32
  {
    KindLetter(p.kind) + (if captured.Some? then "x" else "") + [('a' as int + tc) as char] + IntText(8 - tr)
  }

  /** What a notation string says: the piece letter's kind (None for a pawn),
      whether it is a capture, the target column and the rank number. */
  datatype Parts = Parts(kind: Option<Kind>, capture: bool, col: int, rank: int)

  /** The number of digits at the end of s. */
  function TrailingDigits(s: string): (d: nat)
    ensures d <= |s| && AllDigits(s[|s| - d..])
  {
    if s == [] || !IsDigit(s[|s| - 1]) then 0
    else
      var d := TrailingDigits(s[..|s| - 1]);
      assert s[|s| - (d + 1)..] == s[..|s| - 1][|s| - 1 - d..] + [s[|s| - 1]];
      d + 1
  }

  /** The text in front of the file letter: an optional piece letter, then an
      optional `x`. */
  function ParseHead(h: string): Option<(Option<Kind>, bool)> {
    if h == [] then Some((None, false))
    else if h == "x" then Some((None, true))
    else if |h| == 1 && LetterKind(h[0]).Some? then Some((LetterKind(h[0]), false))
    else if |h| == 2 && LetterKind(h[0]).Some? && h[1] == 'x' then Some((LetterKind(h[0]), true))
    else None
  }

  /** Reads a notation string from its right end: the rank digits, an optional
      minus sign, the file letter, and in front of it the head. */
  function Parse(s: string): Option<Parts> {
    var d := TrailingDigits(s);
    if d == 0 then None else ParseSign(s[..|s| - d], DigitsValue(s[|s| - d..]))
  }

  /** The text left of the rank digits, whose value is v: an optional minus sign. */
  function ParseSign(body: string, v: nat): Option<Parts> {
    if |body| > 0 && body[|body| - 1] == '-' then ParseFile(body[..|body| - 1], -(v as int))
    else ParseFile(body, v)
  }

  /** The text left of the rank: the file letter, and the head in front of it. */
  function ParseFile(front: string, rank: int): Option<Parts> {
    if front == [] then None
    else
      match ParseHead(front[..|front| - 1])
      case None => None
      case Some(head) => Some(Parts(head.0, head.1, front[|front| - 1] as int - 'a' as int, rank))
  }

  /** Digits appended to a text that does not end in a digit are exactly its
      trailing digits. */
  lemma {:induction false} TrailingDigitsAppend(a: string, ds: string)
    requires AllDigits(ds) && (a == [] || !IsDigit(a[|a| - 1]))
    ensures TrailingDigits(a + ds) == |ds|
  {
    if ds != [] {
      assert (a + ds)[..|a + ds| - 1] == a + ds[..|ds| - 1];
      TrailingDigitsAppend(a, ds[..|ds| - 1]);
    } else {
      assert a + ds == a;
    }
  }

  /** Parse splits off exactly the appended digits. */
  lemma ParseDigits(b: string, ds: string)
    requires |ds| >= 1 && AllDigits(ds) && (b == [] || !IsDigit(b[|b| - 1]))
    ensures Parse(b + ds) == ParseSign(b, DigitsValue(ds))
  {
    TrailingDigitsAppend(b, ds);
    var s := b + ds;
    assert s[..|s| - |ds|] == b;
    assert s[|s| - |ds|..] == ds;
  }

  /** ParseSign reads an appended minus sign as a negative rank. */
  lemma ParseSignOf(a: string, neg: bool, v: nat)
    requires |a| >= 1 && a[|a| - 1] != '-'
    ensures ParseSign(a + (if neg then "-" else ""), v) == ParseFile(a, if neg then -(v as int) else v)
  {
    var b := a + (if neg then "-" else "");
    if neg {
      assert b[..|b| - 1] == a;
    } else {
      assert b == a;
    }
  }

  /** Parse on a text made of a head, a file letter, an optional minus sign
      and digits. */
  lemma ParseParts(s: string, a: string, neg: bool, ds: string)
    requires |a| >= 1 && !IsDigit(a[|a| - 1]) && a[|a| - 1] != '-' && |ds| >= 1 && AllDigits(ds)
    requires s == a + (if neg then "-" else "") + ds
    ensures Parse(s) == ParseFile(a, if neg then -(DigitsValue(ds) as int) else DigitsValue(ds))
  {
    var b := a + (if neg then "-" else "");
    assert b[|b| - 1] == (if neg then '-' else a[|a| - 1]);
    ParseDigits(b, ds);
    ParseSignOf(a, neg, DigitsValue(ds));
  }

  /** The head the writer emits is read back as the kind and the capture flag. */
  lemma ParseHeadOf(p: Piece, captured: Cell)
    ensures ParseHead(KindLetter(p.kind) + (if captured.Some? then "x" else "")) ==
      Some((if p.kind == Pawn then None else Some(p.kind), captured.Some?))
  {
    var h := KindLetter(p.kind) + (if captured.Some? then "x" else "");
    if p.kind == Pawn {
      assert h == (if captured.Some? then "x" else "");
    } else {
      assert LetterKind(h[0]) == Some(p.kind);
      assert |h| == 2 ==> h[1] == 'x';
    }
  }

  /** The text in front of the rank: piece letter, capture mark, file letter. */
  function Front(tc: int, p: Piece, captured: Cell): string
    requires 0 <= tc < 32
  {
    KindLetter(p.kind) + (if captured.Some? then "x" else "") + [('a' as int + tc) as char]
  }

  /** A notation is its front, an optional minus sign and the magnitude's digits. */
  lemma NotationShape(tr: int, tc: int, p: Piece, captured: Cell)
    requires 0 <= tc < 32
    ensures Notation(tr, tc, p, captured) ==
      Front(tc, p, captured) + (if 8 - tr < 0 then "-" else "") + NatText(if 8 - tr < 0 then tr - 8 else 8 - tr)
  {
    var v := 8 - tr;
    assert IntText(v) == (if v < 0 then "-" else "") + NatText(if v < 0 then -v else v);
  }

  /** The front is read back as the kind, the capture flag and the column. */
  lemma ParseFront(tc: int, p: Piece, captured: Cell, rank: int)
    requires 0 <= tc < 32
    ensures ParseFile(Front(tc, p, captured), rank) ==
      Some(Parts(if p.kind == Pawn then None else Some(p.kind), captured.Some?, tc, rank))
  {
    var a := Front(tc, p, captured);
    assert a[..|a| - 1] == KindLetter(p.kind) + (if captured.Some? then "x" else "");
    ParseHeadOf(p, captured);
  }

  /** The reader recovers everything the writer put in: the kind (for a
      non-pawn), the capture flag, the target column and the rank 8 - tr. */
  lemma NotationRoundTrip(tr: int, tc: int, p: Piece, captured: Cell)
    requires 0 <= tc < 32
    ensures Parse(Notation(tr, tc, p, captured)) ==
      Some(Parts(if p.kind == Pawn then None else Some(p.kind), captured.Some?, tc, 8 - tr))
  {
    var a := Front(tc, p, captured);
    var m: nat := if 8 - tr < 0 then tr - 8 else 8 - tr;
    var ds := NatText(m);
    NotationShape(tr, tc, p, captured);
    ParseParts(Notation(tr, tc, p, captured), a, 8 - tr < 0, ds);
    NatTextRoundTrip(m);
    ParseFront(tc, p, captured, 8 - tr);
  }

  /** Two moves with the same notation agree on the mover's kind, on the
      capture flag and on the target square. */
  lemma NotationInjective(tr: int, tc: int, p: Piece, captured: Cell, tr': int, tc': int, p': Piece, captured': Cell)
    requires 0 <= tc < 32 && 0 <= tc' < 32
    requires Notation(tr, tc, p, captured) == Notation(tr', tc', p', captured')
    ensures tr == tr' && tc == tc' && captured.Some? == captured'.Some? && p.kind == p'.kind
  {
    NotationRoundTrip(tr, tc, p, captured);
    NotationRoundTrip(tr', tc', p', captured');
  }
}
