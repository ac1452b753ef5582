/** Value types shared by the rule engine, the engine protocol helpers, the
    variant AI and the game bookkeeping. */
module ChessTypes {

  datatype Option<+T> = None | Some(value: T)

  /** The six piece kinds, in the order of the source's enumeration. */
  datatype Kind = Pawn | Rook | Knight | Bishop | Queen | King

  /** A piece is a kind and a colour; promotion replaces the kind. */
  datatype Piece = Piece(kind: Kind, white: bool)

  /** A board square holds at most one piece. */
  type Cell = Option<Piece>

  /** The board as a value: row-major, row 0 is Black's home rank. */
  type Grid = seq<seq<Cell>>

  /** A destination square (the source's Point, with x the column and y the row). */
  datatype Square = Square(row: int, col: int)

  /** A move from (sr, sc) to (tr, tc). */
  datatype Move = Move(sr: int, sc: int, tr: int, tc: int)

  /** One undo-stack entry: the squares, the mover as it was before the move
      (so that a later promotion can be reverted) and whatever stood on the target. */
  datatype MoveRecord = MoveRecord(sr: int, sc: int, tr: int, tc: int, moved: Piece, captured: Cell)

  /** One entry of the game log: its text in simplified algebraic notation,
      the squares and whatever was captured. */
  datatype PgnMove = PgnMove(notation: string, sr: int, sc: int, tr: int, tc: int, captured: Cell)
}
