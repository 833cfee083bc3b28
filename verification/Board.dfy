/** Squares, pieces and positions of the web chessboard. */
module Board {

  /** Column 0 is the a-file; rows are counted from 1. */
  datatype Square = Square(col: nat, row: nat)

  predicate OnBoard(s: Square) { s.col < 8 && 1 <= s.row <= 8 }

  /** A piece code such as wP: its colour and an upper-case letter. */
  datatype Piece = Piece(white: bool, kind: char)

  /** A position object: the pieces by square. */
  type Position = map<Square, Piece>

  predicate SquaresOnBoard(p: Position) { forall s :: s in p ==> OnBoard(s) }
}
