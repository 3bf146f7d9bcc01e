/** `TetrisPiece`, the older copy of `Tetromino`. Its geometry, rotations and
    `new_random` are those of module `Pieces`. The copy differs in its colour table,
    in the name of the struct, in the name of the `JBlock` variant (`RBlock` there)
    and in the path it imports its vector type from; that vector type is taken to be
    the `IntVector2` of module `IntVector`.
 */
module TetrisPiece {
  import Pieces

  /** The colour table of `TetrisPiece`; `JBlock` is the source's `RBlock`. */
  function Color(t: Pieces.PieceType): Pieces.Rgb {
    match t
    case IBlock => Pieces.Rgb(240, 10, 10)
    case OBlock => Pieces.Rgb(10, 240, 240)
    case LBlock => Pieces.Rgb(240, 120, 10)
    case JBlock => Pieces.Rgb(240, 10, 240)
    case SBlock => Pieces.Rgb(10, 240, 10)
    case ZBlock => Pieces.Rgb(10, 10, 240)
    case TBlock => Pieces.Rgb(220, 220, 220)
  }

  function PieceColor(p: Pieces.Piece): Pieces.Rgb {
    Color(p.pieceType)
  }

  /** The colour is a function of the type alone, and no two types share one. */
  lemma ColorIdentifiesType(p: Pieces.Piece, q: Pieces.Piece)
    ensures p.pieceType == q.pieceType ==> PieceColor(p) == PieceColor(q)
    ensures PieceColor(p) == PieceColor(q) ==> p.pieceType == q.pieceType
  {
  }
}
