/** Tetromino geometry: per-type templates, rotation kinds, the occupied cells of a
    piece, and the piece value with its orientation-only rotations.

    The geometry is shared by `Tetromino` and `TetrisPiece` in the source; this
    module also holds the colour table of `Tetromino`. The second table is in
    module `TetrisPiece`.
 */
module Pieces {
  import opened IntVector

  newtype byte = n: int | 0 <= n < 256

  /** An RGB colour with one byte per channel. */
  datatype Rgb = Rgb(r: byte, g: byte, b: byte)

  datatype PieceType = IBlock | OBlock | LBlock | JBlock | SBlock | ZBlock | TBlock

  /** How a type turns: the O block not at all, the I block about a lattice corner,
      the others about their centre cell. */
  datatype RotationKind = Fixed | AroundCorner | AroundCell

  datatype Piece = Piece(pieceType: PieceType, orientation: CardinalRotation, position: IntVector2)

  /** The order of the list `new_random` picks from. */
  const SpawnChoices: seq<PieceType> := [IBlock, LBlock, JBlock, SBlock, ZBlock, TBlock, OBlock]

  /** The pivot of the I block's corner rotation. */
  const CornerPivot := IntVector2(1, 0)

  const OBlockCells := [IntVector2(0, 0), IntVector2(0, 1), IntVector2(1, 0), IntVector2(1, 1)]

  function Kind(t: PieceType): RotationKind {
    match t
    case OBlock => Fixed
    case IBlock => AroundCorner
    case _ => AroundCell
  }

  function Template(t: PieceType): (cells: seq<IntVector2>)
    ensures |cells| == 4
  {
    match t
    case OBlock => OBlockCells
    case IBlock => [IntVector2(-1, 0), IntVector2(0, 0), IntVector2(1, 0), IntVector2(2, 0)]
    case LBlock => [IntVector2(-1, 0), IntVector2(0, 0), IntVector2(1, 0), IntVector2(1, 1)]
    case JBlock => [IntVector2(-1, 1), IntVector2(-1, 0), IntVector2(0, 0), IntVector2(1, 0)]
    case SBlock => [IntVector2(-1, 0), IntVector2(0, 0), IntVector2(0, 1), IntVector2(1, 1)]
    case ZBlock => [IntVector2(-1, 1), IntVector2(0, 1), IntVector2(0, 0), IntVector2(1, 0)]
    case TBlock => [IntVector2(-1, 0), IntVector2(0, 0), IntVector2(1, 0), IntVector2(0, 1)]
  }

  /** Where a rotating piece puts the template cell `local`. */
  function PlaceCell(p: Piece, local: IntVector2): IntVector2 {
    if Kind(p.pieceType) == AroundCorner
    then Add(p.position, RotateAroundCorner(local, CornerPivot, p.orientation))
    else Add(p.position, RotateAroundCell(local, Zero(), p.orientation))
  }

  /** The four board cells of `p`, in template order. The O block's template is
      returned as it is, without adding the position. */
  function OccupiedCells(p: Piece): (cells: seq<IntVector2>)
    ensures |cells| == 4
  {
    if Kind(p.pieceType) == Fixed then Template(p.pieceType)
    else
      var t := Template(p.pieceType);
      [PlaceCell(p, t[0]), PlaceCell(p, t[1]), PlaceCell(p, t[2]), PlaceCell(p, t[3])]
  }

  /** `new_random`, with the random pick passed in as an index into `SpawnChoices`. */
  function NewRandom(position: IntVector2, pick: nat): (p: Piece)
    requires pick < |SpawnChoices|
    ensures p.orientation == Rotate0 && p.position == position
    ensures p.pieceType == SpawnChoices[pick]
  {
    Piece(SpawnChoices[pick], Rotate0, position)
  }

  function PieceRotatedRight(p: Piece): Piece {
    p.(orientation := RotatedRight(p.orientation))
  }

  function PieceRotatedLeft(p: Piece): Piece {
    p.(orientation := RotatedLeft(p.orientation))
  }

  /** `p` rotated right `n` times. */
  function PieceRotatedRightTimes(p: Piece, n: nat): Piece {
    if n == 0 then p else PieceRotatedRight(PieceRotatedRightTimes(p, n - 1))
  }

  function Color(t: PieceType): Rgb {
    match t
    case IBlock => Rgb(10, 220, 220)
    case OBlock => Rgb(210, 210, 10)
    case LBlock => Rgb(240, 120, 10)
    case JBlock => Rgb(10, 20, 250)
    case SBlock => Rgb(10, 240, 10)
    case ZBlock => Rgb(240, 10, 10)
    case TBlock => Rgb(140, 10, 240)
  }

  function PieceColor(p: Piece): Rgb {
    Color(p.pieceType)
  }

  /** `get_occupied_cells`: the O block's template is returned as it is; any other
      template is copied and rewritten entry by entry by `PlaceEntries`. */
  method GetOccupiedCells(p: Piece) returns (cells: seq<IntVector2>)
    ensures cells == OccupiedCells(p)
  {
    var template := Template(p.pieceType);
    if p.pieceType == OBlock {
      return template;
    }
    cells := PlaceEntries(p, template, p.pieceType == IBlock);
    assert cells == [cells[0], cells[1], cells[2], cells[3]];
  }

  /** The two `for entry in &mut cells` loops of `get_occupied_cells`: each entry is
      rotated about the corner (1, 0) or about the cell (0, 0) and moved by the position. */
  method PlaceEntries(p: Piece, template: seq<IntVector2>, rotateAroundCorner: bool) returns (cells: seq<IntVector2>)
    requires |template| == 4
    requires rotateAroundCorner <==> Kind(p.pieceType) == AroundCorner
    ensures |cells| == 4
    ensures forall i | 0 <= i < 4 :: cells[i] == PlaceCell(p, template[i])
  {
    var entries := new IntVector2[4](i requires 0 <= i < 4 => template[i]);
    if rotateAroundCorner {
      for k := 0 to 4
        invariant forall i | 0 <= i < k :: entries[i] == PlaceCell(p, template[i])
        invariant forall i | k <= i < 4 :: entries[i] == template[i]
      {
        entries[k] := Add(p.position, RotateAroundCorner(entries[k], IntVector2(1, 0), p.orientation));
      }
    } else {
      for k := 0 to 4
        invariant forall i | 0 <= i < k :: entries[i] == PlaceCell(p, template[i])
        invariant forall i | k <= i < 4 :: entries[i] == template[i]
      {
        entries[k] := Add(p.position, RotateAroundCell(entries[k], Zero(), p.orientation));
      }
    }
    cells := entries[..];
  }

  // ---------------------------------------------------------------------------
  // Properties of the geometry.

  predicate PairwiseDistinct(cells: seq<IntVector2>) {
    forall i, j | 0 <= i < j < |cells| :: cells[i] != cells[j]
  }

  /** The O block always occupies the same four cells near the origin. */
  lemma OBlockIgnoresPositionAndOrientation(orientation: CardinalRotation, position: IntVector2)
    ensures OccupiedCells(Piece(OBlock, orientation, position)) == OBlockCells
  {
  }

  /** The cells by rotation kind: the I block's template turned about the corner (1, 0),
      the L, J, S, Z and T templates turned about the cell (0, 0), each then moved
      by the position, in template order. */
  lemma OccupiedCellsByKind(p: Piece, i: nat)
    requires i < 4
    ensures p.pieceType == IBlock ==>
      OccupiedCells(p)[i] == Add(p.position, RotateAroundCorner(Template(IBlock)[i], IntVector2(1, 0), p.orientation))
    ensures p.pieceType != OBlock && p.pieceType != IBlock ==>
      OccupiedCells(p)[i] == Add(p.position, RotateAroundCell(Template(p.pieceType)[i], Zero(), p.orientation))
  {
    if p.pieceType != OBlock {
      OccupiedCellAt(p, i);
    }
  }

  lemma TemplateDistinct(t: PieceType)
    ensures PairwiseDistinct(Template(t))
  {
  }

  /** Placing distinct template cells gives distinct board cells. */
  lemma {:induction false} PlacedCellsDistinct(p: Piece, template: seq<IntVector2>)
    requires |template| == 4 && PairwiseDistinct(template)
    ensures PairwiseDistinct([PlaceCell(p, template[0]), PlaceCell(p, template[1]), PlaceCell(p, template[2]), PlaceCell(p, template[3])])
  {
    var cells := [PlaceCell(p, template[0]), PlaceCell(p, template[1]), PlaceCell(p, template[2]), PlaceCell(p, template[3])];
    var pivot := if Kind(p.pieceType) == AroundCorner then CornerPivot else Zero();
    forall i, j | 0 <= i < j < 4
      ensures cells[i] != cells[j]
    {
      assert cells[i] == PlaceCell(p, template[i]) && cells[j] == PlaceCell(p, template[j]);
      RotationsInjective(template[i], template[j], pivot, p.orientation);
    }
  }

  /** The four cells of every piece are pairwise distinct. */
  lemma CellsPairwiseDistinct(p: Piece)
    ensures PairwiseDistinct(OccupiedCells(p))
  {
    TemplateDistinct(p.pieceType);
    if Kind(p.pieceType) != Fixed {
      PlacedCellsDistinct(p, Template(p.pieceType));
    }
  }

  /** For the rotating types, moving the piece by `d` moves each cell by `d`. */
  lemma MovingShiftsCells(p: Piece, d: IntVector2)
    requires Kind(p.pieceType) != Fixed
    ensures forall i | 0 <= i < 4 ::
      OccupiedCells(p.(position := Add(p.position, d)))[i] == Add(OccupiedCells(p)[i], d)
  {
  }

  /** Placing `local` turned by `o` and then turning the result by `t` about the
      position is placing `local` turned by `o` followed by `t`. */
  lemma CellTurnAfterPlacing(local: IntVector2, position: IntVector2, o: CardinalRotation, t: CardinalRotation)
    ensures RotateAroundCell(Add(position, RotateAroundCell(local, Zero(), o)), position, t)
         == Add(position, RotateAroundCell(local, Zero(), FromQuarters(Quarters(o) + Quarters(t))))
  {
    CellRotationsCompose(local, Zero(), o, t);
    RotationsCommuteWithTranslation(RotateAroundCell(local, Zero(), o), Zero(), position, t);
  }

  /** The same for the corner pivot, whose board position is moved with the piece. */
  lemma CornerTurnAfterPlacing(local: IntVector2, position: IntVector2, o: CardinalRotation, t: CardinalRotation)
    ensures RotateAroundCorner(Add(position, RotateAroundCorner(local, CornerPivot, o)), Add(CornerPivot, position), t)
         == Add(position, RotateAroundCorner(local, CornerPivot, FromQuarters(Quarters(o) + Quarters(t))))
  {
    CornerRotationsCompose(local, CornerPivot, o, t);
    RotationsCommuteWithTranslation(RotateAroundCorner(local, CornerPivot, o), CornerPivot, position, t);
  }

  /** Rotating a piece left turns the place of a template cell a quarter turn
      counter-clockwise about the piece's own pivot; rotating right, three quarter turns. */
  lemma {:induction false} RotatingTurnsPlacedCell(p: Piece, local: IntVector2)
    ensures Kind(p.pieceType) == AroundCell ==>
      && PlaceCell(PieceRotatedLeft(p), local) == RotateAroundCell(PlaceCell(p, local), p.position, Rotate90)
      && PlaceCell(PieceRotatedRight(p), local) == RotateAroundCell(PlaceCell(p, local), p.position, Rotate270)
    ensures Kind(p.pieceType) == AroundCorner ==>
      && PlaceCell(PieceRotatedLeft(p), local) == RotateAroundCorner(PlaceCell(p, local), Add(CornerPivot, p.position), Rotate90)
      && PlaceCell(PieceRotatedRight(p), local) == RotateAroundCorner(PlaceCell(p, local), Add(CornerPivot, p.position), Rotate270)
  {
    var o := p.orientation;
    StepsAreQuarterTurns(o);
    assert Quarters(Rotate90) == 1 && Quarters(Rotate270) == 3;
    var kind := Kind(p.pieceType);
    if kind == AroundCell {
      CellTurnAfterPlacing(local, p.position, o, Rotate90);
      CellTurnAfterPlacing(local, p.position, o, Rotate270);
    } else if kind == AroundCorner {
      CornerTurnAfterPlacing(local, p.position, o, Rotate90);
      CornerTurnAfterPlacing(local, p.position, o, Rotate270);
    }
  }

  lemma OccupiedCellAt(p: Piece, i: nat)
    requires Kind(p.pieceType) != Fixed && i < 4
    ensures OccupiedCells(p)[i] == PlaceCell(p, Template(p.pieceType)[i])
  {
  }

  /** The same for the occupied cells themselves: a rotated piece's cell `i` is the
      piece's cell `i` turned about the pivot. */
  lemma RotatingTurnsCells(p: Piece, i: nat)
    requires Kind(p.pieceType) != Fixed && i < 4
    ensures Kind(p.pieceType) == AroundCell ==>
      && OccupiedCells(PieceRotatedLeft(p))[i] == RotateAroundCell(OccupiedCells(p)[i], p.position, Rotate90)
      && OccupiedCells(PieceRotatedRight(p))[i] == RotateAroundCell(OccupiedCells(p)[i], p.position, Rotate270)
    ensures Kind(p.pieceType) == AroundCorner ==>
      && OccupiedCells(PieceRotatedLeft(p))[i] == RotateAroundCorner(OccupiedCells(p)[i], Add(CornerPivot, p.position), Rotate90)
      && OccupiedCells(PieceRotatedRight(p))[i] == RotateAroundCorner(OccupiedCells(p)[i], Add(CornerPivot, p.position), Rotate270)
  {
    OccupiedCellAt(p, i);
    OccupiedCellAt(PieceRotatedLeft(p), i);
    OccupiedCellAt(PieceRotatedRight(p), i);
    RotatingTurnsPlacedCell(p, Template(p.pieceType)[i]);
  }

  /** Unrotated, the rotating types sit on their templates moved by the position. */
  lemma UnrotatedCells(p: Piece, i: nat)
    requires p.orientation == Rotate0 && p.pieceType != OBlock && i < 4
    ensures OccupiedCells(p)[i] == Add(p.position, Template(p.pieceType)[i])
  {
    var local := Template(p.pieceType)[i];
    OccupiedCellAt(p, i);
    UnrotatedPlace(p, local);
  }

  /** Unrotated, a template cell is placed at the position plus the cell. */
  lemma UnrotatedPlace(p: Piece, local: IntVector2)
    requires p.orientation == Rotate0
    ensures PlaceCell(p, local) == Add(p.position, local)
  {
    RotateZeroIsIdentity(local, CornerPivot);
    RotateZeroIsIdentity(local, Zero());
  }

  /** Every template lies within x in [-1, 2] and y in [0, 1]. */
  lemma TemplateSpan(t: PieceType, i: nat)
    requires i < 4
    ensures -1 <= Template(t)[i].x <= 2 && 0 <= Template(t)[i].y <= 1
  {
  }

  /** Rotations change only the orientation, and left and right undo each other. */
  lemma RotationsChangeOnlyOrientation(p: Piece)
    ensures PieceRotatedRight(p).pieceType == p.pieceType && PieceRotatedRight(p).position == p.position
    ensures PieceRotatedLeft(p).pieceType == p.pieceType && PieceRotatedLeft(p).position == p.position
    ensures PieceRotatedRight(p).orientation == RotatedRight(p.orientation)
    ensures PieceRotatedLeft(p).orientation == RotatedLeft(p.orientation)
    ensures PieceRotatedLeft(PieceRotatedRight(p)) == p
    ensures PieceRotatedRight(PieceRotatedLeft(p)) == p
  {
    LeftRightInverse(p.orientation);
  }

  lemma {:induction false} PieceRotatedRightTimesOrientation(p: Piece, n: nat)
    ensures PieceRotatedRightTimes(p, n) == p.(orientation := RotatedRightTimes(p.orientation, n))
  {
    if n > 0 {
      PieceRotatedRightTimesOrientation(p, n - 1);
    }
  }

  /** Four right rotations give back the same piece, and so the same cells. */
  lemma FourRightRotations(p: Piece)
    ensures PieceRotatedRightTimes(p, 4) == p
    ensures OccupiedCells(PieceRotatedRightTimes(p, 4)) == OccupiedCells(p)
  {
    PieceRotatedRightTimesOrientation(p, 4);
    StepPeriodFour(p.orientation);
  }

  /** Every piece type can be drawn, and a drawn piece starts unrotated where asked. */
  lemma NewRandomReachesEveryType(position: IntVector2, t: PieceType)
    ensures exists pick :: 0 <= pick < |SpawnChoices| && NewRandom(position, pick) == Piece(t, Rotate0, position)
  {
    var pick := match t
      case IBlock => 0
      case LBlock => 1
      case JBlock => 2
      case SBlock => 3
      case ZBlock => 4
      case TBlock => 5
      case OBlock => 6;
    assert NewRandom(position, pick) == Piece(t, Rotate0, position);
  }

  /** The colour is a function of the type alone, and no two types share one. */
  lemma ColorIdentifiesType(p: Piece, q: Piece)
    ensures p.pieceType == q.pieceType ==> PieceColor(p) == PieceColor(q)
    ensures PieceColor(p) == PieceColor(q) ==> p.pieceType == q.pieceType
  {
  }
}
