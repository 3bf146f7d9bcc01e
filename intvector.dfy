/** Integer grid vectors and the four cardinal rotations of the tetris engine.

    Coordinates are unbounded integers; the source stores them as `i8`. The lemma
    `RotationsStayInI8` states for which inputs no intermediate value of a
    rotation leaves the `i8` range.
 */
module IntVector {

  datatype IntVector2 = IntVector2(x: int, y: int)

  /** One of the four orientations; `Rotate90` is a quarter turn counter-clockwise. */
  datatype CardinalRotation = Rotate0 | Rotate90 | Rotate180 | Rotate270

  function Add(a: IntVector2, b: IntVector2): IntVector2 {
    IntVector2(a.x + b.x, a.y + b.y)
  }

  function Sub(a: IntVector2, b: IntVector2): IntVector2 {
    IntVector2(a.x - b.x, a.y - b.y)
  }

  function Zero(): IntVector2 {
    IntVector2(0, 0)
  }

  predicate IsZero(v: IntVector2) {
    v.x == 0 && v.y == 0
  }

  /** Rotates `v` about the centre of the grid cell `cell`. */
  function RotateAroundCell(v: IntVector2, cell: IntVector2, rotation: CardinalRotation): IntVector2 {
    var relative := Sub(v, cell);
    var rotatedRelative :=
      match rotation
      case Rotate0 => relative
      case Rotate90 => IntVector2(-relative.y, relative.x)
      case Rotate180 => IntVector2(-relative.x, -relative.y)
      case Rotate270 => IntVector2(relative.y, -relative.x);
    Add(cell, rotatedRelative)
  }

  /** Rotates `v` about the lattice corner at the lower left of the cell `corner`. */
  function RotateAroundCorner(v: IntVector2, corner: IntVector2, rotation: CardinalRotation): IntVector2 {
    var relative := Sub(v, corner);
    var rotatedRelative :=
      match rotation
      case Rotate0 => relative
      case Rotate90 => IntVector2(-relative.y - 1, relative.x)
      case Rotate180 => IntVector2(-relative.x - 1, -relative.y - 1)
      case Rotate270 => IntVector2(relative.y, -relative.x - 1);
    Add(corner, rotatedRelative)
  }

  function RotatedRight(r: CardinalRotation): CardinalRotation {
    match r
    case Rotate0 => Rotate270
    case Rotate90 => Rotate0
    case Rotate180 => Rotate90
    case Rotate270 => Rotate180
  }

  function RotatedLeft(r: CardinalRotation): CardinalRotation {
    match r
    case Rotate0 => Rotate90
    case Rotate90 => Rotate180
    case Rotate180 => Rotate270
    case Rotate270 => Rotate0
  }

  // ---------------------------------------------------------------------------
  // Reference definitions: a rotation as a number of counter-clockwise quarter turns.

  function Quarters(r: CardinalRotation): (n: nat)
    ensures n < 4
  {
    match r
    case Rotate0 => 0
    case Rotate90 => 1
    case Rotate180 => 2
    case Rotate270 => 3
  }

  /** The rotation by `n` counter-clockwise quarter turns (`n` taken modulo 4). */
  function FromQuarters(n: int): (r: CardinalRotation)
    ensures Quarters(r) == n % 4
  {
    if n % 4 == 0 then Rotate0
    else if n % 4 == 1 then Rotate90
    else if n % 4 == 2 then Rotate180
    else Rotate270
  }

  /** The rotation that undoes `r`. */
  function Opposite(r: CardinalRotation): CardinalRotation {
    FromQuarters(4 - Quarters(r))
  }

  /** `v` rotated `n` times in succession about `cell` by `r`. */
  function RotateAroundCellTimes(v: IntVector2, cell: IntVector2, r: CardinalRotation, n: nat): IntVector2 {
    if n == 0 then v else RotateAroundCell(RotateAroundCellTimes(v, cell, r, n - 1), cell, r)
  }

  /** `v` rotated `n` times in succession about `corner` by `r`. */
  function RotateAroundCornerTimes(v: IntVector2, corner: IntVector2, r: CardinalRotation, n: nat): IntVector2 {
    if n == 0 then v else RotateAroundCorner(RotateAroundCornerTimes(v, corner, r, n - 1), corner, r)
  }

  /** `r` stepped left `n` times. */
  function RotatedLeftTimes(r: CardinalRotation, n: nat): CardinalRotation {
    if n == 0 then r else RotatedLeft(RotatedLeftTimes(r, n - 1))
  }

  /** `r` stepped right `n` times. */
  function RotatedRightTimes(r: CardinalRotation, n: nat): CardinalRotation {
    if n == 0 then r else RotatedRight(RotatedRightTimes(r, n - 1))
  }

  // ---------------------------------------------------------------------------
  // Vector algebra.

  lemma SubThenAdd(a: IntVector2, b: IntVector2)
    ensures Add(Sub(a, b), b) == a
    ensures Sub(Add(a, b), b) == a
  {
  }

  lemma ZeroIsIdentity(a: IntVector2)
    ensures Add(a, Zero()) == a && Add(Zero(), a) == a
    ensures Sub(a, Zero()) == a
    ensures IsZero(Zero())
  {
  }

  lemma IsZeroIff(v: IntVector2)
    ensures IsZero(v) <==> v == Zero()
    ensures IsZero(v) <==> v.x == 0 && v.y == 0
  {
  }

  // ---------------------------------------------------------------------------
  // The rotation enum.

  /** Stepping left is one counter-clockwise quarter turn, stepping right three. */
  lemma StepsAreQuarterTurns(r: CardinalRotation)
    ensures RotatedLeft(r) == FromQuarters(Quarters(r) + 1)
    ensures RotatedRight(r) == FromQuarters(Quarters(r) + 3)
  {
  }

  lemma LeftRightInverse(r: CardinalRotation)
    ensures RotatedLeft(RotatedRight(r)) == r
    ensures RotatedRight(RotatedLeft(r)) == r
  {
  }

  lemma {:induction false} RotatedLeftTimesCounts(r: CardinalRotation, n: nat)
    ensures RotatedLeftTimes(r, n) == FromQuarters(Quarters(r) + n)
  {
    if n > 0 {
      RotatedLeftTimesCounts(r, n - 1);
      StepsAreQuarterTurns(RotatedLeftTimes(r, n - 1));
    }
  }

  lemma {:induction false} RotatedRightTimesCounts(r: CardinalRotation, n: nat)
    ensures RotatedRightTimes(r, n) == FromQuarters(Quarters(r) + 3 * n)
  {
    if n > 0 {
      RotatedRightTimesCounts(r, n - 1);
      StepsAreQuarterTurns(RotatedRightTimes(r, n - 1));
    }
  }

  /** Four steps in either direction return to the start. */
  lemma StepPeriodFour(r: CardinalRotation)
    ensures RotatedLeftTimes(r, 4) == r
    ensures RotatedRightTimes(r, 4) == r
    ensures RotatedLeft(RotatedLeft(RotatedLeft(RotatedLeft(r)))) == r
    ensures RotatedRight(RotatedRight(RotatedRight(RotatedRight(r)))) == r
  {
    RotatedLeftTimesCounts(r, 4);
    RotatedRightTimesCounts(r, 4);
  }

  // ---------------------------------------------------------------------------
  // The rotation maps.

  lemma RotateZeroIsIdentity(v: IntVector2, pivot: IntVector2)
    ensures RotateAroundCell(v, pivot, Rotate0) == v
    ensures RotateAroundCorner(v, pivot, Rotate0) == v
  {
  }

  /** The pivot cell is a fixed point of every cell rotation. */
  lemma PivotCellIsFixed(v: IntVector2, r: CardinalRotation)
    ensures RotateAroundCell(v, v, r) == v
  {
  }

  /** Rotating by `a` and then by `b` is rotating by the sum of their quarter turns. */
  lemma CellRotationsCompose(v: IntVector2, cell: IntVector2, a: CardinalRotation, b: CardinalRotation)
    ensures RotateAroundCell(RotateAroundCell(v, cell, a), cell, b)
         == RotateAroundCell(v, cell, FromQuarters(Quarters(a) + Quarters(b)))
  {
  }

  lemma CornerRotationsCompose(v: IntVector2, corner: IntVector2, a: CardinalRotation, b: CardinalRotation)
    ensures RotateAroundCorner(RotateAroundCorner(v, corner, a), corner, b)
         == RotateAroundCorner(v, corner, FromQuarters(Quarters(a) + Quarters(b)))
  {
  }

  /** Quarter turns add modulo 4. */
  lemma {:induction false} QuartersAdd(a: int, b: int)
    ensures FromQuarters(Quarters(FromQuarters(a)) + b) == FromQuarters(a + b)
  {
    var q := a / 4;
    assert a == 4 * q + a % 4;
    assert (a % 4 + b) % 4 == (a + b) % 4 by {
      assert a + b == (a % 4 + b) + 4 * q;
    }
  }

  /** `n` successive rotations by `r` about a cell are one rotation by `n` times as many quarter turns. */
  lemma {:induction false} CellRotationTimes(v: IntVector2, cell: IntVector2, r: CardinalRotation, n: nat)
    ensures RotateAroundCellTimes(v, cell, r, n) == RotateAroundCell(v, cell, FromQuarters(Quarters(r) * n))
  {
    if n == 0 {
      RotateZeroIsIdentity(v, cell);
    } else {
      CellRotationTimes(v, cell, r, n - 1);
      CellRotationsCompose(v, cell, FromQuarters(Quarters(r) * (n - 1)), r);
      QuartersAdd(Quarters(r) * (n - 1), Quarters(r));
      assert Quarters(r) * (n - 1) + Quarters(r) == Quarters(r) * n;
    }
  }

  lemma {:induction false} CornerRotationTimes(v: IntVector2, corner: IntVector2, r: CardinalRotation, n: nat)
    ensures RotateAroundCornerTimes(v, corner, r, n) == RotateAroundCorner(v, corner, FromQuarters(Quarters(r) * n))
  {
    if n == 0 {
      RotateZeroIsIdentity(v, corner);
    } else {
      CornerRotationTimes(v, corner, r, n - 1);
      CornerRotationsCompose(v, corner, FromQuarters(Quarters(r) * (n - 1)), r);
      QuartersAdd(Quarters(r) * (n - 1), Quarters(r));
      assert Quarters(r) * (n - 1) + Quarters(r) == Quarters(r) * n;
    }
  }

  /** Two, three and four quarter turns about a cell give `Rotate180`, `Rotate270` and the identity. */
  lemma CellQuarterTurnLaws(v: IntVector2, cell: IntVector2)
    ensures RotateAroundCell(RotateAroundCell(v, cell, Rotate90), cell, Rotate90) == RotateAroundCell(v, cell, Rotate180)
    ensures RotateAroundCellTimes(v, cell, Rotate90, 3) == RotateAroundCell(v, cell, Rotate270)
    ensures RotateAroundCellTimes(v, cell, Rotate90, 4) == v
  {
    CellRotationTimes(v, cell, Rotate90, 3);
    CellRotationTimes(v, cell, Rotate90, 4);
    RotateZeroIsIdentity(v, cell);
  }

  /** The same laws for the corner map. */
  lemma CornerQuarterTurnLaws(v: IntVector2, corner: IntVector2)
    ensures RotateAroundCorner(RotateAroundCorner(v, corner, Rotate90), corner, Rotate90) == RotateAroundCorner(v, corner, Rotate180)
    ensures RotateAroundCornerTimes(v, corner, Rotate90, 3) == RotateAroundCorner(v, corner, Rotate270)
    ensures RotateAroundCornerTimes(v, corner, Rotate90, 4) == v
  {
    CornerRotationTimes(v, corner, Rotate90, 3);
    CornerRotationTimes(v, corner, Rotate90, 4);
    RotateZeroIsIdentity(v, corner);
  }

  /** Any rotation, applied four times about a cell or a corner, is the identity. */
  lemma FourRotationsAreIdentity(v: IntVector2, pivot: IntVector2, r: CardinalRotation)
    ensures RotateAroundCellTimes(v, pivot, r, 4) == v
    ensures RotateAroundCornerTimes(v, pivot, r, 4) == v
  {
    CellRotationTimes(v, pivot, r, 4);
    CornerRotationTimes(v, pivot, r, 4);
    assert (Quarters(r) * 4) % 4 == 0;
    RotateZeroIsIdentity(v, pivot);
  }

  /** The opposite rotation undoes each map, so both maps are injective for a fixed pivot and rotation. */
  lemma OppositeUndoes(v: IntVector2, pivot: IntVector2, r: CardinalRotation)
    ensures RotateAroundCell(RotateAroundCell(v, pivot, r), pivot, Opposite(r)) == v
    ensures RotateAroundCorner(RotateAroundCorner(v, pivot, r), pivot, Opposite(r)) == v
  {
    OppositeQuarters(r);
    CellRotationsCompose(v, pivot, r, Opposite(r));
    CornerRotationsCompose(v, pivot, r, Opposite(r));
    RotateZeroIsIdentity(v, pivot);
  }

  /** A rotation and its opposite add up to a whole number of turns. */
  lemma OppositeQuarters(r: CardinalRotation)
    ensures FromQuarters(Quarters(r) + Quarters(Opposite(r))) == Rotate0
  {
    match r
    case Rotate0 => assert Opposite(r) == Rotate0;
    case Rotate90 => assert Opposite(r) == Rotate270;
    case Rotate180 => assert Opposite(r) == Rotate180;
    case Rotate270 => assert Opposite(r) == Rotate90;
  }

  lemma RotationsInjective(u: IntVector2, v: IntVector2, pivot: IntVector2, r: CardinalRotation)
    ensures RotateAroundCell(u, pivot, r) == RotateAroundCell(v, pivot, r) ==> u == v
    ensures RotateAroundCorner(u, pivot, r) == RotateAroundCorner(v, pivot, r) ==> u == v
  {
    OppositeUndoes(u, pivot, r);
    OppositeUndoes(v, pivot, r);
  }

  /** Moving both the point and the pivot by `d` moves the rotated point by `d`. */
  lemma RotationsCommuteWithTranslation(v: IntVector2, pivot: IntVector2, d: IntVector2, r: CardinalRotation)
    ensures RotateAroundCell(Add(v, d), Add(pivot, d), r) == Add(RotateAroundCell(v, pivot, r), d)
    ensures RotateAroundCorner(Add(v, d), Add(pivot, d), r) == Add(RotateAroundCorner(v, pivot, r), d)
  {
  }

  // ---------------------------------------------------------------------------
  // The i8 range of the source.

  predicate InI8(n: int) {
    -128 <= n <= 127
  }

  predicate FitsI8(v: IntVector2) {
    InI8(v.x) && InI8(v.y)
  }

  /** For coordinates in [-32, 32) no intermediate of either rotation overflows an `i8`:
      the relative vector, its negation, the rotated relative vector and the result. */
  lemma RotationsStayInI8(v: IntVector2, pivot: IntVector2, r: CardinalRotation)
    requires -32 <= v.x < 32 && -32 <= v.y < 32
    requires -32 <= pivot.x < 32 && -32 <= pivot.y < 32
    ensures FitsI8(Sub(v, pivot)) && FitsI8(IntVector2(-Sub(v, pivot).x, -Sub(v, pivot).y))
    ensures FitsI8(Sub(RotateAroundCell(v, pivot, r), pivot)) && FitsI8(RotateAroundCell(v, pivot, r))
    ensures FitsI8(Sub(RotateAroundCorner(v, pivot, r), pivot)) && FitsI8(RotateAroundCorner(v, pivot, r))
  {
  }
}
