/** The 10 x 22 playfield: a grid of optional orphan blocks (the cells of locked
    pieces), indexed `[x, y]`, with the placement check, locking, and the
    enumeration of orphans.

    The first part works on grid values (`Grid`) and states what the operations
    mean; the class `Playfield` keeps the grid in an `array2` and its methods are
    proved against those functions.
 */
module Playfield {
  import opened IntVector
  import opened Pieces

  const Width := 10
  const Height := 22
  const VisibleHeight := 20

  datatype Option<T> = None | Some(value: T)

  /** A locked cell that no longer belongs to a piece. */
  datatype OrphanBlock = OrphanBlock(color: Rgb)

  /** Columns of cells: `g[x][y]` is the cell at (x, y). */
  type Grid = seq<seq<Option<OrphanBlock>>>

  /** An orphan as `iter_orphans` yields it: its coordinates and its block. */
  type Orphan = (IntVector2, OrphanBlock)

  predicate WellFormed(g: Grid) {
    |g| == Width && forall x | 0 <= x < |g| :: |g[x]| == Height
  }

  predicate InBounds(v: IntVector2) {
    0 <= v.x < Width && 0 <= v.y < Height
  }

  function At(g: Grid, v: IntVector2): Option<OrphanBlock>
    requires WellFormed(g) && InBounds(v)
  {
    g[v.x][v.y]
  }

  function EmptyGrid(): (g: Grid)
    ensures WellFormed(g)
    ensures forall x, y | 0 <= x < Width && 0 <= y < Height :: g[x][y] == None
  {
    seq(Width, _ => seq(Height, _ => None))
  }

  /** A cell passes the placement check when it is non-negative, inside the grid,
      and not taken by an orphan. */
  predicate FreeCell(g: Grid, v: IntVector2)
    requires WellFormed(g)
  {
    && v.x >= 0 && v.y >= 0
    && v.x < Width && v.y < Height
    && g[v.x][v.y] == None
  }

  /** A piece may be placed when each of its four cells is free. */
  predicate ValidOn(g: Grid, p: Piece)
    requires WellFormed(g)
  {
    var cells := OccupiedCells(p);
    forall i | 0 <= i < 4 :: FreeCell(g, cells[i])
  }

  predicate AllInBounds(p: Piece) {
    var cells := OccupiedCells(p);
    forall i | 0 <= i < 4 :: InBounds(cells[i])
  }

  /** `g` with `block` written into each of `cells`. */
  function Filled(g: Grid, cells: seq<IntVector2>, block: OrphanBlock): (r: Grid)
    requires WellFormed(g)
    ensures WellFormed(r)
  {
    seq(Width, x requires 0 <= x < Width =>
      seq(Height, y requires 0 <= y < Height =>
        if IntVector2(x, y) in cells then Some(block) else g[x][y]))
  }

  /** The grid after locking `p`: its cells hold an orphan of its colour. */
  function Locked(g: Grid, p: Piece): (r: Grid)
    requires WellFormed(g)
    ensures WellFormed(r)
  {
    Filled(g, OccupiedCells(p), OrphanBlock(PieceColor(p)))
  }

  // ---------------------------------------------------------------------------
  // The orphans of a grid, in storage order: x outermost, then y.

  function CellOrphans(g: Grid, x: nat, y: nat): seq<Orphan>
    requires WellFormed(g) && x < Width && y < Height
  {
    match g[x][y]
    case None => []
    case Some(block) => [(IntVector2(x, y), block)]
  }

  /** The orphans of column `x` with `y` below `n`. */
  function ColumnOrphans(g: Grid, x: nat, n: nat): seq<Orphan>
    requires WellFormed(g) && x < Width && n <= Height
  {
    if n == 0 then [] else ColumnOrphans(g, x, n - 1) + CellOrphans(g, x, n - 1)
  }

  /** The orphans of the columns below `m`. */
  function OrphansBefore(g: Grid, m: nat): seq<Orphan>
    requires WellFormed(g) && m <= Width
  {
    if m == 0 then [] else OrphansBefore(g, m - 1) + ColumnOrphans(g, m - 1, Height)
  }

  function Orphans(g: Grid): seq<Orphan>
    requires WellFormed(g)
  {
    OrphansBefore(g, Width)
  }

  /** Storage order of two cells. */
  predicate StoredBefore(u: IntVector2, v: IntVector2) {
    u.x < v.x || (u.x == v.x && u.y < v.y)
  }

  predicate InStorageOrder(orphans: seq<Orphan>) {
    forall i, j | 0 <= i < j < |orphans| :: StoredBefore(orphans[i].0, orphans[j].0)
  }

  // ---------------------------------------------------------------------------
  // Properties.

  /** Every orphan of a column prefix is a filled cell of it. */
  lemma {:induction false} ColumnOrphansSound(g: Grid, x: nat, n: nat)
    requires WellFormed(g) && x < Width && n <= Height
    ensures forall o | o in ColumnOrphans(g, x, n) :: o.0.x == x && 0 <= o.0.y < n && g[x][o.0.y] == Some(o.1)
  {
    if n > 0 {
      ColumnOrphansSound(g, x, n - 1);
    }
  }

  /** Every filled cell of a column prefix is one of its orphans. */
  lemma {:induction false} ColumnOrphansComplete(g: Grid, x: nat, n: nat)
    requires WellFormed(g) && x < Width && n <= Height
    ensures forall y | 0 <= y < n :: g[x][y].Some? ==> (IntVector2(x, y), g[x][y].value) in ColumnOrphans(g, x, n)
  {
    if n > 0 {
      ColumnOrphansComplete(g, x, n - 1);
    }
  }

  /** Every orphan of the first `m` columns is a filled cell of them. */
  lemma {:induction false} OrphansBeforeSound(g: Grid, m: nat)
    requires WellFormed(g) && m <= Width
    ensures forall o | o in OrphansBefore(g, m) :: InBounds(o.0) && o.0.x < m && At(g, o.0) == Some(o.1)
  {
    if m > 0 {
      OrphansBeforeSound(g, m - 1);
      ColumnOrphansSound(g, m - 1, Height);
    }
  }

  /** Every filled cell of the first `m` columns is one of their orphans. */
  lemma {:induction false} OrphansBeforeComplete(g: Grid, m: nat)
    requires WellFormed(g) && m <= Width
    ensures forall x, y | 0 <= x < m && 0 <= y < Height :: g[x][y].Some? ==> (IntVector2(x, y), g[x][y].value) in OrphansBefore(g, m)
  {
    if m > 0 {
      OrphansBeforeComplete(g, m - 1);
      ColumnOrphansComplete(g, m - 1, Height);
    }
  }

  /** `iter_orphans` yields exactly the occupied cells, each with its block. */
  lemma OrphansAreOccupiedCells(g: Grid, v: IntVector2, block: OrphanBlock)
    requires WellFormed(g)
    ensures (v, block) in Orphans(g) <==> InBounds(v) && At(g, v) == Some(block)
  {
    OrphansBeforeSound(g, Width);
    OrphansBeforeComplete(g, Width);
  }

  /** Two ordered runs, the first wholly before the second, make an ordered run. */
  lemma OrderedConcat(a: seq<Orphan>, b: seq<Orphan>)
    requires InStorageOrder(a) && InStorageOrder(b)
    requires forall i, j | 0 <= i < |a| && 0 <= j < |b| :: StoredBefore(a[i].0, b[j].0)
    ensures InStorageOrder(a + b)
  {
    forall i, j | 0 <= i < j < |a + b|
      ensures StoredBefore((a + b)[i].0, (a + b)[j].0)
    {
      if j < |a| {
        assert (a + b)[i] == a[i] && (a + b)[j] == a[j];
      } else if i < |a| {
        assert (a + b)[i] == a[i] && (a + b)[j] == b[j - |a|];
      } else {
        assert (a + b)[i] == b[i - |a|] && (a + b)[j] == b[j - |a|];
      }
    }
  }

  lemma {:induction false} ColumnOrphansOrdered(g: Grid, x: nat, n: nat)
    requires WellFormed(g) && x < Width && n <= Height
    ensures InStorageOrder(ColumnOrphans(g, x, n))
  {
    if n > 0 {
      var before := ColumnOrphans(g, x, n - 1);
      var cell := CellOrphans(g, x, n - 1);
      ColumnOrphansOrdered(g, x, n - 1);
      ColumnOrphansSound(g, x, n - 1);
      forall i, j | 0 <= i < |before| && 0 <= j < |cell|
        ensures StoredBefore(before[i].0, cell[j].0)
      {
        assert before[i] in before;
      }
      OrderedConcat(before, cell);
    }
  }

  lemma {:induction false} OrphansBeforeOrdered(g: Grid, m: nat)
    requires WellFormed(g) && m <= Width
    ensures InStorageOrder(OrphansBefore(g, m))
  {
    if m > 0 {
      var before := OrphansBefore(g, m - 1);
      var column := ColumnOrphans(g, m - 1, Height);
      OrphansBeforeOrdered(g, m - 1);
      OrphansBeforeSound(g, m - 1);
      ColumnOrphansOrdered(g, m - 1, Height);
      ColumnOrphansSound(g, m - 1, Height);
      forall i, j | 0 <= i < |before| && 0 <= j < |column|
        ensures StoredBefore(before[i].0, column[j].0)
      {
        assert before[i] in before && column[j] in column;
      }
      OrderedConcat(before, column);
    }
  }

  /** The orphans come in storage order, so no cell is yielded twice. */
  lemma OrphansInStorageOrder(g: Grid)
    requires WellFormed(g)
    ensures InStorageOrder(Orphans(g))
    ensures forall i, j | 0 <= i < j < |Orphans(g)| :: Orphans(g)[i].0 != Orphans(g)[j].0
  {
    OrphansBeforeOrdered(g, Width);
  }

  predicate NoBlocks(g: Grid)
    requires WellFormed(g)
  {
    forall x, y | 0 <= x < Width && 0 <= y < Height :: g[x][y] == None
  }

  lemma {:induction false} NoBlocksNoColumnOrphans(g: Grid, x: nat, n: nat)
    requires WellFormed(g) && NoBlocks(g) && x < Width && n <= Height
    ensures ColumnOrphans(g, x, n) == []
  {
    if n > 0 {
      NoBlocksNoColumnOrphans(g, x, n - 1);
    }
  }

  /** A grid without blocks has no orphans. */
  lemma {:induction false} NoBlocksNoOrphans(g: Grid, m: nat)
    requires WellFormed(g) && NoBlocks(g) && m <= Width
    ensures OrphansBefore(g, m) == []
  {
    if m > 0 {
      NoBlocksNoOrphans(g, m - 1);
      NoBlocksNoColumnOrphans(g, m - 1, Height);
    }
  }

  lemma EmptyGridHasNoOrphans()
    ensures Orphans(EmptyGrid()) == []
  {
    NoBlocksNoOrphans(EmptyGrid(), Width);
  }

  /** A grid that holds `block` in `cells` and the old contents elsewhere is the
      filled grid. */
  lemma FilledByCells(g: Grid, r: Grid, cells: seq<IntVector2>, block: OrphanBlock)
    requires WellFormed(g) && WellFormed(r)
    requires forall x, y | 0 <= x < Width && 0 <= y < Height ::
      r[x][y] == if IntVector2(x, y) in cells then Some(block) else g[x][y]
    ensures r == Filled(g, cells, block)
  {
    forall x | 0 <= x < Width
      ensures r[x] == Filled(g, cells, block)[x]
    {
    }
  }

  /** Once locked, a piece can no longer be placed where it is. */
  lemma LockedPieceIsNoLongerValid(g: Grid, p: Piece)
    requires WellFormed(g) && AllInBounds(p)
    ensures !ValidOn(Locked(g, p), p)
  {
    var cells := OccupiedCells(p);
    assert cells[0] in cells;
    assert Locked(g, p)[cells[0].x][cells[0].y].Some?;
  }

  /** Locking writes the piece's colour into its cells and changes nothing else. */
  lemma LockedCells(g: Grid, p: Piece, v: IntVector2)
    requires WellFormed(g) && InBounds(v)
    ensures v in OccupiedCells(p) ==> At(Locked(g, p), v) == Some(OrphanBlock(PieceColor(p)))
    ensures v !in OccupiedCells(p) ==> At(Locked(g, p), v) == At(g, v)
  {
  }

  /** Locking a piece on an empty grid leaves exactly its four cells as orphans, all of its colour. */
  lemma LockingOnEmptyGrid(p: Piece, v: IntVector2, block: OrphanBlock)
    requires AllInBounds(p)
    ensures (v, block) in Orphans(Locked(EmptyGrid(), p)) <==> v in OccupiedCells(p) && block == OrphanBlock(PieceColor(p))
  {
    var g := Locked(EmptyGrid(), p);
    OrphansAreOccupiedCells(g, v, block);
    if v in OccupiedCells(p) {
      var i :| 0 <= i < 4 && OccupiedCells(p)[i] == v;
      assert InBounds(v);
    }
  }

  // ---------------------------------------------------------------------------
  // The playfield object.

  class Playfield {
    const cells: array2<Option<OrphanBlock>>

    ghost predicate Valid()
      reads this
    {
      cells.Length0 == Width && cells.Length1 == Height
    }

    /** The grid the array holds. */
    ghost function Snapshot(): (g: Grid)
      reads this, cells
      requires Valid()
      ensures WellFormed(g)
      ensures forall x, y | 0 <= x < Width && 0 <= y < Height :: g[x][y] == cells[x, y]
    {
      seq(Width, x requires 0 <= x < cells.Length0 reads cells =>
        seq(Height, y requires 0 <= y < cells.Length1 reads cells => cells[x, y]))
    }

    constructor NewEmpty()
      ensures Valid() && fresh(cells)
      ensures Snapshot() == EmptyGrid()
    {
      cells := new Option<OrphanBlock>[Width, Height]((x, y) => None);
      new;
      forall x | 0 <= x < Width
        ensures Snapshot()[x] == EmptyGrid()[x]
      {
      }
    }

    function SpawnLocation(): (v: IntVector2)
      ensures v == IntVector2(5, 20)
    {
      IntVector2(Width / 2, Height - 2)
    }

    function VisibleDimensions(): (d: (nat, nat))
      ensures d == (10, 20)
    {
      (Width, VisibleHeight)
    }

    /** `is_valid_placement`. */
    method IsValidPlacement(p: Piece) returns (valid: bool)
      requires Valid()
      ensures valid == ValidOn(Snapshot(), p)
    {
      var occupied := GetOccupiedCells(p);
      valid := CellsFree(occupied);
    }

    /** The loop of `is_valid_placement`: checks the cells in order and rejects at the
        first one that is negative, outside either dimension, or taken. */
    method CellsFree(occupied: seq<IntVector2>) returns (valid: bool)
      requires Valid() && |occupied| == 4
      ensures valid == forall i | 0 <= i < 4 :: FreeCell(Snapshot(), occupied[i])
    {
      for k := 0 to 4
        invariant forall i | 0 <= i < k :: InBounds(occupied[i]) && cells[occupied[i].x, occupied[i].y] == None
      {
        var cell := occupied[k];
        if cell.x < 0 || cell.y < 0 {
          return false;
        }
        var coordinates := [cell.x, cell.y];
        var dimensions := [cells.Length0, cells.Length1];
        for i := 0 to 2
          invariant forall j | 0 <= j < i :: coordinates[j] < dimensions[j]
        {
          if coordinates[i] >= dimensions[i] {
            return false;
          }
        }
        assert cell.x == coordinates[0] < dimensions[0] && cell.y == coordinates[1] < dimensions[1];
        if cells[cell.x, cell.y].Some? {
          return false;
        }
      }
      return true;
    }

    /** `lock_tetromino`: writes an orphan of the piece's colour into each of its
        cells; indexing outside the grid panics, hence the precondition. */
    method LockTetromino(p: Piece)
      requires Valid() && AllInBounds(p)
      modifies cells
      ensures Snapshot() == Locked(old(Snapshot()), p)
      ensures forall x, y | 0 <= x < Width && 0 <= y < Height ::
        cells[x, y] == if IntVector2(x, y) in OccupiedCells(p) then Some(OrphanBlock(PieceColor(p))) else old(cells[x, y])
    {
      var color := PieceColor(p);
      var occupied := GetOccupiedCells(p);
      ghost var before := Snapshot();
      FillCells(occupied, OrphanBlock(color));
      FilledByCells(before, Snapshot(), occupied, OrphanBlock(color));
    }

    /** The loop of `lock_tetromino`. */
    method FillCells(occupied: seq<IntVector2>, block: OrphanBlock)
      requires Valid() && |occupied| == 4
      requires forall i | 0 <= i < 4 :: InBounds(occupied[i])
      modifies cells
      ensures forall x, y | 0 <= x < Width && 0 <= y < Height ::
        cells[x, y] == if IntVector2(x, y) in occupied then Some(block) else old(cells[x, y])
    {
      for k := 0 to 4
        invariant forall x, y | 0 <= x < Width && 0 <= y < Height ::
          cells[x, y] == if IntVector2(x, y) in occupied[..k] then Some(block) else old(cells[x, y])
      {
        var cell := occupied[k];
        cells[cell.x, cell.y] := Some(block);
        assert occupied[..k + 1] == occupied[..k] + [cell];
      }
      assert occupied[..4] == occupied;
    }

    /** `iter_orphans`: walks the grid in storage order and keeps the occupied cells. */
    method IterOrphans() returns (orphans: seq<Orphan>)
      requires Valid()
      ensures orphans == Orphans(Snapshot())
    {
      ghost var g := Snapshot();
      orphans := [];
      for x := 0 to Width
        invariant orphans == OrphansBefore(g, x)
      {
        for y := 0 to Height
          invariant orphans == OrphansBefore(g, x) + ColumnOrphans(g, x, y)
        {
          match cells[x, y]
          case Some(block) =>
            orphans := orphans + [(IntVector2(x, y), block)];
          case None =>
        }
      }
    }
  }

  /** Every type spawned unrotated at the spawn location fits an empty playfield. */
  lemma SpawnFitsEmptyPlayfield(t: PieceType)
    ensures ValidOn(EmptyGrid(), Piece(t, Rotate0, IntVector2(Width / 2, Height - 2)))
  {
    var p := Piece(t, Rotate0, IntVector2(Width / 2, Height - 2));
    var g := EmptyGrid();
    if t != OBlock {
      forall i | 0 <= i < 4
        ensures FreeCell(g, OccupiedCells(p)[i])
      {
        UnrotatedCells(p, i);
        TemplateSpan(t, i);
      }
    } else {
      assert OccupiedCells(p) == OBlockCells;
    }
  }
}
