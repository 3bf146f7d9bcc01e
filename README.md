# tetris_clone core in Dafny

A model of the game core of `tetris_clone`, a small Rust Tetris clone. It covers:

- integer grid vectors and their quarter-turn rotations about a cell or a lattice corner;
- the seven tetrominoes: templates, rotation kinds, occupied cells and colours;
- the 10 x 22 playfield of orphan blocks, with the placement check, locking and orphan enumeration;
- the `BinaryAxis` press/release edge tracker;
- the four-arrow `TetrisInput` dispatcher.

Files and modules:

| file | module | source |
|---|---|---|
| `intvector.dfy` | `IntVector` | `src/engine/intvector.rs` |
| `pieces.dfy` | `Pieces` | `src/tetris/tetromino.rs`, plus the geometry shared with `src/tetris/tetris_piece.rs` |
| `tetris_piece.dfy` | `TetrisPiece` | the colour table of `src/tetris/tetris_piece.rs` |
| `playfield.dfy` | `Playfield` | `src/tetris/playfield.rs` |
| `button.dfy` | `Button` | `src/button.rs` |
| `tetris_input.dfy` | `TetrisInput` | `src/tetris/tetris_input.rs` and `src/game_input/mod.rs` |

How the model is shaped:

- **Values.** Vectors, rotations and pieces are immutable in the source, so they are datatypes and functions.
- **Playfield.** `Playfield` keeps its cells in an `array2`. Its methods are proved against functions on a grid value (`Grid`, `Locked`, `ValidOn`, `Orphans`).
- **Input objects.** `BinaryAxis` and `TetrisInput` are classes with the fields the source updates. Their methods are proved against the value-level `AxisState` and `Axes`.
- **Two copies.** `src/tetris/tetris_piece.rs` and `src/tetris/tetromino.rs` hold the same piece code at the same line numbers, with four differences: the colour table (lines 23-29), the struct name (`TetrisPiece` against `Tetromino`, lines 35 and 41), the name of one variant (`RBlock` against `JBlock`, lines 14, 26, 44 and 56; it is `JBlock` here) and the path of the vector import (`::core::intvector` against `::engine::intvector`, line 7). `src/game_input/mod.rs` has the same code as `src/tetris/tetris_input.rs`, at the same line numbers. The two differ only in the path of the axis type: `::core::BinaryAxis` in one, `button::BinaryAxis` in the other. Both copies share one model.

**The O block, as written.** `get_occupied_cells` returns the O block's template without adding the piece's position (`src/tetris/tetromino.rs:52`). The model does the same: an O piece always occupies (0,0), (0,1), (1,0) and (1,1), whatever its position (`Pieces.OBlockIgnoresPositionAndOrientation`). A description of the game would place every piece relative to its position. Here the model follows the code.

## Model

| member | source | states |
|---|---|---|
| IntVector.Add | src/engine/intvector.rs:44-53 | definition, no contract: componentwise sum |
| IntVector.Sub | src/engine/intvector.rs:55-64 | definition, no contract: componentwise difference |
| IntVector.Zero | src/engine/intvector.rs:67-72 | definition, no contract: the vector (0, 0) |
| IntVector.IsZero | src/engine/intvector.rs:74-76 | definition, no contract: both coordinates are zero |
| IntVector.RotateAroundCell | src/engine/intvector.rs:17-28 | definition, no contract: the relative vector turned by the match table and added back to the pivot cell |
| IntVector.RotateAroundCorner | src/engine/intvector.rs:30-41 | definition, no contract: the same with the -1 corrections of the corner pivot |
| IntVector.RotatedRight | src/engine/intvector.rs:88-95 | definition, no contract: the clockwise step table |
| IntVector.RotatedLeft | src/engine/intvector.rs:97-104 | definition, no contract: the counter-clockwise step table |
| IntVector.SubThenAdd | src/engine/intvector.rs:44-64 | subtraction and addition of vectors undo each other |
| IntVector.ZeroIsIdentity | src/engine/intvector.rs:44-77 | the zero vector is neutral for addition and subtraction, and `is_zero` holds of it |
| IntVector.IsZeroIff | src/engine/intvector.rs:66-77 | `is_zero` holds exactly of the vector with both coordinates 0 |
| IntVector.StepsAreQuarterTurns | src/engine/intvector.rs:87-104 | `rotated_left` adds one counter-clockwise quarter turn, `rotated_right` three (removes one) |
| IntVector.LeftRightInverse | src/engine/intvector.rs:87-104 | `rotated_left` and `rotated_right` are inverse to each other |
| IntVector.RotatedLeftTimesCounts | src/engine/intvector.rs:97-104 | `n` left steps add `n` quarter turns modulo 4 |
| IntVector.RotatedRightTimesCounts | src/engine/intvector.rs:88-95 | `n` right steps add `3n` quarter turns modulo 4 |
| IntVector.StepPeriodFour | src/engine/intvector.rs:87-104 | four steps in either direction give back the starting rotation |
| IntVector.RotateZeroIsIdentity | src/engine/intvector.rs:17-41 | `Rotate0` leaves a vector unchanged under both rotation maps |
| IntVector.PivotCellIsFixed | src/engine/intvector.rs:17-28 | the pivot cell is a fixed point of every cell rotation |
| IntVector.CellRotationsCompose | src/engine/intvector.rs:17-28 | two cell rotations about one pivot are one rotation by the sum of their quarter turns |
| IntVector.CornerRotationsCompose | src/engine/intvector.rs:30-41 | the same for corner rotations, including the -1 corrections |
| IntVector.CellRotationTimes | src/engine/intvector.rs:17-28 | `n` cell rotations by `r` are one rotation by `n` times its quarter turns |
| IntVector.CornerRotationTimes | src/engine/intvector.rs:30-41 | `n` corner rotations by `r` are one rotation by `n` times its quarter turns |
| IntVector.CellQuarterTurnLaws | src/engine/intvector.rs:17-28 | 90 then 90 is 180, three 90s are 270, four 90s are the identity (cell map) |
| IntVector.CornerQuarterTurnLaws | src/engine/intvector.rs:30-41 | 90 then 90 is 180, three 90s are 270, four 90s are the identity (corner map) |
| IntVector.FourRotationsAreIdentity | src/engine/intvector.rs:17-41 | any rotation applied four times about a cell or corner is the identity |
| IntVector.OppositeUndoes | src/engine/intvector.rs:17-41 | the opposite rotation inverts each map for a fixed pivot |
| IntVector.RotationsInjective | src/engine/intvector.rs:17-41 | for a fixed pivot and rotation both maps are injective |
| IntVector.RotationsCommuteWithTranslation | src/engine/intvector.rs:17-53 | translating point and pivot by `d` translates the rotated point by `d` |
| IntVector.RotationsStayInI8 | src/engine/intvector.rs:16-41 | for coordinates in [-32, 32) the relative vector, its negation, the rotated vector and the result all fit in `i8` |
| Pieces.Kind | src/tetris/tetromino.rs:51-60 | definition, no contract: O is fixed, I turns about the corner (`true`), the rest about the cell (`false`) |
| Pieces.Template | src/tetris/tetromino.rs:52-59 | definition of the seven templates of the match; the contract states only that each has four cells |
| Pieces.PlaceCell | src/tetris/tetromino.rs:62-71 | definition, no contract: one loop step, the entry turned about the pivot of its kind and moved by the position |
| Pieces.OccupiedCells | src/tetris/tetromino.rs:50-74 | definition: the O template as it is, or each template cell placed, in template order; the contract states only that there are four cells |
| Pieces.PieceRotatedRight | src/tetris/tetromino.rs:76-82 | definition, no contract: the piece with its orientation stepped right |
| Pieces.PieceRotatedLeft | src/tetris/tetromino.rs:84-90 | definition, no contract: the piece with its orientation stepped left |
| Pieces.Color | src/tetris/tetromino.rs:21-31 | definition, no contract: the `Tetromino` colour table |
| Pieces.PieceColor | src/tetris/tetromino.rs:92-94 | definition, no contract: the colour of the piece's type |
| Pieces.GetOccupiedCells | src/tetris/tetromino.rs:50-74 | the cells computed with the in-place loops are the piece's occupied cells |
| Pieces.PlaceEntries | src/tetris/tetromino.rs:62-71 | after either loop, entry `i` is template cell `i` rotated about the right pivot and moved by the position |
| Pieces.NewRandom | src/tetris/tetromino.rs:42-48 | a new piece is unrotated, at the given position, and of the type the pick selects from the choice list |
| Pieces.NewRandomReachesEveryType | src/tetris/tetromino.rs:44 | every one of the seven types is some pick of the choice list |
| Pieces.OBlockIgnoresPositionAndOrientation | src/tetris/tetromino.rs:52 | an O piece occupies its template cells for every position and orientation |
| Pieces.OccupiedCellsByKind | src/tetris/tetromino.rs:54-71 | I cells are the template turned about corner (1,0); L, J, S, Z and T cells are the template turned about (0,0); each is then moved by the position, in template order |
| Pieces.OccupiedCellAt | src/tetris/tetromino.rs:62-71 | cell `i` of a rotating piece is template cell `i` placed |
| Pieces.TemplateDistinct | src/tetris/tetromino.rs:52-59 | each template has four distinct cells |
| Pieces.PlacedCellsDistinct | src/tetris/tetromino.rs:62-71 | placing four distinct template cells gives four distinct cells |
| Pieces.CellsPairwiseDistinct | src/tetris/tetromino.rs:50-74 | every piece occupies four pairwise distinct cells |
| Pieces.MovingShiftsCells | src/tetris/tetromino.rs:62-71 | for a rotating type, moving the piece by `d` moves every cell by `d` |
| Pieces.RotatingTurnsPlacedCell | src/tetris/tetromino.rs:62-90 | rotating a piece left or right turns each placed template cell 90 or 270 degrees about the piece's pivot |
| Pieces.CellTurnAfterPlacing | src/tetris/tetromino.rs:68-70 | turning a placed cell about the position composes with the orientation's turn about (0,0) |
| Pieces.CornerTurnAfterPlacing | src/tetris/tetromino.rs:63-65 | turning a placed cell about position + (1,0) composes with the orientation's turn about the corner |
| Pieces.RotatingTurnsCells | src/tetris/tetromino.rs:50-90 | cell `i` of the rotated piece is cell `i` of the piece turned about its pivot: the position for L/J/S/Z/T, position + (1,0) for I |
| Pieces.RotationsChangeOnlyOrientation | src/tetris/tetromino.rs:76-90 | `rotated_left/right` keep type and position, step the orientation, and undo each other |
| Pieces.PieceRotatedRightTimesOrientation | src/tetris/tetromino.rs:76-82 | `n` right rotations change only the orientation, by `n` steps |
| Pieces.FourRightRotations | src/tetris/tetromino.rs:76-82 | four right rotations give back the same piece and the same cells |
| Pieces.ColorIdentifiesType | src/tetris/tetromino.rs:21-31 | in the `Tetromino` table the colour depends only on the type, and distinct types have distinct colours |
| TetrisPiece.Color | src/tetris/tetris_piece.rs:21-31 | definition, no contract: the `TetrisPiece` colour table |
| TetrisPiece.PieceColor | src/tetris/tetris_piece.rs:92-94 | definition, no contract: the colour of the piece's type in that table |
| TetrisPiece.ColorIdentifiesType | src/tetris/tetris_piece.rs:21-31 | in the `TetrisPiece` table the colour depends only on the type, and distinct types have distinct colours |
| Playfield.FreeCell | src/tetris/playfield.rs:33-49 | definition, no contract: non-negative, below both dimensions, and empty |
| Playfield.ValidOn | src/tetris/playfield.rs:30-53 | definition, no contract: all four occupied cells are free |
| Playfield.Filled | src/tetris/playfield.rs:58-61 | definition: the grid with the block written into the listed cells; the contract states only that it stays 10 x 22 |
| Playfield.Locked | src/tetris/playfield.rs:55-62 | definition: the grid filled with an orphan of the piece's colour at its occupied cells; the contract states only that it stays 10 x 22 |
| Playfield.CellOrphans | src/tetris/playfield.rs:65-72 | definition, no contract: the filter step, one orphan for a filled cell and none for an empty one |
| Playfield.ColumnOrphans | src/tetris/playfield.rs:64-73 | definition, no contract: the orphans of one column below a bound, in increasing y |
| Playfield.OrphansBefore | src/tetris/playfield.rs:64-73 | definition, no contract: the orphans of the first columns, column by column |
| Playfield.Orphans | src/tetris/playfield.rs:64-73 | definition, no contract: the orphans of the whole grid in storage order |
| Playfield.EmptyGrid | src/tetris/playfield.rs:15-19 | the default grid is 10 x 22 with every cell empty |
| Playfield.EmptyGridHasNoOrphans | src/tetris/playfield.rs:15-19 | a new playfield yields no orphans |
| Playfield.NoBlocksNoColumnOrphans | src/tetris/playfield.rs:64-73 | a column with no blocks yields no orphans |
| Playfield.NoBlocksNoOrphans | src/tetris/playfield.rs:64-73 | columns with no blocks yield no orphans |
| Playfield.Playfield.NewEmpty | src/tetris/playfield.rs:15-19 | the new array is 10 x 22 and holds the empty grid |
| Playfield.Playfield.SpawnLocation | src/tetris/playfield.rs:21-23 | the spawn location is (5, 20) |
| Playfield.SpawnFitsEmptyPlayfield | src/tetris/playfield.rs:21-23 | every type spawned unrotated at the spawn location passes the placement check on an empty field |
| Pieces.UnrotatedCells | src/tetris/tetromino.rs:62-71 | an unrotated rotating piece sits on its template moved by its position |
| Pieces.UnrotatedPlace | src/tetris/tetromino.rs:62-71 | with orientation `Rotate0` a template cell is placed at the position plus the cell |
| Pieces.TemplateSpan | src/tetris/tetromino.rs:52-59 | template coordinates lie in x in [-1, 2] and y in [0, 1] |
| Playfield.Playfield.VisibleDimensions | src/tetris/playfield.rs:26-28 | the visible area is 10 x 20 |
| Playfield.Playfield.IsValidPlacement | src/tetris/playfield.rs:30-53 | the result is true exactly when every occupied cell is non-negative, inside both dimensions and empty |
| Playfield.Playfield.CellsFree | src/tetris/playfield.rs:31-50 | the early-return loop answers whether all four cells are free |
| Playfield.LockedPieceIsNoLongerValid | src/tetris/playfield.rs:30-62 | right after locking, the same piece fails the placement check |
| Playfield.Playfield.LockTetromino | src/tetris/playfield.rs:55-62 | the new grid has an orphan of the piece's colour in each occupied cell; every other cell is unchanged |
| Playfield.Playfield.FillCells | src/tetris/playfield.rs:58-61 | the loop writes the block into exactly the listed cells |
| Playfield.FilledByCells | src/tetris/playfield.rs:58-61 | a grid holding the block in the listed cells and the old contents elsewhere is the filled grid |
| Playfield.LockedCells | src/tetris/playfield.rs:55-62 | a locked grid has the piece's colour in its cells and the old contents elsewhere |
| Playfield.LockingOnEmptyGrid | src/tetris/playfield.rs:55-73 | locking on an empty field gives exactly the piece's cells as orphans, all of its colour |
| Playfield.Playfield.IterOrphans | src/tetris/playfield.rs:64-73 | the walk over the array yields the grid's orphans in storage order |
| Playfield.OrphansAreOccupiedCells | src/tetris/playfield.rs:64-73 | a (cell, block) pair is yielded exactly when the cell is in the grid and holds that block |
| Playfield.OrphansInStorageOrder | src/tetris/playfield.rs:64-73 | orphans come in x-major, then y order, so no cell is yielded twice |
| Playfield.ColumnOrphansSound | src/tetris/playfield.rs:64-73 | every orphan of a column prefix is a filled cell of it, with that cell's block |
| Playfield.ColumnOrphansComplete | src/tetris/playfield.rs:64-73 | every filled cell of a column prefix is among its orphans |
| Playfield.OrphansBeforeSound | src/tetris/playfield.rs:64-73 | every orphan of the first `m` columns is a filled cell of them, with that cell's block |
| Playfield.OrphansBeforeComplete | src/tetris/playfield.rs:64-73 | every filled cell of the first `m` columns is among their orphans |
| Playfield.ColumnOrphansOrdered | src/tetris/playfield.rs:64-73 | one column's orphans come in increasing y |
| Playfield.OrphansBeforeOrdered | src/tetris/playfield.rs:64-73 | the orphans of the first `m` columns come in storage order |
| Button.Released | src/button.rs:15-24 | a new axis is released, with both frame counts 0, and reports no press |
| Button.BinaryAxis.constructor | src/button.rs:15-24 | the new object holds the released state |
| Button.AxisState.Pressed | src/button.rs:48-50 | definition, no contract: the hold flag |
| Button.AxisState.PressedThisFrame | src/button.rs:51-53 | definition, no contract: held, with fewer than 2 frames in the state |
| Button.AxisState.StateChanged | src/button.rs:26-41 | after a report the hold flag matches it; a matching report changes nothing; a differing one moves the frame count to `framesInPrevious` and restarts it at 0 |
| Button.BinaryAxis.StateChange | src/button.rs:26-41 | the fields become the state-changed value of the old fields |
| Button.StateChangeIdempotent | src/button.rs:32 | reporting the same state twice is reporting it once |
| Button.StateChangeDecidesPressed | src/button.rs:26-41 | after a report the axis is pressed exactly when the report was a press; a release is never a fresh press |
| Button.AxisState.Updated | src/button.rs:43-46 | one frame adds exactly 1 to the frame count and keeps the hold flag and previous count |
| Button.BinaryAxis.Update | src/button.rs:43-46 | the fields become the updated value of the old fields |
| Button.UpdatedTimesCounts | src/button.rs:43-46 | `n` frames add `n` to the frame count and change nothing else |
| Button.BinaryAxis.Pressed | src/button.rs:48-50 | `pressed` reports the hold flag |
| Button.BinaryAxis.PressedThisFrame | src/button.rs:51-53 | `pressed_this_frame` implies `pressed`, and holds exactly when held with fewer than 2 frames counted |
| Button.PressedThisFrameImpliesPressed | src/button.rs:48-53 | the edge predicate implies the level predicate and is held-and-under-2-frames |
| Button.PressThenUpdates | src/button.rs:32-53 | after release-to-press and then `n` frames, the axis is pressed, is a fresh press exactly when `n < 2`, and remembers the released frame count |
| Button.RepeatedReportAfterFrame | src/button.rs:26-46 | repeating a report after a frame produces no new edge |
| TetrisInput.RouteOf | src/tetris/tetris_input.rs:29-39 | an event reaches an axis exactly when it is an arrow-key button event, and carries its press/release |
| TetrisInput.RoutesToItsOwnAxis | src/tetris/tetris_input.rs:31-35 | each arrow key is routed to its own axis |
| TetrisInput.FreshAxes | src/tetris/tetris_input.rs:13-20 | the four axes start released |
| TetrisInput.TetrisInput.constructor | src/tetris/tetris_input.rs:13-20 | four fresh, distinct, released axes |
| TetrisInput.Axes.Ticked | src/tetris/tetris_input.rs:22-27 | every axis counts exactly one frame |
| TetrisInput.TetrisInput.Update | src/tetris/tetris_input.rs:22-27 | each of the four axis objects is updated once |
| TetrisInput.Axes.Handled | src/tetris/tetris_input.rs:29-39 | the routed axis records the report and the others are unchanged |
| TetrisInput.TetrisInput.HandleInput | src/tetris/tetris_input.rs:29-39 | the axis objects change as `Handled` says: only the matching axis changes |
| TetrisInput.IgnoredInputsChangeNothing | src/tetris/tetris_input.rs:30-36 | non-button events, non-keyboard buttons and other keys leave all four axes unchanged |
| TetrisInput.HandledIdempotent | src/tetris/tetris_input.rs:29-39 | handling the same event twice in a row is handling it once |
| TetrisInput.DistinctAxesCommute | src/tetris/tetris_input.rs:31-35 | events for two different axes can be handled in either order |

## Left out

- Rendering, the window and event loop, and the application driver (`src/tetris/app.rs`, `src/tetris/render/`, `src/main.rs`): these are I/O outside the core.
- `src/engine/mod.rs` and `src/core/mod.rs`: each defines the `App` trait and `exec`, the event loop. `exec` buffers the window's `Input` events and hands each batch to `App::update` once per update event. The event loop and the window I/O are outside the core.
- `new_random`'s random number generator. The model takes the pick as an index into the source's list, so uniformity is not expressed.
- `BinaryAxis.update`'s `dt` and the float fields `time_in_state` and `time_in_previous`: floating-point accumulation is not modelled, so `dt` is not a parameter.
- Button.BinaryAxis.Update: the `u32` frame counter is an unbounded `nat`, so the overflow after 2^32 frames is not modelled.
- IntVector.RotationsStayInI8: `i8` wrap-around is not modelled. Coordinates are unbounded integers. The lemma shows that no intermediate leaves the `i8` range for coordinates in [-32, 32), which covers the whole playfield.
- Playfield.Playfield.LockTetromino: it requires every cell to be inside the grid. Outside the grid the source panics when it indexes the array, and the model does not represent that panic.
- Pieces.GetOccupiedCells: the source rewrites a fixed-size array in place. The model copies the template into a local `array` in `Pieces.PlaceEntries` and returns it as a sequence.
- Playfield.Playfield.IterOrphans: the lazy iterator is modelled as a method that builds the whole sequence in storage order, and blocks are returned by value rather than by reference.
- `src/game_input/mod.rs`: its `new`, `update` and `handle_input` are the code of `src/tetris/tetris_input.rs`, at the same line numbers, apart from the path of the axis type (lines 2, 6-9 and 15-18). The `TetrisInput` rows cover both copies.
- The axis type of the dispatchers: both dispatchers' axes are taken to be the `BinaryAxis` of `src/button.rs`. `src/tetris/tetris_input.rs` uses `::core::BinaryAxis`, from `src/core/binary_axis.rs`. `src/game_input/mod.rs` uses `button::BinaryAxis`, from `src/game_input/button.rs`. Neither file is part of this model, and no module declaration in `src/main.rs` or `src/core/mod.rs` names `src/button.rs`.
- `src/tetris/tetris_piece.rs`: its `new_random`, `get_occupied_cells`, `rotated_left` and `rotated_right` have the same code as those of `src/tetris/tetromino.rs`, at the same line numbers, apart from the struct and variant names. The `Pieces` rows cover both copies. The colour table, the one difference in behaviour within the file, has its own rows.
- `::core::intvector` (imported at `src/tetris/tetris_piece.rs:7`) is not part of this model: no such module is among the source files modelled. The model takes the `IntVector2` and `CardinalRotation` of `TetrisPiece` to be those of `src/engine/intvector.rs`, which `Tetromino` imports; if that module differs, the `Pieces` rows do not cover `TetrisPiece`.
- Input events are reduced to arrow keys, other keys, mouse and controller buttons, and a single "other input" case. Only the arrow keys are distinguished.
- There is no `moved` operation on pieces and no game state machine (spawning, gravity, locking on landing) in the core files. Moving a piece is changing its `position` (see `Pieces.MovingShiftsCells`).
