# Pumpkin-smash play engine in Dafny

A model of the puzzle editor and player in `main.js`: an N×N board whose
cells an author paints with region ids, and on which a player marks cells
`""` (empty), `X` (eliminated) and `P` (a piece, drawn as a pumpkin). With
auto-X mode on, placing a piece eliminates every empty cell in its row, its
column and its 8-neighbourhood, and a per-cell provenance flag (`autoXMap`)
records which `X` marks were made that way so that removing the piece can
take them back. Every change in play mode is followed by a check that marks
the pieces breaking the row, column, region and no-touching rules.

The model has three modules.

- `Marks` (marks.dfy): the `Mark` (`Empty`, `Cross`, `Piece` for `""`, `X`,
  `P`) and `Cell` (mark plus provenance flag) datatypes, and the effect of each
  play operation on one cell. Every operation of the engine treats each cell
  independently: the new mark and flag of cell (i, j) depend only on its old
  mark and flag, on where it lies relative to the clicked cell (r, c), and, for
  a click, on the old mark of (r, c). `InSweep` is the swept set (row, column,
  3×3 block), `AutoMark` the effect of `placeAutoX`, `AutoUnmark` that of
  `removeAutoX`, `Activated` that of one play click and `PaintX` that of drag
  painting. The lemmas state what these effects mean: the cycle, the exact set
  a sweep changes, the round trip, and the code's provenance quirks.
- `Constraints` (constraints.dfy): the conflict rule of `validateBoard` as a
  pure function `Conflicts(grid, board)` over the two matrices, with lemmas
  relating it to a pairwise "clash" relation.
- `Puzzle` (session.dfy): class `Session` holds the closure's variables as
  fields (`gridSize`, `currentRegionId`, `isPlayMode`, `autoXMode`,
  `isDragging`) and the three matrices as `array2` fields. Each handler is a
  method. The sweeps and the conflict scan keep the source's loops, each
  proved against the functions above: `PlaceAutoX` ensures every cell equals
  `AutoMark` of its old value, `CyclePlayCell` that every cell equals
  `Activated` of its old value, `ValidateBoard` that its result is
  `Conflicts` of the current matrices.

The code is followed where an idealised design of this engine would differ:

- The provenance flag is not cleared when a cell goes `X` → `P`
  (main.js:153-155), nor when it goes `P` → `""` with auto-X off
  (main.js:156-158). So a piece can carry a set flag, and a later removal
  sweep that reaches it wipes the piece (`StaleFlagWipesPiece`). An empty cell
  can also carry a set flag (`StaleFlagOnEmpty`).
- `removeAutoX` tests only the flag, never the mark (main.js:196, 200, 215).
- The flag is a boolean, so pieces do not share an auto-mark: removing one
  piece clears an `X` that another piece also reaches (`FlagNotShared`).
- Three clicks with auto-X off restore the flag as it was, which may be
  `true`; only with auto-X on does the clicked cell end with its flag clear.
- Entering play mode blanks marks and flags but keeps the regions; leaving
  play mode changes only the mode flag (main.js:322-338).
- `importPuzzle` checks only that the size is a number and the grid an array
  (main.js:278). It does no range or shape check. It does not reset
  `currentRegionId`: only the input box is set to 1 (main.js:291).
- The region-id handler refuses ids below 1 (main.js:318), so painting never
  writes region 0.

## Model

| member | source | states |
|---|---|---|
| `Marks.Next` | main.js:149-159 | a click always changes the mark of the clicked cell |
| `Marks.CycleCloses` | main.js:149-159 | the cycle is `""` → `X` → `P` → `""`, and three clicks bring any mark back |
| `Marks.ActivatedAdvances` | main.js:149-161 | whatever the auto mode, a click moves the clicked cell one step along the cycle |
| `Marks.AutoOffIsLocal` | main.js:149-161 | with auto-X off a click changes no other cell, and leaves the clicked cell's flag as it was |
| `Marks.ThreeClicksAutoOff` | main.js:149-161 | with auto-X off, three clicks on one cell restore every cell, mark and flag |
| `Marks.ThreeClicksAutoOnCentre` | main.js:149-222 | with auto-X on, three clicks on an empty cell leave it empty with its flag clear, whatever the flag was |
| `Marks.AutoMarkExactly` | main.js:163-192 | a placement sweep changes exactly the empty cells in the row, column and 3×3 block, each to `X` with flag set; after it a flag is set iff it was set before or the cell was an empty swept cell |
| `Marks.AutoUnmarkExactly` | main.js:194-222 | a removal sweep changes exactly the swept cells whose flag is set, whatever their mark, each to `""` with flag clear |
| `Marks.SweepsIdempotent` | main.js:163-222 | sweeping twice is sweeping once, so the overlap of the row, column and block loops is harmless |
| `Marks.PlaceThenRemove` | main.js:149-222 | with auto-X on, `X` → `P` then `P` → `""` on one cell restores every other cell when no swept flag was set beforehand, and leaves that cell `""` with flag clear |
| `Marks.ManualCrossSurvives` | main.js:163-222 | a manual `X` (flag clear) is never changed by any placement or removal sweep |
| `Marks.StaleFlagWipesPiece` | main.js:149-222 | an auto-`X` clicked into a piece keeps its flag, and a removal sweep reaching it clears that piece |
| `Marks.StaleFlagOnEmpty` | main.js:156-158 | with auto-X off, `P` → `""` leaves a set flag on an empty cell |
| `Marks.FlagNotShared` | main.js:163-222 | an empty cell swept by two placements is cleared by removing the first one |
| `Marks.PaintXProperties` | main.js:137-142 | drag painting changes a mark iff it is `""`, only to `X`, and is idempotent |
| `Constraints.Conflicts` | main.js:229-268 | only in-bounds cells holding a piece are ever flagged |
| `Constraints.AttacksSymmetric` | main.js:237-265 | if one piece clashes with another, the other clashes with it |
| `Constraints.ClashingPairConflicts` | main.js:229-268 | two distinct pieces sharing a row, a column or a region id (0 included), or touching, are both flagged |
| `Constraints.ConflictsPaired` | main.js:229-268 | every flagged piece has another flagged piece beside it in the set |
| `Constraints.NeverOneConflict` | main.js:229-268 | the conflict set never holds exactly one cell |
| `Constraints.LonePieceNoConflict` | main.js:229-268 | with at most one piece on the board nothing is flagged |
| `Constraints.NoConflictIffNonAttacking` | main.js:229-268 | nothing is flagged iff no two pieces clash |
| `Puzzle.Session.constructor` | main.js:2-11 | the start state: size 8, region id 1, authoring mode, auto-X off, not dragging, all three matrices blank |
| `Puzzle.Session.InitGrid` | main.js:32-43 | fresh regions all 0, marks all `""`, flags all false, at the current size; nothing else changes |
| `Puzzle.Session.SetGridSize` | main.js:302-314 | a size in [4, 20] is taken, sets the region id to 1 and blanks all three matrices; any other size changes nothing; the mode flags are kept |
| `Puzzle.Session.SetRegionId` | main.js:316-320 | an id is taken iff it is at least 1; nothing else changes |
| `Puzzle.Session.ToggleMode` | main.js:322-338 | the mode flips; entering play mode blanks marks and flags; leaving it changes only the mode; regions and auto-X are kept |
| `Puzzle.Session.ToggleAutoX` | main.js:340-345 | auto-X mode flips and nothing else changes |
| `Puzzle.Session.PaintRegion` | main.js:144-147 | cell (r, c) takes the current region id; no other region, mark or flag changes |
| `Puzzle.Session.PlaceAutoX` | main.js:163-192 | every cell ends as `AutoMark` of its old mark and flag; the regions are untouched |
| `Puzzle.Session.RemoveAutoX` | main.js:194-222 | every cell ends as `AutoUnmark` of its old mark and flag; the regions are untouched |
| `Puzzle.Session.CyclePlayCell` | main.js:149-161 | every cell ends as `Activated` of its old mark and flag, given the clicked cell's old mark and the auto mode |
| `Puzzle.Session.PlaceAndRetract` | main.js:149-222 | on the session: with auto-X on, clicking an `X` cell twice (to `P`, then to `""`) when no swept flag is set restores every other cell and leaves that cell `""` with flag clear |
| `Puzzle.Session.OnCellClick` | main.js:114-120 | in play mode a click cycles the cell and keeps the regions; in authoring mode it paints only the region of (r, c) and keeps every mark and flag |
| `Puzzle.Session.PaintXIfEmpty` | main.js:137-142 | only (r, c) may change, from `""` to `X`; no flag changes |
| `Puzzle.Session.OnDragStart` | main.js:122-126 | in play mode dragging starts and (r, c) is painted; in authoring mode nothing changes |
| `Puzzle.Session.OnDragOver` | main.js:128-131 | (r, c) is painted only while dragging in play mode; otherwise nothing changes |
| `Puzzle.Session.OnMouseUp` | main.js:133-135 | dragging always stops |
| `Puzzle.Session.PieceInvalid` | main.js:231-266 | the row, column, region and neighbour scans of one piece report a clash iff the piece is in conflict |
| `Puzzle.Session.ValidateBoard` | main.js:224-269 | the cells the scan marks invalid are exactly `Conflicts` of the current regions and marks |
| `Puzzle.Session.ExportPuzzle` | main.js:271-273 | the exported structure is the size and a copy of the region matrix |
| `Puzzle.Session.ImportPuzzle` | main.js:275-300 | the regions are replaced by the given matrix, marks and flags blanked, authoring mode entered; region id, auto-X and dragging are kept |

## Left out

- Rendering (`renderGrid`, main.js:45-112): cell elements, colours, region
  borders, text. Its call of `validateBoard` in play mode is modelled as the
  separate method `ValidateBoard`, which the caller runs after each change.
- The DOM side of `validateBoard` (clearing and adding the `invalid` class,
  main.js:225-227, 233-235): the model returns the set of invalid cells.
- `getColorForRegion` and the colour cache `regionColors` (main.js:10,
  22-30, 295, 308): display only, and built on floating point.
- The JSON text of export and import, `JSON.parse` errors, the clipboard and
  the alerts (main.js:271-300, 347-358): the model takes and gives the
  structure (size and region matrix) the text encodes.
- Input-box and button-label writes (main.js:290-294, 307, 312, 319, 325-335,
  342-344): user-interface echo of state the model holds.
- Event-listener wiring (main.js:104-107, 133, 302, 316, 322, 340): the
  handlers are methods; how one physical click is split into mousedown,
  mouseup and click events is the browser's business.
- Puzzle.Session.SetGridSize: takes the size as an integer; the source reads
  it with `+value`, so a fractional number such as 4.5 would pass the range
  check and then fail in `Array(gridSize)`, and that path is not modelled.
- Puzzle.Session.SetRegionId: takes the id as an integer; a fractional id
  accepted by the source is not modelled.
- Puzzle.Session.ImportPuzzle: requires a square matrix of the given size
  because a Dafny array must have one; the source accepts any array and any
  number, so a mismatched or negative size, and the partial update that a
  failing `Array(gridSize)` would leave, are not modelled.
- Puzzle.Session.ToggleAutoX: the source hides the auto-X button outside
  play mode (main.js:294, 326, 335); the model does not restrict when the
  toggle can be called.
- The out-of-bounds coordinates the handlers never receive: every handler
  requires (r, c) inside the grid, as the rendered cells guarantee.
