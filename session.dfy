/**
 * The editor and player session: the module-level state of the source's
 * closure (grid size, current region id, the mode flags, the region matrix
 * `puzzleGrid`, the mark matrix `boardState` and the provenance matrix
 * `autoXMap`) and the handlers that change it.
 */
module Puzzle {
  import opened Marks
  import opened Constraints

  class Session {
    var gridSize: nat
    var currentRegionId: int
    var isPlayMode: bool
    var autoXMode: bool
    var isDragging: bool
    var puzzleGrid: array2<int>
    var boardState: array2<Mark>
    var autoXMap: array2<bool>

    /** The three matrices are gridSize x gridSize, and the region painted next is at least 1. */
    ghost predicate Valid()
      reads this
    {
      && puzzleGrid.Length0 == gridSize && puzzleGrid.Length1 == gridSize
      && boardState.Length0 == gridSize && boardState.Length1 == gridSize
      && autoXMap.Length0 == gridSize && autoXMap.Length1 == gridSize
      && currentRegionId >= 1
    }

    /** Mark and provenance flag of cell (i, j). */
    ghost function At(i: int, j: int): Cell
      reads this, boardState, autoXMap
      requires Valid() && 0 <= i < gridSize && 0 <= j < gridSize
    {
      Cell(boardState[i, j], autoXMap[i, j])
    }

    /** Every region id is 0 (unassigned). */
    ghost predicate GridBlank()
      reads this, puzzleGrid
      requires Valid()
    {
      forall i, j :: 0 <= i < gridSize && 0 <= j < gridSize ==> puzzleGrid[i, j] == 0
    }

    /** Every mark is "" and every provenance flag is false. */
    ghost predicate BoardBlank()
      reads this, boardState, autoXMap
      requires Valid()
    {
      forall i, j :: 0 <= i < gridSize && 0 <= j < gridSize ==> At(i, j) == Cell(Empty, false)
    }

    static method NewRegions(n: nat) returns (g: array2<int>)
      ensures fresh(g) && g.Length0 == n && g.Length1 == n
      ensures forall i, j :: 0 <= i < n && 0 <= j < n ==> g[i, j] == 0
    {
      g := new int[n, n]((i, j) => 0);
    }

    static method NewMarks(n: nat) returns (b: array2<Mark>)
      ensures fresh(b) && b.Length0 == n && b.Length1 == n
      ensures forall i, j :: 0 <= i < n && 0 <= j < n ==> b[i, j] == Empty
    {
      b := new Mark[n, n]((i, j) => Empty);
    }

    static method NewFlags(n: nat) returns (f: array2<bool>)
      ensures fresh(f) && f.Length0 == n && f.Length1 == n
      ensures forall i, j :: 0 <= i < n && 0 <= j < n ==> !f[i, j]
    {
      f := new bool[n, n]((i, j) => false);
    }

    /** The state when the page loads: an 8x8 blank puzzle in authoring mode (main.js:2-11, 360). */
    constructor ()
      ensures Valid() && fresh(puzzleGrid) && fresh(boardState) && fresh(autoXMap)
      ensures gridSize == 8 && currentRegionId == 1
      ensures !isPlayMode && !autoXMode && !isDragging
      ensures GridBlank() && BoardBlank()
    {
      gridSize := 8;
      currentRegionId := 1;
      isPlayMode := false;
      autoXMode := false;
      isDragging := false;
      var regions := NewRegions(8);
      var marks := NewMarks(8);
      var flags := NewFlags(8);
      puzzleGrid, boardState, autoXMap := regions, marks, flags;
    }

    /** `initGrid`: fresh blank matrices of the current size; nothing else changes. */
    method InitGrid()
      requires currentRegionId >= 1
      modifies this`puzzleGrid, this`boardState, this`autoXMap
      ensures Valid() && fresh(puzzleGrid) && fresh(boardState) && fresh(autoXMap)
      ensures GridBlank() && BoardBlank()
    {
      puzzleGrid := NewRegions(gridSize);
      boardState := NewMarks(gridSize);
      autoXMap := NewFlags(gridSize);
    }

    /**
     * The grid-size input handler: a size in [4, 20] is taken, resets the
     * region id to 1 and blanks all three matrices; any other size changes
     * nothing. The mode flags are kept either way.
     */
    method SetGridSize(v: int) returns (accepted: bool)
      requires Valid()
      modifies this
      ensures Valid()
      ensures accepted <==> 4 <= v <= 20
      ensures accepted ==> gridSize == v && currentRegionId == 1
      ensures accepted ==> fresh(puzzleGrid) && fresh(boardState) && fresh(autoXMap)
      ensures accepted ==> GridBlank() && BoardBlank()
      ensures !accepted ==> unchanged(this)
      ensures isPlayMode == old(isPlayMode) && autoXMode == old(autoXMode) && isDragging == old(isDragging)
    {
      accepted := 4 <= v <= 20;
      if accepted {
        gridSize := v;
        currentRegionId := 1;
        InitGrid();
      }
    }

    /** The region-id input handler: an id of at least 1 is taken, anything else is refused. */
    method SetRegionId(v: int) returns (accepted: bool)
      requires Valid()
      modifies this`currentRegionId
      ensures Valid()
      ensures accepted <==> v >= 1
      ensures currentRegionId == if accepted then v else old(currentRegionId)
    {
      accepted := v >= 1;
      if accepted {
        currentRegionId := v;
      }
    }

    /**
     * The mode toggle: entering play mode blanks the marks and the flags;
     * leaving it changes only the mode. The regions and autoXMode are kept.
     */
    method ToggleMode()
      requires Valid()
      modifies this`isPlayMode, this`boardState, this`autoXMap
      ensures Valid()
      ensures isPlayMode == !old(isPlayMode)
      ensures isPlayMode ==> fresh(boardState) && fresh(autoXMap) && BoardBlank()
      ensures !isPlayMode ==> boardState == old(boardState) && autoXMap == old(autoXMap)
    {
      isPlayMode := !isPlayMode;
      if isPlayMode {
        boardState := NewMarks(gridSize);
        autoXMap := NewFlags(gridSize);
      }
    }

    /** The auto-X toggle button. */
    method ToggleAutoX()
      modifies this`autoXMode
      ensures autoXMode == !old(autoXMode)
    {
      autoXMode := !autoXMode;
    }

    /** `paintRegion`: cell (r, c) takes the current region id; no other region changes. */
    method PaintRegion(r: int, c: int)
      requires Valid() && 0 <= r < gridSize && 0 <= c < gridSize
      modifies puzzleGrid
      ensures forall i, j :: 0 <= i < gridSize && 0 <= j < gridSize ==>
        puzzleGrid[i, j] == if (i, j) == (r, c) then currentRegionId else old(puzzleGrid[i, j])
    {
      puzzleGrid[r, c] := currentRegionId;
    }

    /** `placeAutoX`: every empty cell in the sweep of (r, c) becomes an auto-X; see `Marks.AutoMark`. */
    method PlaceAutoX(r: int, c: int)
      requires Valid() && 0 <= r < gridSize && 0 <= c < gridSize
      modifies boardState, autoXMap
      ensures forall i, j :: 0 <= i < gridSize && 0 <= j < gridSize ==>
        At(i, j) == AutoMark(r, c, i, j, old(At(i, j)))
    {
      for i := 0 to gridSize
        invariant forall a, b :: 0 <= a < gridSize && 0 <= b < gridSize ==>
          At(a, b) == if (a == r && b < i) || (b == c && a < i) then AutoMark(r, c, a, b, old(At(a, b))) else old(At(a, b))
      {
        if boardState[r, i] == Empty {
          boardState[r, i] := Cross;
          autoXMap[r, i] := true;
        }
        if boardState[i, c] == Empty {
          boardState[i, c] := Cross;
          autoXMap[i, c] := true;
        }
      }
      for dr := -1 to 2
        invariant forall a, b :: 0 <= a < gridSize && 0 <= b < gridSize ==>
          At(a, b) == if a == r || b == c || (r - 1 <= a < r + dr && Near(r, c, a, b))
                      then AutoMark(r, c, a, b, old(At(a, b))) else old(At(a, b))
      {
        for dc := -1 to 2
          invariant forall a, b :: 0 <= a < gridSize && 0 <= b < gridSize ==>
            At(a, b) == if a == r || b == c || (r - 1 <= a < r + dr && Near(r, c, a, b)) || (a == r + dr && c - 1 <= b < c + dc)
                        then AutoMark(r, c, a, b, old(At(a, b))) else old(At(a, b))
        {
          if dr == 0 && dc == 0 {
            continue;
          }
          var nr, nc := r + dr, c + dc;
          if 0 <= nr < gridSize && 0 <= nc < gridSize && boardState[nr, nc] == Empty {
            boardState[nr, nc] := Cross;
            autoXMap[nr, nc] := true;
          }
        }
      }
    }

    /** `removeAutoX`: every swept cell whose flag is set is cleared, whatever its mark; see `Marks.AutoUnmark`. */
    method RemoveAutoX(r: int, c: int)
      requires Valid() && 0 <= r < gridSize && 0 <= c < gridSize
      modifies boardState, autoXMap
      ensures forall i, j :: 0 <= i < gridSize && 0 <= j < gridSize ==>
        At(i, j) == AutoUnmark(r, c, i, j, old(At(i, j)))
    {
      for i := 0 to gridSize
        invariant forall a, b :: 0 <= a < gridSize && 0 <= b < gridSize ==>
          At(a, b) == if (a == r && b < i) || (b == c && a < i) then AutoUnmark(r, c, a, b, old(At(a, b))) else old(At(a, b))
      {
        if autoXMap[r, i] {
          boardState[r, i] := Empty;
          autoXMap[r, i] := false;
        }
        if autoXMap[i, c] {
          boardState[i, c] := Empty;
          autoXMap[i, c] := false;
        }
      }
      for dr := -1 to 2
        invariant forall a, b :: 0 <= a < gridSize && 0 <= b < gridSize ==>
          At(a, b) == if a == r || b == c || (r - 1 <= a < r + dr && Near(r, c, a, b))
                      then AutoUnmark(r, c, a, b, old(At(a, b))) else old(At(a, b))
      {
        for dc := -1 to 2
          invariant forall a, b :: 0 <= a < gridSize && 0 <= b < gridSize ==>
            At(a, b) == if a == r || b == c || (r - 1 <= a < r + dr && Near(r, c, a, b)) || (a == r + dr && c - 1 <= b < c + dc)
                        then AutoUnmark(r, c, a, b, old(At(a, b))) else old(At(a, b))
        {
          var nr, nc := r + dr, c + dc;
          if 0 <= nr < gridSize && 0 <= nc < gridSize && autoXMap[nr, nc] {
            boardState[nr, nc] := Empty;
            autoXMap[nr, nc] := false;
          }
        }
      }
    }

    /** `cyclePlayCell`: one play click on (r, c); every cell changes as `Marks.Activated` says. */
    method CyclePlayCell(r: int, c: int)
      requires Valid() && 0 <= r < gridSize && 0 <= c < gridSize
      modifies boardState, autoXMap
      ensures forall i, j :: 0 <= i < gridSize && 0 <= j < gridSize ==>
        At(i, j) == Activated(autoXMode, r, c, old(boardState[r, c]), i, j, old(At(i, j)))
    {
      var val := boardState[r, c];
      if val == Empty {
        boardState[r, c] := Cross;
      } else if val == Cross {
        boardState[r, c] := Piece;
        if autoXMode {
          PlaceAutoX(r, c);
        }
      } else {
        if autoXMode {
          RemoveAutoX(r, c);
        }
        boardState[r, c] := Empty;
      }
    }

    /**
     * Placing a piece with auto-X on and clicking it away at once: when no cell
     * in the sweep of (r, c) has its flag set beforehand, every other cell is
     * back to its mark and flag, and (r, c) is empty with its flag clear.
     */
    method PlaceAndRetract(r: int, c: int)
      requires Valid() && 0 <= r < gridSize && 0 <= c < gridSize
      requires autoXMode && boardState[r, c] == Cross
      requires forall i, j :: 0 <= i < gridSize && 0 <= j < gridSize && InSweep(r, c, i, j) ==> !autoXMap[i, j]
      modifies boardState, autoXMap
      ensures forall i, j :: 0 <= i < gridSize && 0 <= j < gridSize ==>
        At(i, j) == if (i, j) == (r, c) then Cell(Empty, false) else old(At(i, j))
    {
      CyclePlayCell(r, c);
      ActivatedAdvances(true, r, c, old(At(r, c)));
      CyclePlayCell(r, c);
      forall i, j | 0 <= i < gridSize && 0 <= j < gridSize
        ensures At(i, j) == if (i, j) == (r, c) then Cell(Empty, false) else old(At(i, j))
      {
        PlaceThenRemove(r, c, i, j, old(At(i, j)));
      }
    }

    /** `onCellClick`: a play click in play mode, a region paint in authoring mode. */
    method OnCellClick(r: int, c: int)
      requires Valid() && 0 <= r < gridSize && 0 <= c < gridSize
      modifies puzzleGrid, boardState, autoXMap
      ensures isPlayMode ==> forall i, j :: 0 <= i < gridSize && 0 <= j < gridSize ==>
        puzzleGrid[i, j] == old(puzzleGrid[i, j]) &&
        At(i, j) == Activated(autoXMode, r, c, old(boardState[r, c]), i, j, old(At(i, j)))
      ensures !isPlayMode ==> forall i, j :: 0 <= i < gridSize && 0 <= j < gridSize ==>
        At(i, j) == old(At(i, j)) &&
        puzzleGrid[i, j] == if (i, j) == (r, c) then currentRegionId else old(puzzleGrid[i, j])
    {
      if isPlayMode {
        CyclePlayCell(r, c);
      } else {
        PaintRegion(r, c);
      }
    }

    /** `paintXIfEmpty`: an empty (r, c) becomes X; no other mark and no flag changes. */
    method PaintXIfEmpty(r: int, c: int)
      requires Valid() && 0 <= r < gridSize && 0 <= c < gridSize
      modifies boardState
      ensures forall i, j :: 0 <= i < gridSize && 0 <= j < gridSize ==>
        boardState[i, j] == if (i, j) == (r, c) then PaintX(old(boardState[i, j])) else old(boardState[i, j])
    {
      if boardState[r, c] == Empty {
        boardState[r, c] := Cross;
      }
    }

    /** `onDragStart`: in play mode, start dragging and paint (r, c); in authoring mode, nothing. */
    method OnDragStart(r: int, c: int)
      requires Valid() && 0 <= r < gridSize && 0 <= c < gridSize
      modifies this`isDragging, boardState
      ensures isDragging == (old(isDragging) || isPlayMode)
      ensures forall i, j :: 0 <= i < gridSize && 0 <= j < gridSize ==>
        boardState[i, j] == if isPlayMode && (i, j) == (r, c) then PaintX(old(boardState[i, j])) else old(boardState[i, j])
    {
      if !isPlayMode {
        return;
      }
      isDragging := true;
      PaintXIfEmpty(r, c);
    }

    /** `onDragOver`: paints (r, c) only while dragging in play mode. */
    method OnDragOver(r: int, c: int)
      requires Valid() && 0 <= r < gridSize && 0 <= c < gridSize
      modifies boardState
      ensures forall i, j :: 0 <= i < gridSize && 0 <= j < gridSize ==>
        boardState[i, j] == if isPlayMode && isDragging && (i, j) == (r, c) then PaintX(old(boardState[i, j])) else old(boardState[i, j])
    {
      if !isPlayMode || !isDragging {
        return;
      }
      PaintXIfEmpty(r, c);
    }

    /** The window's mouseup listener: dragging always stops. */
    method OnMouseUp()
      modifies this`isDragging
      ensures !isDragging
    {
      isDragging := false;
    }

    /**
     * The per-piece scan of `validateBoard` for a piece at (r, c): its row and
     * column, every cell of its region, then its 8 neighbours.
     */
    method PieceInvalid(r: int, c: int) returns (bad: bool)
      requires Valid() && 0 <= r < gridSize && 0 <= c < gridSize
      requires boardState[r, c] == Piece
      ensures bad == InConflict(puzzleGrid, boardState, r, c)
    {
      var region := puzzleGrid[r, c];
      bad := false;
      for i := 0 to gridSize
        invariant bad ==> InConflict(puzzleGrid, boardState, r, c)
        invariant !bad ==> forall k :: 0 <= k < i ==>
          !Attacks(puzzleGrid, boardState, r, c, r, k) && !Attacks(puzzleGrid, boardState, r, c, k, c)
      {
        if i != c && boardState[r, i] == Piece {
          assert Attacks(puzzleGrid, boardState, r, c, r, i);
          bad := true;
        }
        if i != r && boardState[i, c] == Piece {
          assert Attacks(puzzleGrid, boardState, r, c, i, c);
          bad := true;
        }
      }
      for rr := 0 to gridSize
        invariant bad ==> InConflict(puzzleGrid, boardState, r, c)
        invariant !bad ==> forall k :: 0 <= k < gridSize ==>
          !Attacks(puzzleGrid, boardState, r, c, r, k) && !Attacks(puzzleGrid, boardState, r, c, k, c)
        invariant !bad ==> forall a, b :: 0 <= a < rr && 0 <= b < gridSize && puzzleGrid[a, b] == region ==>
          !Attacks(puzzleGrid, boardState, r, c, a, b)
      {
        for cc := 0 to gridSize
          invariant bad ==> InConflict(puzzleGrid, boardState, r, c)
          invariant !bad ==> forall k :: 0 <= k < gridSize ==>
            !Attacks(puzzleGrid, boardState, r, c, r, k) && !Attacks(puzzleGrid, boardState, r, c, k, c)
          invariant !bad ==> forall a, b :: 0 <= a < rr && 0 <= b < gridSize && puzzleGrid[a, b] == region ==>
            !Attacks(puzzleGrid, boardState, r, c, a, b)
          invariant !bad ==> forall b :: 0 <= b < cc && puzzleGrid[rr, b] == region ==>
            !Attacks(puzzleGrid, boardState, r, c, rr, b)
        {
          if (rr != r || cc != c) && boardState[rr, cc] == Piece && puzzleGrid[rr, cc] == region {
            assert Attacks(puzzleGrid, boardState, r, c, rr, cc);
            bad := true;
          }
        }
      }
      for dr := -1 to 2
        invariant bad ==> InConflict(puzzleGrid, boardState, r, c)
        invariant !bad ==> forall a, b :: 0 <= a < gridSize && 0 <= b < gridSize ==>
          (a == r || b == c || puzzleGrid[a, b] == region || (r - 1 <= a < r + dr && Near(r, c, a, b))) ==>
          !Attacks(puzzleGrid, boardState, r, c, a, b)
      {
        for dc := -1 to 2
          invariant bad ==> InConflict(puzzleGrid, boardState, r, c)
          invariant !bad ==> forall a, b :: 0 <= a < gridSize && 0 <= b < gridSize ==>
            (a == r || b == c || puzzleGrid[a, b] == region || (r - 1 <= a < r + dr && Near(r, c, a, b))
              || (a == r + dr && c - 1 <= b < c + dc)) ==>
            !Attacks(puzzleGrid, boardState, r, c, a, b)
        {
          if dr == 0 && dc == 0 {
            continue;
          }
          var nr, nc := r + dr, c + dc;
          if 0 <= nr < gridSize && 0 <= nc < gridSize {
            if boardState[nr, nc] == Piece {
              assert Attacks(puzzleGrid, boardState, r, c, nr, nc);
              bad := true;
            }
          }
        }
      }
    }

    /** The rule of `validateBoard`: the set of cells it marks invalid. */
    method ValidateBoard() returns (invalid: set<(int, int)>)
      requires Valid()
      ensures invalid == Conflicts(puzzleGrid, boardState)
    {
      invalid := {};
      for r := 0 to gridSize
        invariant forall p :: p in invalid <==>
          0 <= p.0 < r && 0 <= p.1 < gridSize && InConflict(puzzleGrid, boardState, p.0, p.1)
      {
        for c := 0 to gridSize
          invariant forall p :: p in invalid <==>
            0 <= p.0 < gridSize && 0 <= p.1 < gridSize && (p.0 < r || (p.0 == r && p.1 < c))
            && InConflict(puzzleGrid, boardState, p.0, p.1)
        {
          if boardState[r, c] == Piece {
            var bad := PieceInvalid(r, c);
            if bad {
              invalid := invalid + {(r, c)};
            }
          }
        }
      }
      assert forall p :: p in invalid <==> p in Conflicts(puzzleGrid, boardState) by {
        forall p
          ensures p in invalid <==> p in Conflicts(puzzleGrid, boardState)
        {
          if p in Conflicts(puzzleGrid, boardState) {
            assert InConflict(puzzleGrid, boardState, p.0, p.1);
          }
        }
      }
    }

    /** The structure `exportPuzzle` serialises: the size and the region matrix. */
    method ExportPuzzle() returns (size: nat, grid: seq<seq<int>>)
      requires Valid()
      ensures size == gridSize && |grid| == size
      ensures forall i :: 0 <= i < size ==> |grid[i]| == size
      ensures forall i, j :: 0 <= i < size && 0 <= j < size ==> grid[i][j] == puzzleGrid[i, j]
    {
      size := gridSize;
      var regions := puzzleGrid;
      grid := seq(size, i requires 0 <= i < size reads regions =>
        seq(size, j requires 0 <= j < size reads regions => regions[i, j]));
    }

    /**
     * The reset half of `importPuzzle`, given the already decoded size and
     * region matrix: the regions are replaced, the marks and flags blanked and
     * authoring mode entered. The region id, autoXMode and dragging are kept.
     */
    method ImportPuzzle(size: nat, grid: seq<seq<int>>)
      requires Valid()
      requires |grid| == size && forall i :: 0 <= i < size ==> |grid[i]| == size
      modifies this
      ensures Valid() && gridSize == size && !isPlayMode
      ensures fresh(puzzleGrid) && fresh(boardState) && fresh(autoXMap)
      ensures forall i, j :: 0 <= i < size && 0 <= j < size ==> puzzleGrid[i, j] == grid[i][j]
      ensures BoardBlank()
      ensures currentRegionId == old(currentRegionId) && autoXMode == old(autoXMode) && isDragging == old(isDragging)
    {
      gridSize := size;
      puzzleGrid := new int[size, size]((i, j) requires 0 <= i < size && 0 <= j < size => grid[i][j]);
      boardState := NewMarks(size);
      autoXMap := NewFlags(size);
      isPlayMode := false;
    }
  }
}
