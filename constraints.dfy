/**
 * The conflict rule of play mode: which pieces break the "one piece per row,
 * column and region, no two pieces touching" rules. It is a pure function of
 * the region matrix and the mark matrix.
 */
module Constraints {
  import opened Marks

  /** Both matrices are n x n for one n. */
  predicate Square(grid: array2<int>, board: array2<Mark>) {
    grid.Length0 == grid.Length1 == board.Length0 == board.Length1
  }

  /** Two cells clash: same row, same column, same region id (id 0 included), or within one step. */
  ghost predicate Clash(grid: array2<int>, r: int, c: int, i: int, j: int)
    reads grid
    requires 0 <= r < grid.Length0 && 0 <= c < grid.Length1
    requires 0 <= i < grid.Length0 && 0 <= j < grid.Length1
  {
    i == r || j == c || grid[i, j] == grid[r, c] || Near(r, c, i, j)
  }

  /** (i, j) is a piece other than (r, c) that clashes with (r, c). */
  ghost predicate Attacks(grid: array2<int>, board: array2<Mark>, r: int, c: int, i: int, j: int)
    reads grid, board
    requires Square(grid, board)
    requires 0 <= r < grid.Length0 && 0 <= c < grid.Length0
  {
    && 0 <= i < grid.Length0 && 0 <= j < grid.Length0
    && (i, j) != (r, c)
    && board[i, j] == Piece
    && Clash(grid, r, c, i, j)
  }

  /** (r, c) holds a piece that some other piece clashes with. */
  ghost predicate InConflict(grid: array2<int>, board: array2<Mark>, r: int, c: int)
    reads grid, board
    requires Square(grid, board)
    requires 0 <= r < grid.Length0 && 0 <= c < grid.Length0
  {
    board[r, c] == Piece && exists i, j :: Attacks(grid, board, r, c, i, j)
  }

  /** The cells `validateBoard` marks invalid. */
  ghost function Conflicts(grid: array2<int>, board: array2<Mark>): (s: set<(int, int)>)
    reads grid, board
    requires Square(grid, board)
    ensures forall i, j :: (i, j) in s ==> 0 <= i < grid.Length0 && 0 <= j < grid.Length0 && board[i, j] == Piece
  {
    set i, j | 0 <= i < grid.Length0 && 0 <= j < grid.Length0 && InConflict(grid, board, i, j) :: (i, j)
  }

  /** No two pieces on the board clash. */
  ghost predicate NonAttacking(grid: array2<int>, board: array2<Mark>)
    reads grid, board
    requires Square(grid, board)
  {
    forall r, c, i, j ::
      0 <= r < grid.Length0 && 0 <= c < grid.Length0 && board[r, c] == Piece ==>
        !Attacks(grid, board, r, c, i, j)
  }

  /** Clashing is symmetric. */
  lemma AttacksSymmetric(grid: array2<int>, board: array2<Mark>, r: int, c: int, i: int, j: int)
    requires Square(grid, board)
    requires 0 <= r < grid.Length0 && 0 <= c < grid.Length0
    requires board[r, c] == Piece && Attacks(grid, board, r, c, i, j)
    ensures Attacks(grid, board, i, j, r, c)
  {
  }

  /**
   * Two distinct pieces that share a row, a column or a region id (0 included),
   * or that touch, are both in the conflict set.
   */
  lemma ClashingPairConflicts(grid: array2<int>, board: array2<Mark>, r: int, c: int, i: int, j: int)
    requires Square(grid, board)
    requires 0 <= r < grid.Length0 && 0 <= c < grid.Length0
    requires 0 <= i < grid.Length0 && 0 <= j < grid.Length0
    requires (i, j) != (r, c) && board[r, c] == Piece && board[i, j] == Piece
    requires Clash(grid, r, c, i, j)
    ensures (r, c) in Conflicts(grid, board) && (i, j) in Conflicts(grid, board)
  {
    assert Attacks(grid, board, r, c, i, j);
    AttacksSymmetric(grid, board, r, c, i, j);
    assert InConflict(grid, board, r, c);
    assert InConflict(grid, board, i, j);
  }

  /** Every piece in the conflict set has a partner in the conflict set. */
  lemma ConflictsPaired(grid: array2<int>, board: array2<Mark>, r: int, c: int)
    requires Square(grid, board)
    requires (r, c) in Conflicts(grid, board)
    ensures exists i, j :: (i, j) in Conflicts(grid, board) && (i, j) != (r, c)
  {
    assert InConflict(grid, board, r, c);
    var i, j :| Attacks(grid, board, r, c, i, j);
    ClashingPairConflicts(grid, board, r, c, i, j);
  }

  /** Because conflicts come in pairs, the conflict set never holds exactly one cell. */
  lemma NeverOneConflict(grid: array2<int>, board: array2<Mark>)
    requires Square(grid, board)
    ensures |Conflicts(grid, board)| != 1
  {
    var s := Conflicts(grid, board);
    if s != {} {
      var p :| p in s;
      ConflictsPaired(grid, board, p.0, p.1);
      var i, j :| (i, j) in s && (i, j) != p;
      var pair := {p, (i, j)};
      assert |pair| == 2;
      assert |s| == |pair| + |s - pair|;
    }
  }

  /** A lone piece is never in conflict: with at most one piece on the board the set is empty. */
  lemma LonePieceNoConflict(grid: array2<int>, board: array2<Mark>, r: int, c: int)
    requires Square(grid, board)
    requires forall i, j :: 0 <= i < grid.Length0 && 0 <= j < grid.Length0 && board[i, j] == Piece ==> (i, j) == (r, c)
    ensures Conflicts(grid, board) == {}
  {
  }

  /** The conflict set is empty exactly when no two pieces clash. */
  lemma NoConflictIffNonAttacking(grid: array2<int>, board: array2<Mark>)
    requires Square(grid, board)
    ensures Conflicts(grid, board) == {} <==> NonAttacking(grid, board)
  {
    if Conflicts(grid, board) == {} {
      forall r, c, i, j | 0 <= r < grid.Length0 && 0 <= c < grid.Length0 && board[r, c] == Piece
        ensures !Attacks(grid, board, r, c, i, j)
      {
        if Attacks(grid, board, r, c, i, j) {
          ClashingPairConflicts(grid, board, r, c, i, j);
          assert false;
        }
      }
    } else {
      var p :| p in Conflicts(grid, board);
      assert InConflict(grid, board, p.0, p.1);
    }
  }
}
