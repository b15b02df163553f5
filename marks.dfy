/**
 * Play-mode marks and their provenance flags, one cell at a time.
 *
 * Every play-mode operation of the engine changes each cell independently of
 * the others: the new mark and flag of cell (i, j) depend only on its old mark
 * and flag, on where it lies relative to the clicked cell (r, c), and, for a
 * click, on the old mark of (r, c). The functions below give that per-cell
 * effect; the session methods are proved to apply them to every cell, and the
 * lemmas state what the effects mean.
 */
module Marks {

  /** A play mark: `""`, `"X"` and `"P"` in the source. */
  datatype Mark = Empty | Cross | Piece

  /** A cell of the play board: its mark and its provenance flag (its `autoXMap` entry). */
  datatype Cell = Cell(mark: Mark, auto: bool)

  /** The mark a play click moves a cell to: "" -> X -> P -> "". */
  function Next(m: Mark): (r: Mark)
    ensures r != m
  {
    match m
    case Empty => Cross
    case Cross => Piece
    case Piece => Empty
  }

  /** (i, j) lies in the 3x3 block centred on (r, c), the centre included. */
  predicate Near(r: int, c: int, i: int, j: int) {
    r - 1 <= i <= r + 1 && c - 1 <= j <= c + 1
  }

  /**
   * (i, j) is swept by an auto-elimination sweep around (r, c): it shares the
   * row or the column of (r, c), or it lies in the 3x3 block around it. The
   * placement sweep skips the centre of the block and the removal sweep does
   * not, but both reach the centre through the row, so the two sets agree.
   */
  predicate InSweep(r: int, c: int, i: int, j: int) {
    i == r || j == c || Near(r, c, i, j)
  }

  /** Effect of `placeAutoX(r, c)` on cell (i, j): an empty swept cell becomes an auto-X. */
  function AutoMark(r: int, c: int, i: int, j: int, x: Cell): Cell {
    if InSweep(r, c, i, j) && x.mark == Empty then Cell(Cross, true) else x
  }

  /** Effect of `removeAutoX(r, c)` on cell (i, j): a swept cell whose flag is set is cleared, whatever its mark. */
  function AutoUnmark(r: int, c: int, i: int, j: int, x: Cell): Cell {
    if InSweep(r, c, i, j) && x.auto then Cell(Empty, false) else x
  }

  /**
   * Effect of one play click on (r, c) (`cyclePlayCell`) on cell (i, j), where
   * `centre` is the mark (r, c) held before the click and `autoOn` is `autoXMode`.
   * X -> P marks the piece first and then sweeps; P -> "" sweeps first and then
   * clears the piece. The clicked cell's own flag is written only by the sweeps.
   */
  function Activated(autoOn: bool, r: int, c: int, centre: Mark, i: int, j: int, x: Cell): Cell {
    match centre
    case Empty =>
      if (i, j) == (r, c) then Cell(Cross, x.auto) else x
    case Cross =>
      var y := if (i, j) == (r, c) then Cell(Piece, x.auto) else x;
      if autoOn then AutoMark(r, c, i, j, y) else y
    case Piece =>
      var y := if autoOn then AutoUnmark(r, c, i, j, x) else x;
      if (i, j) == (r, c) then Cell(Empty, y.auto) else y
  }

  /** Effect of `paintXIfEmpty` on the painted cell's mark. */
  function PaintX(m: Mark): Mark {
    if m == Empty then Cross else m
  }

  // ---------------------------------------------------------------------------
  // Mark cycling

  /** Three clicks bring any mark back to where it started. */
  lemma CycleCloses(m: Mark)
    ensures Next(Next(Next(m))) == m
    ensures Next(Empty) == Cross && Next(Cross) == Piece && Next(Piece) == Empty
  {
  }

  /** A click moves the clicked cell's mark one step along the cycle, whatever the auto mode. */
  lemma ActivatedAdvances(autoOn: bool, r: int, c: int, x: Cell)
    ensures Activated(autoOn, r, c, x.mark, r, c, x).mark == Next(x.mark)
  {
  }

  /**
   * With auto mode off a click changes only the clicked cell, and only its mark:
   * every other cell keeps mark and flag, and the clicked cell keeps its flag.
   */
  lemma AutoOffIsLocal(r: int, c: int, i: int, j: int, x: Cell)
    ensures (i, j) != (r, c) ==> Activated(false, r, c, x.mark, i, j, x) == x
    ensures Activated(false, r, c, x.mark, r, c, x) == Cell(Next(x.mark), x.auto)
  {
  }

  /**
   * With auto mode off, three clicks on (r, c) restore every cell, flags
   * included. `centre` is the old mark of (r, c), which is x's own mark when
   * (i, j) is the clicked cell.
   */
  lemma ThreeClicksAutoOff(r: int, c: int, centre: Mark, i: int, j: int, x: Cell)
    requires (i, j) == (r, c) ==> x.mark == centre
    ensures Activated(false, r, c, Next(Next(centre)), i, j,
              Activated(false, r, c, Next(centre), i, j,
                Activated(false, r, c, centre, i, j, x))) == x
  {
  }

  /** With auto mode on, three clicks on an empty cell leave it empty with its flag cleared. */
  lemma ThreeClicksAutoOnCentre(r: int, c: int, flag: bool)
    ensures Activated(true, r, c, Piece, r, c,
              Activated(true, r, c, Cross, r, c,
                Activated(true, r, c, Empty, r, c, Cell(Empty, flag)))) == Cell(Empty, false)
  {
  }

  // ---------------------------------------------------------------------------
  // Auto-elimination and its retraction

  /**
   * A placement sweep turns into "X with flag set" exactly the empty swept
   * cells; every other cell, including an X or P inside the sweep, keeps both
   * mark and flag.
   */
  lemma AutoMarkExactly(r: int, c: int, i: int, j: int, x: Cell)
    ensures AutoMark(r, c, i, j, x) != x <==> InSweep(r, c, i, j) && x.mark == Empty
    ensures AutoMark(r, c, i, j, x) != x ==> AutoMark(r, c, i, j, x) == Cell(Cross, true)
    ensures AutoMark(r, c, i, j, x).auto <==> x.auto || (InSweep(r, c, i, j) && x.mark == Empty)
  {
  }

  /**
   * A removal sweep resets to "" with flag cleared exactly the swept cells whose
   * flag is set, whatever their mark; every other cell keeps mark and flag.
   */
  lemma AutoUnmarkExactly(r: int, c: int, i: int, j: int, x: Cell)
    ensures AutoUnmark(r, c, i, j, x) != x <==> InSweep(r, c, i, j) && x.auto
    ensures InSweep(r, c, i, j) && x.auto ==> AutoUnmark(r, c, i, j, x) == Cell(Empty, false)
    ensures !AutoUnmark(r, c, i, j, x).auto <==> !x.auto || InSweep(r, c, i, j)
  {
  }

  /** Applying a sweep twice does what applying it once does. */
  lemma SweepsIdempotent(r: int, c: int, i: int, j: int, x: Cell)
    ensures AutoMark(r, c, i, j, AutoMark(r, c, i, j, x)) == AutoMark(r, c, i, j, x)
    ensures AutoUnmark(r, c, i, j, AutoUnmark(r, c, i, j, x)) == AutoUnmark(r, c, i, j, x)
  {
  }

  /**
   * Round trip with auto mode on: click X -> P on (r, c) and immediately
   * P -> "". Provided no swept cell had its flag set beforehand, every other
   * cell ends as it started and (r, c) ends empty with its flag cleared.
   */
  lemma PlaceThenRemove(r: int, c: int, i: int, j: int, x: Cell)
    requires InSweep(r, c, i, j) ==> !x.auto
    requires (i, j) == (r, c) ==> x.mark == Cross
    ensures Activated(true, r, c, Piece, i, j, Activated(true, r, c, Cross, i, j, x))
            == if (i, j) == (r, c) then Cell(Empty, false) else x
  {
  }

  /** A manual X (flag clear) is left alone by every placement and every removal sweep. */
  lemma ManualCrossSurvives(r: int, c: int, i: int, j: int)
    ensures AutoMark(r, c, i, j, Cell(Cross, false)) == Cell(Cross, false)
    ensures AutoUnmark(r, c, i, j, Cell(Cross, false)) == Cell(Cross, false)
  {
  }

  /**
   * The flag survives X -> P: a cell auto-marked by one piece and then clicked
   * into a piece keeps its flag, and a later removal sweep that reaches it wipes
   * that piece.
   */
  lemma StaleFlagWipesPiece(autoOn: bool, r: int, c: int, i: int, j: int)
    requires InSweep(r, c, i, j)
    ensures Activated(autoOn, i, j, Cross, i, j, Cell(Cross, true)) == Cell(Piece, true)
    ensures AutoUnmark(r, c, i, j, Cell(Piece, true)) == Cell(Empty, false)
  {
  }

  /** With auto mode off, P -> "" keeps the clicked cell's flag, so an empty cell can carry a set flag. */
  lemma StaleFlagOnEmpty(r: int, c: int)
    ensures Activated(false, r, c, Piece, r, c, Cell(Piece, true)) == Cell(Empty, true)
  {
  }

  /**
   * The flag is a boolean, not an owner count: an empty cell swept by two
   * placements a and b is cleared by removing a, although b still reaches it.
   */
  lemma FlagNotShared(ar: int, ac: int, br: int, bc: int, i: int, j: int)
    requires InSweep(ar, ac, i, j) && InSweep(br, bc, i, j)
    ensures AutoUnmark(ar, ac, i, j, AutoMark(br, bc, i, j, AutoMark(ar, ac, i, j, Cell(Empty, false))))
            == Cell(Empty, false)
  {
  }

  /** Drag painting turns only "" into X, and painting twice is painting once. */
  lemma PaintXProperties(m: Mark)
    ensures PaintX(m) != m <==> m == Empty
    ensures PaintX(m) == Cross || PaintX(m) == m
    ensures PaintX(PaintX(m)) == PaintX(m)
  {
  }
}
