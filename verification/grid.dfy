/**
 The shared grid: a flat sequence of GRID_SIZE * GRID_SIZE cells, all zero
 at process start. Cell values are stored as received, so a cell is an
 unbounded `int` rather than a 0/1 bit.
 */
module Grid {

  /** Side length of the square grid (GRID_SIZE). */
  const Side: nat := 50

  /** Number of cells in the grid, 50 * 50. */
  const CellCount: nat := Side * Side

  type Cells = seq<int>

  /** A grid of `n` cells, every one of them zero. */
  function Zeros(n: nat): (g: Cells)
    ensures |g| == n
    ensures forall i :: 0 <= i < n ==> g[i] == 0
  {
    seq(n, _ => 0)
  }

  /** The grid the process starts with. */
  function Initial(): (g: Cells)
    ensures |g| == 2500
    ensures forall i :: 0 <= i < |g| ==> g[i] == 0
  {
    Zeros(CellCount)
  }

  /** The range check guarding every write: `0 <= index < len(grid)`. */
  predicate InBounds(g: Cells, index: int)
  {
    0 <= index < |g|
  }

  /** Stores `value` at `index`; the value is not validated. */
  function Write(g: Cells, index: int, value: int): (r: Cells)
    requires InBounds(g, index)
    ensures |r| == |g|
    ensures r[index] == value
    ensures forall j :: 0 <= j < |g| && j != index ==> r[j] == g[j]
  {
    g[index := value]
  }

  /** The reset loop: every cell, one index at a time, is set to zero. */
  method ResetCells(g: Cells) returns (r: Cells)
    ensures r == Zeros(|g|)
  {
    r := g;
    var i := 0;
    while i < |r|
      invariant 0 <= i <= |r| == |g|
      invariant forall j :: 0 <= j < i ==> r[j] == 0
    {
      r := r[i := 0];
      i := i + 1;
    }
  }
}
