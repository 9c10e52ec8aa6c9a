/**
  Clockwise spiral ("snail") traversal of an n×n matrix: the source's loop
  over the four boundaries `top`, `bottom`, `left`, `right`, proved against a
  ring-by-ring reference order of the cells, and from it: n² elements, every
  cell exactly once, the same multiset of entries as the matrix.
 */
module Snail {

  datatype Cell = Cell(row: int, col: int)

  predicate IsSquare(matrix: seq<seq<int>>) {
    forall i :: 0 <= i < |matrix| ==> |matrix[i]| == |matrix|
  }

  predicate InGrid(n: int, x: Cell) {
    0 <= x.row < n && 0 <= x.col < n
  }

  predicate Distinct(cells: seq<Cell>) {
    forall i, j :: 0 <= i < j < |cells| ==> cells[i] != cells[j]
  }

  /** Number of integers in the closed range `[lo, hi]`. */
  function Count(lo: int, hi: int): nat {
    if hi < lo then 0 else hi - lo + 1
  }

  function Min(a: int, b: int): int {
    if a <= b then a else b
  }

  /** Distance of a cell from the border of the n×n grid: its ring number. */
  function Depth(n: int, x: Cell): int {
    Min(Min(x.row, x.col), Min(n - 1 - x.row, n - 1 - x.col))
  }

  // ---------------------------------------------------------------------
  // The four legs of a ring
  // ---------------------------------------------------------------------

  /** Row `r`, columns `c0` up to `c1`. */
  function RowRight(r: int, c0: int, c1: int): seq<Cell>
    decreases c1 - c0 + 1
  {
    if c1 < c0 then [] else RowRight(r, c0, c1 - 1) + [Cell(r, c1)]
  }

  /** Column `c`, rows `r0` down to `r1` (increasing row index). */
  function ColDown(c: int, r0: int, r1: int): seq<Cell>
    decreases r1 - r0 + 1
  {
    if r1 < r0 then [] else ColDown(c, r0, r1 - 1) + [Cell(r1, c)]
  }

  /** Row `r`, columns `c1` back to `c0`. */
  function RowLeft(r: int, c1: int, c0: int): seq<Cell>
    decreases c1 - c0 + 1
  {
    if c1 < c0 then [] else RowLeft(r, c1, c0 + 1) + [Cell(r, c0)]
  }

  /** Column `c`, rows `r1` back up to `r0`. */
  function ColUp(c: int, r1: int, r0: int): seq<Cell>
    decreases r1 - r0 + 1
  {
    if r1 < r0 then [] else ColUp(c, r1, r0 + 1) + [Cell(r0, c)]
  }

  // ---------------------------------------------------------------------
  // Reference order
  // ---------------------------------------------------------------------

  /** Ring `t` of an n×n grid, clockwise from its top-left corner: top row
      rightward, right column downward, bottom row leftward, left column
      upward. For the 1×1 centre of an odd grid the last three legs are
      empty ranges. */
  function Ring(n: int, t: int): seq<Cell> {
    var e := n - 1 - t;
    RowRight(t, t, e) + ColDown(e, t + 1, e) + RowLeft(e, e - 1, t) + ColUp(t, e - 1, t + 1)
  }

  /** The first `k` rings, outermost first. */
  function Rings(n: int, k: nat): seq<Cell> {
    if k == 0 then [] else Rings(n, k - 1) + Ring(n, k - 1)
  }

  /** The clockwise spiral order of the cells of an n×n grid. */
  function SpiralCells(n: nat): seq<Cell> {
    Rings(n, (n + 1) / 2)
  }

  /** The entry of `matrix` at cell `x`; every cell this model looks up lies
      inside the grid, so the fallback 0 is never read. */
  function At(matrix: seq<seq<int>>, x: Cell): int {
    if 0 <= x.row < |matrix| && 0 <= x.col < |matrix[x.row]| then matrix[x.row][x.col] else 0
  }

  /** The entries of `matrix` at `cells`, in order. */
  function Values(matrix: seq<seq<int>>, cells: seq<Cell>): seq<int> {
    seq(|cells|, i requires 0 <= i < |cells| => At(matrix, cells[i]))
  }

  /** The rows of a matrix written one after another. */
  function Flatten(rows: seq<seq<int>>): seq<int> {
    if |rows| == 0 then [] else rows[0] + Flatten(rows[1..])
  }

  // ---------------------------------------------------------------------
  // snail_matrix
  // ---------------------------------------------------------------------

  /** Appends the entries of row `r`, columns `c0` to `c1`, left to right. */
  method TraverseRight(matrix: seq<seq<int>>, result: seq<int>, r: int, c0: int, c1: int)
    returns (out: seq<int>)
    requires IsSquare(matrix) && 0 <= r < |matrix| && 0 <= c0 && c1 < |matrix|
    ensures out == result + Values(matrix, RowRight(r, c0, c1))
  {
    out := result;
    var col := c0;
    while col <= c1
      invariant col == c0 || c0 < col <= c1 + 1
      invariant out == result + Values(matrix, RowRight(r, c0, col - 1))
      decreases c1 + 1 - col
    {
      RowRightValuesStep(matrix, r, c0, col);
      out := out + [matrix[r][col]];
      col := col + 1;
    }
  }

  /** Appends the entries of column `c`, rows `r0` to `r1`, top to bottom. */
  method TraverseDown(matrix: seq<seq<int>>, result: seq<int>, c: int, r0: int, r1: int)
    returns (out: seq<int>)
    requires IsSquare(matrix) && 0 <= c < |matrix| && 0 <= r0 && r1 < |matrix|
    ensures out == result + Values(matrix, ColDown(c, r0, r1))
  {
    out := result;
    var row := r0;
    while row <= r1
      invariant row == r0 || r0 < row <= r1 + 1
      invariant out == result + Values(matrix, ColDown(c, r0, row - 1))
      decreases r1 + 1 - row
    {
      ColDownValuesStep(matrix, c, r0, row);
      out := out + [matrix[row][c]];
      row := row + 1;
    }
  }

  /** Appends the entries of row `r`, columns `c1` back to `c0`, right to left. */
  method TraverseLeft(matrix: seq<seq<int>>, result: seq<int>, r: int, c1: int, c0: int)
    returns (out: seq<int>)
    requires IsSquare(matrix) && 0 <= r < |matrix| && 0 <= c0 && c1 < |matrix|
    ensures out == result + Values(matrix, RowLeft(r, c1, c0))
  {
    out := result;
    var col := c1;
    while col >= c0
      invariant col == c1 || c0 - 1 <= col < c1
      invariant out == result + Values(matrix, RowLeft(r, c1, col + 1))
      decreases col - c0 + 1
    {
      RowLeftValuesStep(matrix, r, c1, col);
      out := out + [matrix[r][col]];
      col := col - 1;
    }
  }

  /** Appends the entries of column `c`, rows `r1` back to `r0`, bottom to top. */
  method TraverseUp(matrix: seq<seq<int>>, result: seq<int>, c: int, r1: int, r0: int)
    returns (out: seq<int>)
    requires IsSquare(matrix) && 0 <= c < |matrix| && 0 <= r0 && r1 < |matrix|
    ensures out == result + Values(matrix, ColUp(c, r1, r0))
  {
    out := result;
    var row := r1;
    while row >= r0
      invariant row == r1 || r0 - 1 <= row < r1
      invariant out == result + Values(matrix, ColUp(c, r1, row + 1))
      decreases row - r0 + 1
    {
      ColUpValuesStep(matrix, c, r1, row);
      out := out + [matrix[row][c]];
      row := row - 1;
    }
  }

  /** One pass of the loop body of `snail_matrix`: the top row rightwards,
      the right column downwards, then, each only while the bounds have not
      crossed, the bottom row leftwards and the left column upwards. The
      boundaries move inwards as the source moves them. */
  method PeelRing(matrix: seq<seq<int>>, result: seq<int>, top: int, bottom: int, left: int, right: int)
    returns (out: seq<int>, top': int, bottom': int, left': int, right': int)
    requires IsSquare(matrix)
    requires 0 <= top == left && right == bottom == |matrix| - 1 - top && top <= bottom
    ensures out == result + Values(matrix, Ring(|matrix|, top))
    ensures top' == top + 1
    ensures || (top' == left' && bottom' == |matrix| - 1 - top' && right' == bottom' && 2 * top' <= |matrix|)
            || (top' == left' + 1 && bottom' == left' && right' == left' - 1 && 2 * left' + 1 == |matrix|)
  {
    var n := |matrix|;
    ghost var t, e := top, bottom;
    ghost var a, b, c, d := RowRight(t, t, e), ColDown(e, t + 1, e), RowLeft(e, e - 1, t), ColUp(t, e - 1, t + 1);
    RingLegValues(matrix, t);
    top', bottom', left', right' := top, bottom, left, right;

    out := TraverseRight(matrix, result, top', left', right');
    top' := top' + 1;
    ghost var afterA := out;

    out := TraverseDown(matrix, out, right', top', bottom');
    right' := right' - 1;
    ghost var afterB := out;
    assert afterB == afterA + Values(matrix, b);

    if top' <= bottom' {
      out := TraverseLeft(matrix, out, bottom', right', left');
      bottom' := bottom' - 1;
    } else {
      assert c == [];
    }
    ghost var afterC := out;
    assert afterC == afterB + Values(matrix, c);

    if left' <= right' {
      out := TraverseUp(matrix, out, left', bottom', top');
      left' := left' + 1;
    } else {
      assert d == [];
    }
    assert out == afterC + Values(matrix, d);
    AppendFour(result, Values(matrix, a), Values(matrix, b), Values(matrix, c), Values(matrix, d));
  }

  /** `snail_matrix(matrix)`: the entries in clockwise spiral order. */
  method SnailMatrix(matrix: seq<seq<int>>) returns (result: seq<int>)
    requires |matrix| == 0 || |matrix[0]| == 0 || IsSquare(matrix)
    ensures |matrix| == 0 || |matrix[0]| == 0 ==> result == []
    ensures IsSquare(matrix) ==> result == Values(matrix, SpiralCells(|matrix|))
    ensures IsSquare(matrix) ==> |result| == |matrix| * |matrix|
    ensures IsSquare(matrix) ==> multiset(result) == multiset(Flatten(matrix))
    ensures IsSquare(matrix) && |matrix| > 0 ==> |result| >= |matrix| && result[..|matrix|] == matrix[0]
  {
    if |matrix| == 0 || |matrix[0]| == 0 {
      return [];
    }
    var n := |matrix|;
    result := [];
    var top, bottom := 0, n - 1;
    var left, right := 0, n - 1;
    while top <= bottom && left <= right
      invariant 0 <= left <= top
      invariant || (top == left && bottom == n - 1 - top && right == bottom && 2 * top <= n)
                || (top == left + 1 && bottom == left && right == left - 1 && 2 * left + 1 == n)
      invariant result == Values(matrix, Rings(n, top))
      invariant |result| == n * n - (bottom - top + 1) * (right - left + 1)
      decreases bottom - top + 1
    {
      ghost var t := top;
      RingsValuesStep(matrix, t);
      result, top, bottom, left, right := PeelRing(matrix, result, top, bottom, left, right);
      EmittedCount(n, top, bottom, left, right);
    }
    assert top == (n + 1) / 2;
    assert result == Values(matrix, SpiralCells(n));
    SpiralOrderFacts(matrix);
  }

  // ---------------------------------------------------------------------
  // Lemmas
  // ---------------------------------------------------------------------

  /** The top leg lists columns `c0..c1` of row `r`, once each, left to right. */
  lemma {:induction false} RowRightFacts(r: int, c0: int, c1: int)
    ensures |RowRight(r, c0, c1)| == Count(c0, c1)
    ensures forall x :: x in RowRight(r, c0, c1) <==> x.row == r && c0 <= x.col <= c1
    ensures Distinct(RowRight(r, c0, c1))
    decreases c1 - c0 + 1
  {
    if c0 <= c1 {
      RowRightFacts(r, c0, c1 - 1);
      DistinctAppend(RowRight(r, c0, c1 - 1), [Cell(r, c1)]);
    }
  }

  /** The right leg lists rows `r0..r1` of column `c`, once each, top to bottom. */
  lemma {:induction false} ColDownFacts(c: int, r0: int, r1: int)
    ensures |ColDown(c, r0, r1)| == Count(r0, r1)
    ensures forall x :: x in ColDown(c, r0, r1) <==> x.col == c && r0 <= x.row <= r1
    ensures Distinct(ColDown(c, r0, r1))
    decreases r1 - r0 + 1
  {
    if r0 <= r1 {
      ColDownFacts(c, r0, r1 - 1);
      DistinctAppend(ColDown(c, r0, r1 - 1), [Cell(r1, c)]);
    }
  }

  /** The bottom leg lists columns `c1` down to `c0` of row `r`, once each. */
  lemma {:induction false} RowLeftFacts(r: int, c1: int, c0: int)
    ensures |RowLeft(r, c1, c0)| == Count(c0, c1)
    ensures forall x :: x in RowLeft(r, c1, c0) <==> x.row == r && c0 <= x.col <= c1
    ensures Distinct(RowLeft(r, c1, c0))
    decreases c1 - c0 + 1
  {
    if c0 <= c1 {
      RowLeftFacts(r, c1, c0 + 1);
      DistinctAppend(RowLeft(r, c1, c0 + 1), [Cell(r, c0)]);
    }
  }

  /** The left leg lists rows `r1` up to `r0` of column `c`, once each. */
  lemma {:induction false} ColUpFacts(c: int, r1: int, r0: int)
    ensures |ColUp(c, r1, r0)| == Count(r0, r1)
    ensures forall x :: x in ColUp(c, r1, r0) <==> x.col == c && r0 <= x.row <= r1
    ensures Distinct(ColUp(c, r1, r0))
    decreases r1 - r0 + 1
  {
    if r0 <= r1 {
      ColUpFacts(c, r1, r0 + 1);
      DistinctAppend(ColUp(c, r1, r0 + 1), [Cell(r0, c)]);
    }
  }

  lemma ValuesSnoc(matrix: seq<seq<int>>, cells: seq<Cell>, x: Cell)
    ensures Values(matrix, cells + [x]) == Values(matrix, cells) + [At(matrix, x)]
  {
    assert (cells + [x])[..|cells|] == cells;
  }

  lemma RowRightValuesStep(matrix: seq<seq<int>>, r: int, c0: int, c1: int)
    requires c0 <= c1
    ensures Values(matrix, RowRight(r, c0, c1)) == Values(matrix, RowRight(r, c0, c1 - 1)) + [At(matrix, Cell(r, c1))]
  {
    ValuesSnoc(matrix, RowRight(r, c0, c1 - 1), Cell(r, c1));
  }

  lemma ColDownValuesStep(matrix: seq<seq<int>>, c: int, r0: int, r1: int)
    requires r0 <= r1
    ensures Values(matrix, ColDown(c, r0, r1)) == Values(matrix, ColDown(c, r0, r1 - 1)) + [At(matrix, Cell(r1, c))]
  {
    ValuesSnoc(matrix, ColDown(c, r0, r1 - 1), Cell(r1, c));
  }

  lemma RowLeftValuesStep(matrix: seq<seq<int>>, r: int, c1: int, c0: int)
    requires c0 <= c1
    ensures Values(matrix, RowLeft(r, c1, c0)) == Values(matrix, RowLeft(r, c1, c0 + 1)) + [At(matrix, Cell(r, c0))]
  {
    ValuesSnoc(matrix, RowLeft(r, c1, c0 + 1), Cell(r, c0));
  }

  lemma ColUpValuesStep(matrix: seq<seq<int>>, c: int, r1: int, r0: int)
    requires r0 <= r1
    ensures Values(matrix, ColUp(c, r1, r0)) == Values(matrix, ColUp(c, r1, r0 + 1)) + [At(matrix, Cell(r0, c))]
  {
    ValuesSnoc(matrix, ColUp(c, r1, r0 + 1), Cell(r0, c));
  }

  /** Looking up two runs of cells one after the other. */
  lemma {:induction false} ValuesAppend(matrix: seq<seq<int>>, a: seq<Cell>, b: seq<Cell>)
    ensures Values(matrix, a + b) == Values(matrix, a) + Values(matrix, b)
    decreases |b|
  {
    if |b| == 0 {
      assert a + b == a;
    } else {
      var init, y := b[..|b| - 1], b[|b| - 1];
      assert b == init + [y];
      assert a + b == (a + init) + [y];
      ValuesAppend(matrix, a, init);
      ValuesSnoc(matrix, a + init, y);
      ValuesSnoc(matrix, init, y);
    }
  }

  lemma ValuesPrefix(matrix: seq<seq<int>>, cells: seq<Cell>, k: nat)
    requires k <= |cells|
    ensures Values(matrix, cells)[..k] == Values(matrix, cells[..k])
  {
    assert cells == cells[..k] + cells[k..];
    ValuesAppend(matrix, cells[..k], cells[k..]);
  }

  /** Reading columns `0..c-1` of row `r` gives the first `c` entries of that row. */
  lemma {:induction false} ValuesOfRowPrefix(matrix: seq<seq<int>>, r: int, c: int)
    requires IsSquare(matrix) && 0 <= r < |matrix| && 0 <= c <= |matrix|
    ensures Values(matrix, RowRight(r, 0, c - 1)) == matrix[r][..c]
    decreases c
  {
    if c > 0 {
      ValuesOfRowPrefix(matrix, r, c - 1);
      ValuesSnoc(matrix, RowRight(r, 0, c - 2), Cell(r, c - 1));
      assert matrix[r][..c] == matrix[r][..c - 1] + [matrix[r][c - 1]];
    }
  }

  /** Reading a whole row left to right gives that row of the matrix. */
  lemma ValuesOfRow(matrix: seq<seq<int>>, r: int)
    requires IsSquare(matrix) && 0 <= r < |matrix|
    ensures Values(matrix, RowRight(r, 0, |matrix| - 1)) == matrix[r]
  {
    ValuesOfRowPrefix(matrix, r, |matrix|);
    assert matrix[r][..|matrix|] == matrix[r];
  }

  /** The values along ring `t` are the values along its four legs. */
  lemma RingLegValues(matrix: seq<seq<int>>, t: nat)
    ensures
      var e := |matrix| - 1 - t;
      Values(matrix, Ring(|matrix|, t)) ==
        Values(matrix, RowRight(t, t, e)) + Values(matrix, ColDown(e, t + 1, e))
        + Values(matrix, RowLeft(e, e - 1, t)) + Values(matrix, ColUp(t, e - 1, t + 1))
  {
    var e := |matrix| - 1 - t;
    var a, b, c, d := RowRight(t, t, e), ColDown(e, t + 1, e), RowLeft(e, e - 1, t), ColUp(t, e - 1, t + 1);
    assert Ring(|matrix|, t) == a + b + c + d;
    ValuesAppend(matrix, a + b + c, d);
    ValuesAppend(matrix, a + b, c);
    ValuesAppend(matrix, a, b);
  }

  /** Peeling ring `t` extends the values of the first `t` rings. */
  lemma RingsValuesStep(matrix: seq<seq<int>>, t: nat)
    ensures Values(matrix, Rings(|matrix|, t + 1)) == Values(matrix, Rings(|matrix|, t)) + Values(matrix, Ring(|matrix|, t))
  {
    ValuesAppend(matrix, Rings(|matrix|, t), Ring(|matrix|, t));
  }

  /** Regrouping of an output extended by four legs. Stated apart so that the
      proofs using it need not search for the rearrangement themselves. */
  lemma AppendFour(p: seq<int>, a: seq<int>, b: seq<int>, c: seq<int>, d: seq<int>)
    ensures p + (a + b + c + d) == p + a + b + c + d
  {
  }

  /** Ring `t` holds `4s - 4` cells for a side `s = n - 2t >= 2`, and one
      cell for the centre of an odd grid. */
  lemma RingLength(n: int, t: nat)
    requires 2 * t < n
    ensures n - 2 * t == 1 ==> |Ring(n, t)| == 1
    ensures n - 2 * t >= 2 ==> |Ring(n, t)| == 4 * (n - 2 * t) - 4
  {
    var e := n - 1 - t;
    RowRightFacts(t, t, e);
    ColDownFacts(e, t + 1, e);
    RowLeftFacts(e, e - 1, t);
    ColUpFacts(t, e - 1, t + 1);
  }

  /** The first `k` rings together hold `n² - (n - 2k)²` cells, and all
      `n²` once the centre of an odd grid is included. */
  lemma {:induction false} RingsLength(n: nat, k: nat)
    requires 2 * k <= n + 1
    ensures 2 * k <= n ==> |Rings(n, k)| == n * n - (n - 2 * k) * (n - 2 * k)
    ensures 2 * k == n + 1 ==> |Rings(n, k)| == n * n
    decreases k
  {
    if k > 0 {
      var t := k - 1;
      var s := n - 2 * t;
      RingsLength(n, t);
      RingLength(n, t);
      assert |Rings(n, k)| == |Rings(n, t)| + |Ring(n, t)|;
      assert |Rings(n, t)| == n * n - s * s;
      if s == 1 {
        assert |Ring(n, t)| == 1;
        assert |Rings(n, k)| == n * n - 1 + 1;
      } else {
        assert s * s - (s - 2) * (s - 2) == 4 * s - 4;
      }
    }
  }

  /** At the head of the loop, the cells emitted so far are all but the
      `(bottom - top + 1) × (right - left + 1)` block still inside the
      boundaries. */
  lemma EmittedCount(n: nat, top: int, bottom: int, left: int, right: int)
    requires 0 <= left <= top
    requires || (top == left && bottom == n - 1 - top && right == bottom && 2 * top <= n)
             || (top == left + 1 && bottom == left && right == left - 1 && 2 * left + 1 == n)
    ensures |Rings(n, top)| == n * n - (bottom - top + 1) * (right - left + 1)
  {
    RingsLength(n, top);
    if top == left {
      assert bottom - top + 1 == n - 2 * top == right - left + 1;
    } else {
      assert bottom - top + 1 == 0;
    }
  }

  lemma DistinctAppend(a: seq<Cell>, b: seq<Cell>)
    requires Distinct(a) && Distinct(b)
    requires forall x :: x in a ==> x !in b
    ensures Distinct(a + b)
  {
    var ab := a + b;
    forall i, j | 0 <= i < j < |ab|
      ensures ab[i] != ab[j]
    {
      if j >= |a| && i < |a| {
        assert ab[i] in a && ab[j] in b;
      }
    }
  }

  /** The cells of depth `t` are the border of the square `[t, n-1-t]²`. */
  lemma DepthIsBorder(n: int, t: int, x: Cell)
    requires 0 <= t
    ensures InGrid(n, x) && Depth(n, x) == t <==>
      var e := n - 1 - t;
      && t <= x.row <= e && t <= x.col <= e
      && (x.row == t || x.col == e || x.row == e || x.col == t)
  {
  }

  /** Ring `t` visits each cell of depth `t` exactly once and nothing else. */
  lemma RingCells(n: int, t: nat)
    requires 2 * t < n
    ensures Distinct(Ring(n, t))
    ensures forall x :: x in Ring(n, t) <==> InGrid(n, x) && Depth(n, x) == t
  {
    var e := n - 1 - t;
    var a, b, c, d := RowRight(t, t, e), ColDown(e, t + 1, e), RowLeft(e, e - 1, t), ColUp(t, e - 1, t + 1);
    RowRightFacts(t, t, e);
    ColDownFacts(e, t + 1, e);
    RowLeftFacts(e, e - 1, t);
    ColUpFacts(t, e - 1, t + 1);
    DistinctAppend(a, b);
    DistinctAppend(a + b, c);
    DistinctAppend(a + b + c, d);
    assert Ring(n, t) == a + b + c + d;
    forall x
      ensures x in Ring(n, t) <==> InGrid(n, x) && Depth(n, x) == t
    {
      DepthIsBorder(n, t, x);
      assert x in Ring(n, t) <==> x in a || x in b || x in c || x in d;
    }
  }

  /** The first `k` rings visit each cell of depth below `k` exactly once. */
  lemma {:induction false} RingsCells(n: int, k: nat)
    requires 2 * k <= n + 1
    ensures Distinct(Rings(n, k))
    ensures forall x :: x in Rings(n, k) <==> InGrid(n, x) && Depth(n, x) < k
    decreases k
  {
    if k > 0 {
      RingsCells(n, k - 1);
      RingCells(n, k - 1);
      DistinctAppend(Rings(n, k - 1), Ring(n, k - 1));
      assert Rings(n, k) == Rings(n, k - 1) + Ring(n, k - 1);
    }
  }

  lemma {:induction false} DistinctMultiplicity(s: seq<Cell>)
    requires Distinct(s)
    ensures forall x :: multiset(s)[x] == if x in s then 1 else 0
    decreases |s|
  {
    if |s| > 0 {
      var init := s[..|s| - 1];
      assert s == init + [s[|s| - 1]];
      DistinctMultiplicity(init);
    }
  }

  /** The spiral has n² cells and visits every cell of the grid exactly once. */
  lemma SpiralCellsExactlyOnce(n: nat)
    ensures |SpiralCells(n)| == n * n
    ensures Distinct(SpiralCells(n))
    ensures forall x :: x in SpiralCells(n) <==> InGrid(n, x)
    ensures forall x :: multiset(SpiralCells(n))[x] == if InGrid(n, x) then 1 else 0
  {
    var k := (n + 1) / 2;
    RingsLength(n, k);
    RingsCells(n, k);
    forall x | InGrid(n, x)
      ensures Depth(n, x) < k
    {
    }
    DistinctMultiplicity(SpiralCells(n));
  }

  /** Row-major order of the rows `r..n-1` of an n×n grid. */
  function RowMajorFrom(n: int, r: int): seq<Cell>
    decreases n - r
  {
    if r >= n then [] else RowRight(r, 0, n - 1) + RowMajorFrom(n, r + 1)
  }

  lemma {:induction false} RowMajorCells(n: int, r: int)
    requires 0 <= r
    ensures Distinct(RowMajorFrom(n, r))
    ensures forall x :: x in RowMajorFrom(n, r) <==> InGrid(n, x) && r <= x.row
    decreases n - r
  {
    if r < n {
      RowMajorCells(n, r + 1);
      RowRightFacts(r, 0, n - 1);
      DistinctAppend(RowRight(r, 0, n - 1), RowMajorFrom(n, r + 1));
    }
  }

  lemma {:induction false} RowMajorValues(matrix: seq<seq<int>>, r: int)
    requires IsSquare(matrix) && 0 <= r <= |matrix|
    ensures Values(matrix, RowMajorFrom(|matrix|, r)) == Flatten(matrix[r..])
    decreases |matrix| - r
  {
    var n := |matrix|;
    if r < n {
      RowMajorValues(matrix, r + 1);
      ValuesAppend(matrix, RowRight(r, 0, n - 1), RowMajorFrom(n, r + 1));
      ValuesOfRow(matrix, r);
      assert matrix[r..][1..] == matrix[r + 1..];
    } else {
      assert matrix[r..] == [];
    }
  }

  /** Reordering the cells reorders the values the same way. */
  lemma {:induction false} PermutedValues(matrix: seq<seq<int>>, a: seq<Cell>, b: seq<Cell>)
    requires multiset(a) == multiset(b)
    ensures multiset(Values(matrix, a)) == multiset(Values(matrix, b))
    decreases |a|
  {
    if |a| > 0 {
      var x := a[0];
      assert x in multiset(b);
      var j :| 0 <= j < |b| && b[j] == x;
      var pre, post := b[..j], b[j + 1..];
      var b' := pre + post;
      assert b == pre + [x] + post;
      assert a == [x] + a[1..];
      assert multiset(b) == multiset(pre) + multiset{x} + multiset(post);
      assert multiset(a) == multiset{x} + multiset(a[1..]);
      assert multiset(b') == multiset(pre) + multiset(post);
      forall y
        ensures multiset(a[1..])[y] == multiset(b')[y]
      {
        assert multiset(a)[y] == multiset(b)[y];
      }
      assert multiset(a[1..]) == multiset(b');
      PermutedValues(matrix, a[1..], b');
      ValuesAppend(matrix, [x], a[1..]);
      ValuesAppend(matrix, pre + [x], post);
      ValuesAppend(matrix, pre, [x]);
      ValuesAppend(matrix, pre, post);
    }
  }

  /** The spiral order is a reordering of the row-major order. */
  lemma SpiralCellsPermuteRowMajor(n: nat)
    ensures multiset(SpiralCells(n)) == multiset(RowMajorFrom(n, 0))
  {
    SpiralCellsExactlyOnce(n);
    RowMajorCells(n, 0);
    DistinctMultiplicity(RowMajorFrom(n, 0));
    forall x
      ensures multiset(SpiralCells(n))[x] == multiset(RowMajorFrom(n, 0))[x]
    {
    }
  }

  /** The spiral's values are a permutation of the matrix entries. */
  lemma SpiralEntriesArePermutation(matrix: seq<seq<int>>)
    requires IsSquare(matrix)
    ensures multiset(Values(matrix, SpiralCells(|matrix|))) == multiset(Flatten(matrix))
  {
    var n := |matrix|;
    SpiralCellsPermuteRowMajor(n);
    PermutedValues(matrix, SpiralCells(n), RowMajorFrom(n, 0));
    RowMajorValues(matrix, 0);
    assert matrix[0..] == matrix;
  }

  /** What `snail_matrix` promises about its output, stated on the
      reference order: n² entries, a permutation of the matrix entries,
      starting with the whole top row. */
  lemma SpiralOrderFacts(matrix: seq<seq<int>>)
    requires IsSquare(matrix)
    ensures |Values(matrix, SpiralCells(|matrix|))| == |matrix| * |matrix|
    ensures multiset(Values(matrix, SpiralCells(|matrix|))) == multiset(Flatten(matrix))
    ensures |matrix| > 0 ==>
      |Values(matrix, SpiralCells(|matrix|))| >= |matrix| &&
      Values(matrix, SpiralCells(|matrix|))[..|matrix|] == matrix[0]
  {
    SpiralCellsExactlyOnce(|matrix|);
    SpiralEntriesArePermutation(matrix);
    if |matrix| > 0 {
      SpiralStartsWithTopRow(matrix);
    }
  }

  /** A prefix of a concatenation that lies inside its first part. */
  lemma PrefixOfAppend(a: seq<Cell>, b: seq<Cell>, k: nat)
    requires k <= |a|
    ensures (a + b)[..k] == a[..k]
  {
  }

  /** For k >= 1 the first `k` rings start with the whole top row. */
  lemma {:induction false} RingsStartWithTopRow(n: int, k: nat)
    requires 1 <= k && 2 * k <= n + 1
    ensures |Rings(n, k)| >= n
    ensures Rings(n, k)[..n] == RowRight(0, 0, n - 1)
    decreases k
  {
    var top := RowRight(0, 0, n - 1);
    RowRightFacts(0, 0, n - 1);
    if k == 1 {
      var rest := ColDown(n - 1, 1, n - 1) + RowLeft(n - 1, n - 2, 0) + ColUp(0, n - 2, 1);
      assert Rings(n, 1) == [] + Ring(n, 0);
      assert Ring(n, 0) == top + ColDown(n - 1, 1, n - 1) + RowLeft(n - 1, n - 2, 0) + ColUp(0, n - 2, 1);
      assert [] + Ring(n, 0) == top + rest;
      PrefixOfAppend(top, rest, n);
      assert top[..n] == top;
    } else {
      RingsStartWithTopRow(n, k - 1);
      assert Rings(n, k) == Rings(n, k - 1) + Ring(n, k - 1);
      PrefixOfAppend(Rings(n, k - 1), Ring(n, k - 1), n);
    }
  }

  /** The first n outputs are row 0, left to right. */
  lemma SpiralStartsWithTopRow(matrix: seq<seq<int>>)
    requires IsSquare(matrix) && |matrix| > 0
    ensures |SpiralCells(|matrix|)| >= |matrix|
    ensures Values(matrix, SpiralCells(|matrix|))[..|matrix|] == matrix[0]
  {
    var n := |matrix|;
    RingsStartWithTopRow(n, (n + 1) / 2);
    ValuesPrefix(matrix, SpiralCells(n), n);
    ValuesOfRow(matrix, 0);
  }
}
