/** The spiral orders listed for `snail_matrix`, stated on the cell order
    that the method's contract fixes. */
module SnailExamples {
  import opened Snail

  lemma OuterRingOfThree(n: int)
    requires n == 3
    ensures Ring(n, 0) == [Cell(0, 0), Cell(0, 1), Cell(0, 2), Cell(1, 2), Cell(2, 2),
                           Cell(2, 1), Cell(2, 0), Cell(1, 0)]
  {
    assert RowRight(0, 0, 2) == [Cell(0, 0), Cell(0, 1), Cell(0, 2)];
    assert ColDown(2, 1, 2) == [Cell(1, 2), Cell(2, 2)];
    assert RowLeft(2, 1, 0) == [Cell(2, 1), Cell(2, 0)];
    assert ColUp(0, 1, 1) == [Cell(1, 0)];
  }

  lemma CentreOfThree(n: int)
    requires n == 3
    ensures Ring(n, 1) == [Cell(1, 1)]
  {
    assert RowRight(1, 1, 1) == [Cell(1, 1)];
    assert ColDown(1, 2, 1) == [];
    assert RowLeft(1, 0, 1) == [];
    assert ColUp(1, 0, 2) == [];
  }

  lemma SpiralCellsOfThree(n: nat)
    requires n == 3
    ensures SpiralCells(n) == [Cell(0, 0), Cell(0, 1), Cell(0, 2), Cell(1, 2), Cell(2, 2),
                               Cell(2, 1), Cell(2, 0), Cell(1, 0), Cell(1, 1)]
  {
    assert (n + 1) / 2 == 2;
    TwoRings(n);
    OuterRingOfThree(n);
    CentreOfThree(n);
  }

  lemma ValuesOfThree(matrix: seq<seq<int>>, cells: seq<Cell>)
    requires matrix == [[1, 2, 3], [4, 5, 6], [7, 8, 9]]
    requires cells == [Cell(0, 0), Cell(0, 1), Cell(0, 2), Cell(1, 2), Cell(2, 2),
                       Cell(2, 1), Cell(2, 0), Cell(1, 0), Cell(1, 1)]
    ensures Values(matrix, cells) == [1, 2, 3, 6, 9, 8, 7, 4, 5]
  {
  }

  lemma Example3x3(matrix: seq<seq<int>>)
    requires matrix == [[1, 2, 3], [4, 5, 6], [7, 8, 9]]
    ensures Values(matrix, SpiralCells(|matrix|)) == [1, 2, 3, 6, 9, 8, 7, 4, 5]
  {
    var n := |matrix|;
    SpiralCellsOfThree(n);
    ValuesOfThree(matrix, SpiralCells(n));
  }

  lemma OuterRingOfFour(n: int)
    requires n == 4
    ensures Ring(n, 0) == [Cell(0, 0), Cell(0, 1), Cell(0, 2), Cell(0, 3), Cell(1, 3), Cell(2, 3),
                           Cell(3, 3), Cell(3, 2), Cell(3, 1), Cell(3, 0), Cell(2, 0), Cell(1, 0)]
  {
    assert RowRight(0, 0, 3) == [Cell(0, 0), Cell(0, 1), Cell(0, 2), Cell(0, 3)];
    assert ColDown(3, 1, 3) == [Cell(1, 3), Cell(2, 3), Cell(3, 3)];
    assert RowLeft(3, 2, 0) == [Cell(3, 2), Cell(3, 1), Cell(3, 0)];
    assert ColUp(0, 2, 1) == [Cell(2, 0), Cell(1, 0)];
  }

  lemma InnerRingOfFour(n: int)
    requires n == 4
    ensures Ring(n, 1) == [Cell(1, 1), Cell(1, 2), Cell(2, 2), Cell(2, 1)]
  {
    assert RowRight(1, 1, 2) == [Cell(1, 1), Cell(1, 2)];
    assert ColDown(2, 2, 2) == [Cell(2, 2)];
    assert RowLeft(2, 1, 1) == [Cell(2, 1)];
    assert ColUp(1, 1, 2) == [];
  }

  /** The first two rings, for any grid size. */
  lemma TwoRings(n: int)
    ensures Rings(n, 2) == Ring(n, 0) + Ring(n, 1)
  {
    assert Rings(n, 1) == [] + Ring(n, 0);
    assert [] + Ring(n, 0) == Ring(n, 0);
  }

  lemma SpiralCellsOfFour(n: nat)
    requires n == 4
    ensures SpiralCells(n) == Ring(n, 0) + Ring(n, 1)
  {
    assert (n + 1) / 2 == 2;
    TwoRings(n);
  }

  lemma OuterValuesOfFour(matrix: seq<seq<int>>, cells: seq<Cell>)
    requires matrix == [[1, 2, 3, 4], [5, 6, 7, 8], [9, 10, 11, 12], [13, 14, 15, 16]]
    requires cells == [Cell(0, 0), Cell(0, 1), Cell(0, 2), Cell(0, 3), Cell(1, 3), Cell(2, 3),
                       Cell(3, 3), Cell(3, 2), Cell(3, 1), Cell(3, 0), Cell(2, 0), Cell(1, 0)]
    ensures Values(matrix, cells) == [1, 2, 3, 4, 8, 12, 16, 15, 14, 13, 9, 5]
  {
  }

  lemma InnerValuesOfFour(matrix: seq<seq<int>>, cells: seq<Cell>)
    requires matrix == [[1, 2, 3, 4], [5, 6, 7, 8], [9, 10, 11, 12], [13, 14, 15, 16]]
    requires cells == [Cell(1, 1), Cell(1, 2), Cell(2, 2), Cell(2, 1)]
    ensures Values(matrix, cells) == [6, 7, 11, 10]
  {
  }

  lemma ValuesOfFour(matrix: seq<seq<int>>, outer: seq<Cell>, inner: seq<Cell>)
    requires matrix == [[1, 2, 3, 4], [5, 6, 7, 8], [9, 10, 11, 12], [13, 14, 15, 16]]
    requires outer == [Cell(0, 0), Cell(0, 1), Cell(0, 2), Cell(0, 3), Cell(1, 3), Cell(2, 3),
                       Cell(3, 3), Cell(3, 2), Cell(3, 1), Cell(3, 0), Cell(2, 0), Cell(1, 0)]
    requires inner == [Cell(1, 1), Cell(1, 2), Cell(2, 2), Cell(2, 1)]
    ensures Values(matrix, outer + inner) == [1, 2, 3, 4, 8, 12, 16, 15, 14, 13, 9, 5, 6, 7, 11, 10]
  {
    ValuesAppend(matrix, outer, inner);
    OuterValuesOfFour(matrix, outer);
    InnerValuesOfFour(matrix, inner);
  }

  lemma Example4x4(matrix: seq<seq<int>>)
    requires matrix == [[1, 2, 3, 4], [5, 6, 7, 8], [9, 10, 11, 12], [13, 14, 15, 16]]
    ensures Values(matrix, SpiralCells(|matrix|)) == [1, 2, 3, 4, 8, 12, 16, 15, 14, 13, 9, 5, 6, 7, 11, 10]
  {
    var n := |matrix|;
    SpiralCellsOfFour(n);
    OuterRingOfFour(n);
    InnerRingOfFour(n);
    ValuesOfFour(matrix, Ring(n, 0), Ring(n, 1));
  }

  lemma Example1x1(matrix: seq<seq<int>>)
    requires matrix == [[5]]
    ensures Values(matrix, SpiralCells(|matrix|)) == [5]
  {
    assert SpiralCells(1) == Ring(1, 0) == [Cell(0, 0)];
  }

  lemma ExampleEmpty(matrix: seq<seq<int>>)
    requires matrix == []
    ensures Values(matrix, SpiralCells(|matrix|)) == []
  {
  }

  lemma SquareOfThree(matrix: seq<seq<int>>)
    requires matrix == [[1, 2, 3], [4, 5, 6], [7, 8, 9]]
    ensures IsSquare(matrix)
  {
  }

  /** `snail_matrix` on the three-by-three grid listed with the source. */
  method SnailOfThree() returns (r: seq<int>)
    ensures r == [1, 2, 3, 6, 9, 8, 7, 4, 5]
  {
    var matrix := [[1, 2, 3], [4, 5, 6], [7, 8, 9]];
    SquareOfThree(matrix);
    r := SnailMatrix(matrix);
    Example3x3(matrix);
  }

  lemma SquareOfFour(matrix: seq<seq<int>>)
    requires matrix == [[1, 2, 3, 4], [5, 6, 7, 8], [9, 10, 11, 12], [13, 14, 15, 16]]
    ensures IsSquare(matrix)
  {
  }

  /** `snail_matrix` on the four-by-four grid listed with the source. */
  method SnailOfFour() returns (r: seq<int>)
    ensures r == [1, 2, 3, 4, 8, 12, 16, 15, 14, 13, 9, 5, 6, 7, 11, 10]
  {
    var matrix := [[1, 2, 3, 4], [5, 6, 7, 8], [9, 10, 11, 12], [13, 14, 15, 16]];
    SquareOfFour(matrix);
    r := SnailMatrix(matrix);
    Example4x4(matrix);
  }

  /** `snail_matrix([[5]])` is `[5]`. */
  method SnailOfOne() returns (r: seq<int>)
    ensures r == [5]
  {
    var matrix := [[5]];
    assert IsSquare(matrix);
    r := SnailMatrix(matrix);
    Example1x1(matrix);
  }

  /** An empty grid, and a grid whose first row is empty, give `[]`. */
  method SnailOfEmpty() returns (r: seq<int>, s: seq<int>)
    ensures r == [] && s == []
  {
    r := SnailMatrix([]);
    s := SnailMatrix([[]]);
  }
}
