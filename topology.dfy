/**
  * Neighbour wiring on a rectangular wraparound (toroidal) grid: cells are
  * stored row-major, index = y * width + x, and each cell's neighbours are
  * found by applying a fixed table of (dx, dy) offsets modulo the dimensions.
  */
module Topology {
  import opened JavaBase

  datatype NeighborhoodType = Moore | VonNeumann | ExtendedVonNeumann

  /**
    * The offset table of a neighbourhood type: row 0 holds the x offsets,
    * row 1 the y offsets, column k is the k-th neighbour.
    */
  function Deltas(t: NeighborhoodType): (d: seq<seq<int>>)
    ensures |d| == 2 && |d[0]| == |d[1]| == NeighborCount(t)
  {
    match t
    case Moore =>
      [[-1, -1, 0, 1, 1, 1, 0, -1],
       [0, 1, 1, 1, 0, -1, -1, -1]]
    case VonNeumann =>
      [[-1, 0, 0, 1],
       [0, -1, 1, 0]]
    case ExtendedVonNeumann =>
      [[-2, -1, 0, 0, 2, 1, 0, 0],
       [0, 0, -2, -1, 0, 0, 2, 1]]
  }

  /** 8 for Moore, 4 for Von Neumann, 8 for extended Von Neumann. */
  function NeighborCount(t: NeighborhoodType): nat {
    if t == VonNeumann then 4 else 8
  }

  /** The offsets of column k of a table, as a pair. */
  function Offset(t: NeighborhoodType, k: nat): (int, int)
    requires k < NeighborCount(t)
  {
    (Deltas(t)[0][k], Deltas(t)[1][k])
  }

  /**
    * Each table holds what its name promises: Moore the 8 cells around the
    * origin, Von Neumann the 4 orthogonal ones, the extended variant the 4
    * orthogonal ones at distance 1 and the 4 at distance 2; no offset repeats.
    */
  lemma OffsetTables()
    ensures (set k | 0 <= k < 8 :: Offset(Moore, k))
         == (set dx, dy | -1 <= dx <= 1 && -1 <= dy <= 1 && (dx, dy) != (0, 0) :: (dx, dy))
    ensures (set k | 0 <= k < 4 :: Offset(VonNeumann, k))
         == {(-1, 0), (0, -1), (0, 1), (1, 0)}
    ensures (set k | 0 <= k < 8 :: Offset(ExtendedVonNeumann, k))
         == {(-1, 0), (0, -1), (0, 1), (1, 0), (-2, 0), (0, -2), (0, 2), (2, 0)}
    ensures forall t, i, j :: 0 <= i < j < NeighborCount(t) ==> Offset(t, i) != Offset(t, j)
  {
    MooreSquare();
    OffsetSet(Moore);
    OffsetSet(VonNeumann);
    OffsetSet(ExtendedVonNeumann);
    OffsetsDistinct(Moore);
    OffsetsDistinct(VonNeumann);
    OffsetsDistinct(ExtendedVonNeumann);
  }

  /** The 3 x 3 square around the origin, without the origin, is Moore's table listed column by column. */
  lemma MooreSquare()
    ensures (set dx, dy | -1 <= dx <= 1 && -1 <= dy <= 1 && (dx, dy) != (0, 0) :: (dx, dy))
         == {Offset(Moore, 0), Offset(Moore, 1), Offset(Moore, 2), Offset(Moore, 3),
             Offset(Moore, 4), Offset(Moore, 5), Offset(Moore, 6), Offset(Moore, 7)}
  {
    var moore := set dx, dy | -1 <= dx <= 1 && -1 <= dy <= 1 && (dx, dy) != (0, 0) :: (dx, dy);
    forall p | p in moore
      ensures p in {(-1, 0), (-1, 1), (0, 1), (1, 1), (1, 0), (1, -1), (0, -1), (-1, -1)}
    {
      var dx, dy :| -1 <= dx <= 1 && -1 <= dy <= 1 && (dx, dy) != (0, 0) && p == (dx, dy);
    }
    assert moore == {(-1, 0), (-1, 1), (0, 1), (1, 1), (1, 0), (1, -1), (0, -1), (-1, -1)};
  }

  /** No offset appears twice in a table. */
  lemma OffsetsDistinct(t: NeighborhoodType)
    ensures forall i, j :: 0 <= i < j < NeighborCount(t) ==> Offset(t, i) != Offset(t, j)
  {
    forall i, j | 0 <= i < j < NeighborCount(t)
      ensures Offset(t, i) != Offset(t, j)
    {
      assert i in {0, 1, 2, 3, 4, 5, 6} && j in {1, 2, 3, 4, 5, 6, 7};
    }
  }

  /** The set of a table's offsets, listed column by column. */
  lemma OffsetSet(t: NeighborhoodType)
    ensures t == VonNeumann ==>
      ((set k | 0 <= k < 4 :: Offset(t, k)) == {Offset(t, 0), Offset(t, 1), Offset(t, 2), Offset(t, 3)})
    ensures t != VonNeumann ==>
      ((set k | 0 <= k < 8 :: Offset(t, k)) ==
       {Offset(t, 0), Offset(t, 1), Offset(t, 2), Offset(t, 3),
        Offset(t, 4), Offset(t, 5), Offset(t, 6), Offset(t, 7)})
  {
    var n := NeighborCount(t);
    var s := set k | 0 <= k < n :: Offset(t, k);
    forall p | p in s
      ensures p in {Offset(t, 0), Offset(t, 1), Offset(t, 2), Offset(t, 3)} ||
              (n == 8 && p in {Offset(t, 4), Offset(t, 5), Offset(t, 6), Offset(t, 7)})
    {
      var k :| 0 <= k < n && p == Offset(t, k);
      assert k in {0, 1, 2, 3, 4, 5, 6, 7};
    }
    assert Offset(t, 0) in s && Offset(t, 1) in s && Offset(t, 2) in s && Offset(t, 3) in s;
    if n == 8 {
      assert Offset(t, 4) in s && Offset(t, 5) in s && Offset(t, 6) in s && Offset(t, 7) in s;
    }
  }

  /**
    * getNeighbor: the index of the cell at offset (deltaX, deltaY) from cell
    * `ownIndex` on a width x height grid (whose cell list has width * height
    * entries). It rejects a negative index and one above the list size (the
    * size itself is let through), and divides by zero when a dimension is 0.
    */
  function GetNeighbor(width: nat, height: nat, ownIndex: int, deltaX: int, deltaY: int): (r: Result<nat>)
    ensures r.Failure? <==> ownIndex < 0 || ownIndex > width * height || width == 0 || height == 0
    ensures r.Failure? && (ownIndex < 0 || ownIndex > width * height) ==> r.error == IllegalArgument
    ensures r.Failure? && 0 <= ownIndex <= width * height ==> r.error == DivisionByZero
    ensures r.Success? ==> r.value < width * height
    ensures r.Success? ==> r.value % width == (ownIndex % width + deltaX) % width
    ensures r.Success? ==> r.value / width == (ownIndex / width + deltaY) % height
  {
    if ownIndex < 0 || ownIndex > width * height then Failure(IllegalArgument)
    else if width == 0 then Failure(DivisionByZero)
    else
      var ownX := JavaRem(ownIndex, width);
      var ownY := JavaDiv(ownIndex, width);
      var neighborX0 := JavaRem(ownX + deltaX, width);
      var neighborX := if neighborX0 < 0 then width + neighborX0 else neighborX0;
      if height == 0 then Failure(DivisionByZero)
      else
        var neighborY0 := JavaRem(ownY + deltaY, height);
        var neighborY := if neighborY0 < 0 then height + neighborY0 else neighborY0;
        assert neighborX == Wrap(ownX + deltaX, width);
        assert neighborY == Wrap(ownY + deltaY, height);
        RowMajor(width, height, neighborX, neighborY);
        Success(neighborY * width + neighborX)
  }

  /** Row-major placement: (x, y) inside the grid gives an index inside the grid, and back. */
  lemma RowMajor(width: nat, height: nat, x: int, y: int)
    requires 0 <= x < width && 0 <= y < height
    ensures 0 <= y * width + x < width * height
    ensures (y * width + x) % width == x && (y * width + x) / width == y
  {
    assert y * width + x < (y + 1) * width;
    assert (y + 1) * width <= height * width;
    EuclideanUnique(y * width + x, width, y, x);
  }

  /** The neighbour indices of one cell, in offset-table order (initNeighborhood's list). */
  function NeighborIndices(width: nat, height: nat, t: NeighborhoodType, ownIndex: nat): (r: seq<nat>)
    requires ownIndex < width * height
    ensures |r| == NeighborCount(t)
    ensures forall k :: 0 <= k < |r| ==> r[k] < width * height
  {
    seq(NeighborCount(t), k requires 0 <= k < NeighborCount(t) =>
      GetNeighbor(width, height, ownIndex, Deltas(t)[0][k], Deltas(t)[1][k]).value)
  }

  /** Neighbour k of cell i in closed form: the row-major index of its wrapped column and row. */
  lemma NeighborAt(width: nat, height: nat, t: NeighborhoodType, i: nat, k: nat)
    requires i < width * height && k < NeighborCount(t)
    ensures NeighborIndices(width, height, t, i)[k]
         == ((i / width + Deltas(t)[1][k]) % height) * width + (i % width + Deltas(t)[0][k]) % width
  {
    NonEmptyGrid(width, height);
    var dx, dy := Deltas(t)[0][k], Deltas(t)[1][k];
    var v := GetNeighbor(width, height, i, dx, dy).value;
    assert NeighborIndices(width, height, t, i)[k] == v;
    var x, y := (i % width + dx) % width, (i / width + dy) % height;
    assert v % width == x && v / width == y;
    RowMajorIndex(v, width);
  }

  /** A grid with a cell has both dimensions positive. */
  lemma NonEmptyGrid(width: nat, height: nat)
    requires width * height > 0
    ensures width > 0 && height > 0
  {
  }

  /** An index is its row times the width plus its column. */
  lemma RowMajorIndex(v: int, width: int)
    requires width > 0
    ensures v == (v / width) * width + v % width
  {
  }

  /** The whole wiring: entry i lists the neighbour indices of cell i. */
  function Wiring(width: nat, height: nat, t: NeighborhoodType): (r: seq<seq<nat>>)
    ensures WellWired(r, width * height)
    ensures forall i :: 0 <= i < |r| ==> |r[i]| == NeighborCount(t)
  {
    seq(width * height, i requires 0 <= i < width * height => NeighborIndices(width, height, t, i))
  }

  /** Every entry of a wiring of n cells is an index below n. */
  ghost predicate WellWired(wiring: seq<seq<nat>>, n: nat) {
    |wiring| == n && forall i, k :: 0 <= i < n && 0 <= k < |wiring[i]| ==> wiring[i][k] < n
  }

  /** The wiring has one list per cell, each as long as the offset table, of indices inside the grid. */
  lemma WiringShape(width: nat, height: nat, t: NeighborhoodType)
    ensures WellWired(Wiring(width, height, t), width * height)
    ensures forall i :: 0 <= i < width * height ==> |Wiring(width, height, t)[i]| == NeighborCount(t)
  {
  }

  /**
    * Wraparound: neighbour k of cell (x, y) is the cell
    * ((x + dx) mod width, (y + dy) mod height), where (dx, dy) is column k of the table.
    */
  lemma WiringOffsets(width: nat, height: nat, t: NeighborhoodType)
    ensures forall i, k :: 0 <= i < width * height && 0 <= k < NeighborCount(t) ==>
      var n := Wiring(width, height, t)[i][k];
      n % width == (i % width + Deltas(t)[0][k]) % width &&
      n / width == (i / width + Deltas(t)[1][k]) % height
  {
    var w := Wiring(width, height, t);
    forall i, k | 0 <= i < width * height && 0 <= k < NeighborCount(t)
      ensures w[i][k] % width == (i % width + Deltas(t)[0][k]) % width
      ensures w[i][k] / width == (i / width + Deltas(t)[1][k]) % height
    {
      var g := GetNeighbor(width, height, i, Deltas(t)[0][k], Deltas(t)[1][k]);
      assert w[i][k] == g.value;
    }
  }

  /** On a 5 x 5 grid the Moore neighbour of (0, 0) at offset (-1, -1) is (4, 4), index 24. */
  lemma WraparoundCorner()
    ensures GetNeighbor(5, 5, 0, -1, -1) == Success(24)
    ensures Offset(Moore, 7) == (-1, -1) && Wiring(5, 5, Moore)[0][7] == 24
  {
    assert Wiring(5, 5, Moore)[0] == NeighborIndices(5, 5, Moore, 0);
  }

  /** Aliased neighbours are kept: on a 1 x 1 grid every neighbour is cell 0 itself. */
  lemma SingleCellWiring(t: NeighborhoodType)
    ensures Wiring(1, 1, t) == [seq(NeighborCount(t), _ => 0)]
  {
    var w := Wiring(1, 1, t);
    assert |w| == 1;
    assert w[0] == seq(NeighborCount(t), _ => 0);
  }

  /** A grid with a zero dimension has no cells and therefore no wiring. */
  lemma EmptyGridWiring(width: nat, height: nat, t: NeighborhoodType)
    requires width == 0 || height == 0
    ensures Wiring(width, height, t) == []
  {
  }
}
