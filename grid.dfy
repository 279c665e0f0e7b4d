/** Geometry of the fixed 3 x 3 grid: flattened indices, coordinates,
    the four neighbour directions and the Manhattan distance. */
module Grid {

  /** NUM_TILES: the grid is N x N. */
  const N: int := 3

  /** Number of slots on the board. */
  const Cells: int := N * N

  /** NEIGHBOUR_COORDS: (dx, dy) for left, right, up, down, in that order. */
  const NeighbourCoords: seq<(int, int)> := [(-1, 0), (1, 0), (0, -1), (0, 1)]

  predicate InBounds(x: int, y: int) {
    0 <= x < N && 0 <= y < N
  }

  /** Column of a flattened index (`i % NUM_TILES`). */
  function Column(i: nat): nat { i % N }

  /** Row of a flattened index (`i / NUM_TILES`). */
  function Row(i: nat): nat { i / N }

  /** Row-major index of a cell; an in-bounds cell gets a slot index. */
  function XYtoIndex(x: int, y: int): (i: int)
    ensures InBounds(x, y) ==> 0 <= i < Cells
  {
    x + y * N
  }

  /** The column and row of an in-bounds cell's index are the coordinates it was built from. */
  lemma CoordinatesRoundTrip(x: int, y: int)
    requires InBounds(x, y)
    ensures Column(XYtoIndex(x, y)) == x && Row(XYtoIndex(x, y)) == y
  {
  }

  /** The other half of the round trip: every slot index is rebuilt from its coordinates. */
  lemma IndexRoundTrip(i: nat)
    requires i < Cells
    ensures InBounds(Column(i), Row(i)) && XYtoIndex(Column(i), Row(i)) == i
  {
  }

  function Abs(v: int): nat { if v < 0 then -v else v }

  /** Manhattan distance between two cells given by their flattened indices. */
  function Distance(i: nat, j: nat): nat {
    Abs(Column(i) - Column(j)) + Abs(Row(i) - Row(j))
  }

  /** Two slots are orthogonal neighbours on the grid. */
  predicate Adjacent(i: nat, j: nat) {
    i < Cells && j < Cells && Distance(i, j) == 1
  }

  predicate IsCorner(i: nat) {
    i < Cells && (Column(i) == 0 || Column(i) == N - 1) && (Row(i) == 0 || Row(i) == N - 1)
  }

  predicate IsCentre(i: nat) {
    i < Cells && Column(i) == 1 && Row(i) == 1
  }

  /** In-bounds neighbour cells of (x, y) reached by the first d directions of
      NeighbourCoords, in direction order. */
  function NeighbourCellsUpTo(x: int, y: int, d: nat): (cells: seq<nat>)
    requires d <= |NeighbourCoords|
    ensures forall k :: 0 <= k < |cells| ==> cells[k] < Cells
    decreases d
  {
    if d == 0 then []
    else
      var nx, ny := x + NeighbourCoords[d - 1].0, y + NeighbourCoords[d - 1].1;
      NeighbourCellsUpTo(x, y, d - 1) + (if InBounds(nx, ny) then [XYtoIndex(nx, ny) as nat] else [])
  }

  /** In-bounds neighbour cells of (x, y), one per direction, in the order left, right, up, down. */
  function NeighbourCells(x: int, y: int): (cells: seq<nat>)
    ensures forall k :: 0 <= k < |cells| ==> cells[k] < Cells
  {
    NeighbourCellsUpTo(x, y, |NeighbourCoords|)
  }

  /** NeighbourCells written out direction by direction: left, right, up, down. */
  lemma NeighbourCellsInOrder(x: int, y: int)
    requires InBounds(x, y)
    ensures NeighbourCells(x, y) ==
              (if x > 0 then [XYtoIndex(x - 1, y) as nat] else []) +
              (if x < N - 1 then [XYtoIndex(x + 1, y) as nat] else []) +
              (if y > 0 then [XYtoIndex(x, y - 1) as nat] else []) +
              (if y < N - 1 then [XYtoIndex(x, y + 1) as nat] else [])
  {
    var left := if x > 0 then [XYtoIndex(x - 1, y) as nat] else [];
    var right := if x < N - 1 then [XYtoIndex(x + 1, y) as nat] else [];
    var up := if y > 0 then [XYtoIndex(x, y - 1) as nat] else [];
    var down := if y < N - 1 then [XYtoIndex(x, y + 1) as nat] else [];
    assert NeighbourCellsUpTo(x, y, 1) == left;
    assert NeighbourCellsUpTo(x, y, 2) == left + right;
    assert NeighbourCellsUpTo(x, y, 3) == left + right + up;
  }

  /** The cells adjacent to an in-bounds cell (x, y) are the in-bounds cells one step away along an axis. */
  lemma AdjacentCoordinates(x: int, y: int, k: nat)
    requires InBounds(x, y) && k < Cells
    ensures Adjacent(k, XYtoIndex(x, y)) <==>
              (Column(k) == x - 1 && Row(k) == y) || (Column(k) == x + 1 && Row(k) == y) ||
              (Column(k) == x && Row(k) == y - 1) || (Column(k) == x && Row(k) == y + 1)
  {
    CoordinatesRoundTrip(x, y);
  }

  /** A cell is generated as a neighbour of (x, y) exactly when it is orthogonally adjacent to it. */
  lemma NeighbourCellsAreAdjacent(x: int, y: int, k: nat)
    requires InBounds(x, y)
    ensures k in NeighbourCells(x, y) <==> Adjacent(k, XYtoIndex(x, y))
  {
    NeighbourCellsInOrder(x, y);
    if k < Cells {
      IndexRoundTrip(k);
      AdjacentCoordinates(x, y, k);
    }
  }

  /** Two neighbours in a corner, four in the centre, three on an edge. */
  lemma NeighbourCount(x: int, y: int)
    requires InBounds(x, y)
    ensures |NeighbourCells(x, y)| ==
              if IsCorner(XYtoIndex(x, y)) then 2
              else if IsCentre(XYtoIndex(x, y)) then 4
              else 3
  {
    NeighbourCellsInOrder(x, y);
  }

  /** No direction is generated twice. */
  lemma NeighbourCellsDistinct(x: int, y: int)
    requires InBounds(x, y)
    ensures forall a, b :: 0 <= a < b < |NeighbourCells(x, y)| ==>
              NeighbourCells(x, y)[a] != NeighbourCells(x, y)[b]
  {
    NeighbourCellsInOrder(x, y);
  }

  lemma AdjacentSymmetric(i: nat, j: nat)
    requires Adjacent(i, j)
    ensures Adjacent(j, i)
  {
  }

  /** One orthogonal step changes the distance to any fixed cell by exactly one. */
  lemma AdjacentDistanceStep(i: nat, j: nat, home: nat)
    requires Adjacent(i, j)
    ensures Distance(i, home) == Distance(j, home) + 1 || Distance(j, home) == Distance(i, home) + 1
  {
  }
}
