/** The PuzzleBoard class: one snapshot of the grid with its step count and the
    board it was derived from. Its methods work step by step as the original
    does and are proved against the value-level functions of BoardSpec. */
module Puzzle8 {
  import opened Grid
  import opened BoardSpec

  /** The boards are, position by position, children of parent one step further
      on whose slots are the given arrangements. */
  ghost predicate ChildrenOf(boards: seq<PuzzleBoard>, arrangements: seq<seq<Slot>>, parent: PuzzleBoard)
    reads boards, parent
  {
    |boards| == |arrangements| &&
    forall k :: 0 <= k < |boards| ==>
      boards[k].tiles == arrangements[k] &&
      boards[k].stepNumber == parent.stepNumber + 1 &&
      boards[k].previousBoard == parent
  }

  lemma ChildrenAppend(boards: seq<PuzzleBoard>, arrangements: seq<seq<Slot>>, child: PuzzleBoard, parent: PuzzleBoard)
    requires ChildrenOf(boards, arrangements, parent)
    requires child.stepNumber == parent.stepNumber + 1 && child.previousBoard == parent
    ensures ChildrenOf(boards + [child], arrangements + [child.tiles], parent)
  {
    assert forall k :: 0 <= k < |boards| ==> (boards + [child])[k] == boards[k];
  }

  /** Boards that carry, position by position, the neighbour arrangements of a
      valid board (as the result of `Neighbours` does) are valid. */
  lemma ChildrenValid(boards: seq<PuzzleBoard>, parent: PuzzleBoard)
    requires |parent.tiles| == Cells && parent.Valid()
    requires |boards| == |NeighbourArrangements(parent.tiles)|
    requires forall k :: 0 <= k < |boards| ==> boards[k].tiles == NeighbourArrangements(parent.tiles)[k]
    ensures forall k :: 0 <= k < |boards| ==> boards[k].Valid()
  {
    NeighbourArrangementsValid(parent.tiles);
  }

  class PuzzleBoard {
    /** Row-major slots; Empty stands for the `null` entry of the original list. */
    var tiles: seq<Slot>
    /** Number of moves from the root board. */
    var stepNumber: nat
    /** The board this one was derived from; null for a root board. */
    var previousBoard: PuzzleBoard?

    /** The board invariant every constructed board keeps. */
    predicate Valid()
      reads this
    {
      ValidSlots(tiles)
    }

    /** Root board in the solved arrangement, built slot by slot in row-major order. */
    constructor ()
      ensures tiles == GoalSlots() && stepNumber == 0 && previousBoard == null
      ensures Valid()
    {
      stepNumber := 0;
      previousBoard := null;
      tiles := [];
      new;
      for y := 0 to N
        invariant tiles == GoalSlots()[..y * N]
        invariant stepNumber == 0 && previousBoard == null
      {
        for x := 0 to N
          invariant tiles == GoalSlots()[..y * N + x]
          invariant stepNumber == 0 && previousBoard == null
        {
          var tileNumber := y * N + x;
          if tileNumber != N * N - 1 {
            tiles := tiles + [Tile(tileNumber)];
          } else {
            tiles := tiles + [Empty];
          }
        }
      }
    }

    /** Board derived from otherBoard: a copy of its slots, one step further. */
    constructor FromParent(otherBoard: PuzzleBoard, stepNumber: nat)
      ensures tiles == otherBoard.tiles && previousBoard == otherBoard
      ensures this.stepNumber == stepNumber + 1
      ensures otherBoard.Valid() ==> Valid()
    {
      previousBoard := otherBoard;
      tiles := otherBoard.tiles;
      this.stepNumber := stepNumber + 1;
    }

    /** Boards are equal when their slots agree position by position; the step
        number and the previous board play no part. */
    function Equals(other: PuzzleBoard): (r: bool)
      reads this, other
      ensures r <==> |tiles| == |other.tiles| &&
                     forall i :: 0 <= i < |tiles| ==> tiles[i] == other.tiles[i]
    {
      tiles == other.tiles
    }

    /** Goal test: slots 0..7 hold tiles 0..7, checked in order. */
    method Resolved() returns (r: bool)
      requires |tiles| == Cells
      ensures r == IsResolved(tiles)
    {
      for i := 0 to Cells - 1
        invariant forall k :: 0 <= k < i ==> tiles[k] == Tile(k)
      {
        var tile := tiles[i];
        if tile == Empty || tile.number != i {
          return false;
        }
      }
      return true;
    }

    /** Transposes slots i and j in place. */
    method SwapTiles(i: nat, j: nat)
      requires i < |tiles| && j < |tiles|
      modifies this
      ensures tiles == Swap(old(tiles), i, j)
      ensures stepNumber == old(stepNumber) && previousBoard == old(previousBoard)
      ensures old(Valid()) ==> Valid()
    {
      SwapPermutes(tiles, i, j);
      var temp := tiles[i];
      tiles := tiles[i := tiles[j]];
      tiles := tiles[j := temp];
    }

    /** Moves the tile at (tileX, tileY) into the first neighbouring cell, in the
        order left, right, up, down, that is empty; reports whether it moved. */
    method TryMoving(tileX: int, tileY: int) returns (moved: bool)
      requires |tiles| == Cells && InBounds(tileX, tileY)
      modifies this
      ensures moved <==> MoveTarget(old(tiles), tileX, tileY).Some?
      ensures tiles == TryMoveResult(old(tiles), tileX, tileY)
      ensures stepNumber == old(stepNumber) && previousBoard == old(previousBoard)
      ensures old(Valid()) ==> Valid()
    {
      ghost var s := tiles;
      for d := 0 to |NeighbourCoords|
        invariant tiles == s
        invariant MoveTargetFrom(s, tileX, tileY, d) == MoveTarget(s, tileX, tileY)
      {
        var delta := NeighbourCoords[d];
        var nullX := tileX + delta.0;
        var nullY := tileY + delta.1;
        if InBounds(nullX, nullY) && tiles[XYtoIndex(nullX, nullY)] == Empty {
          assert MoveTarget(s, tileX, tileY) == Some(XYtoIndex(nullX, nullY) as nat);
          SwapTiles(XYtoIndex(nullX, nullY), XYtoIndex(tileX, tileY));
          return true;
        }
      }
      return false;
    }

    /** A fresh child of this board (one step further, pointing back here) whose
        slots are this board's with i and j transposed. */
    method Child(i: nat, j: nat) returns (child: PuzzleBoard)
      requires i < |tiles| && j < |tiles|
      ensures fresh(child)
      ensures child.tiles == Swap(tiles, i, j)
      ensures child.stepNumber == stepNumber + 1 && child.previousBoard == this
    {
      child := new PuzzleBoard.FromParent(this, stepNumber);
      child.SwapTiles(i, j);
    }

    /** Coordinates of the first empty slot in row-major order, (0, 0) when there
        is none: the scan that opens `neighbours`. */
    method EmptyTile() returns (emptyTileX: nat, emptyTileY: nat)
      requires |tiles| == Cells
      ensures emptyTileX == Column(EmptyIndex(tiles)) && emptyTileY == Row(EmptyIndex(tiles))
      ensures InBounds(emptyTileX, emptyTileY)
    {
      emptyTileX, emptyTileY := 0, 0;
      for i := 0 to Cells
        invariant EmptyIndexFrom(tiles, i) == EmptyIndex(tiles)
        invariant emptyTileX == 0 && emptyTileY == 0
      {
        if tiles[i] == Empty {
          emptyTileX := Column(i);
          emptyTileY := Row(i);
          break;
        }
      }
      IndexRoundTrip(EmptyIndex(tiles));
    }

    /** All boards one move away: for each in-bounds direction around the empty
        slot, in the order left, right, up, down, a fresh child of this board with
        the empty slot and that neighbour swapped. This board is not changed. */
    method Neighbours() returns (neighbourBoards: seq<PuzzleBoard>)
      requires |tiles| == Cells
      ensures |neighbourBoards| == |NeighbourArrangements(tiles)|
      ensures forall k :: 0 <= k < |neighbourBoards| ==>
                fresh(neighbourBoards[k]) &&
                neighbourBoards[k].tiles == NeighbourArrangements(tiles)[k] &&
                neighbourBoards[k].stepNumber == stepNumber + 1 &&
                neighbourBoards[k].previousBoard == this
    {
      var emptyTileX, emptyTileY := EmptyTile();

      neighbourBoards := [];
      ghost var produced: seq<seq<Slot>> := [];
      ghost var s := tiles;
      for d := 0 to |NeighbourCoords|
        invariant forall k :: 0 <= k < |neighbourBoards| ==> fresh(neighbourBoards[k])
        invariant tiles == s
        invariant produced == ArrangementsUpTo(s, emptyTileX, emptyTileY, d)
        invariant ChildrenOf(neighbourBoards, produced, this)
      {
        var cordinates := NeighbourCoords[d];
        var neighbourX := emptyTileX + cordinates.0;
        var neighbourY := emptyTileY + cordinates.1;
        ArrangementsUpToStep(s, emptyTileX, emptyTileY, d);
        if InBounds(neighbourX, neighbourY) {
          var currentBoard := Child(XYtoIndex(neighbourX, neighbourY), XYtoIndex(emptyTileX, emptyTileY));
          ChildrenAppend(neighbourBoards, produced, currentBoard, this);
          neighbourBoards := neighbourBoards + [currentBoard];
          produced := produced + [currentBoard.tiles];
        }
      }
      ArrangementsUpToAll(s);
      assert produced == NeighbourArrangements(s);
    }

    /** Sum of the Manhattan distances of all tiles to their home cells, plus the step number. */
    method Priority() returns (p: int)
      requires |tiles| == Cells
      ensures p == SearchPriority(tiles, stepNumber) && p >= stepNumber
      ensures Valid() ==> (p == stepNumber <==> tiles == GoalSlots())
    {
      var manhattanDistance := 0;
      for i := 0 to Cells
        invariant manhattanDistance == HeuristicUpTo(tiles, i)
      {
        var currentTile := tiles[i];
        if currentTile != Empty {
          var correctPosition := currentTile.number;
          var correctX := correctPosition % N;
          var correctY := correctPosition / N;
          var currentX := i % N;
          var currentY := i / N;
          manhattanDistance := manhattanDistance + Abs(currentX - correctX) + Abs(currentY - correctY);
        }
      }
      if Valid() {
        HeuristicZeroIffGoal(tiles);
      }
      return manhattanDistance + stepNumber;
    }
  }

  /** A freshly built root board is solved and its priority is zero. */
  method SolvedRoot() returns (resolved: bool, priority: int)
    ensures resolved && priority == 0
  {
    var board := new PuzzleBoard();
    resolved := board.Resolved();
    priority := board.Priority();
    ResolvedIffGoal(board.tiles);
  }
}
