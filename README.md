# PuzzleBoard: a verified model of the 8-puzzle board

This project models `PuzzleBoard`, the board of the Android 8-puzzle app. A board
is a 3 x 3 grid of eight numbered tiles and one empty slot, stored row by row.
It also holds the number of moves made since the solved root board and the board
it was derived from. The methods model the operations the solver uses:
- building the solved board;
- deriving a child board;
- the goal test `resolved`;
- `swapTiles`;
- `tryMoving`, which slides a tile that a click hits;
- `neighbours`, which builds the boards one move away;
- `priority`, which is the Manhattan-distance heuristic plus the step number, as
  used by A* search;
- `equals`.

The project has three modules:

- `Grid` (`grid.dfy`) covers the fixed geometry: `NUM_TILES`, `NEIGHBOUR_COORDS`
  (left, right, up, down), `XYtoIndex` and its inverse `i % 3`, `i / 3`, the
  neighbour cells of a cell, adjacency and the Manhattan distance.
- `BoardSpec` (`board_spec.dfy`) works on values. A board's contents are a
  `seq<Slot>`, where a `Slot` is `Tile(number)` or `Empty` (`null` in the original
  list). The module defines the board invariant: the slots are a rearrangement of
  the solved board, so there is one empty slot and each of the tiles 0..7 appears
  once. It also defines the goal test, the swap, neighbour generation, the target
  cell of `tryMoving` and the heuristic. The lemmas are the properties the search
  relies on:
  - the goal test holds exactly on the solved board;
  - each neighbour is one legal move, and the move can be undone;
  - every adjacent move is generated, each once;
  - there are 2, 3 or 4 neighbours;
  - one move changes the heuristic by exactly one;
  - the heuristic is never more than the number of moves still needed, so it is
    admissible.
- `Puzzle8` (`puzzle_board.dfy`) holds the class `PuzzleBoard`:
  - its fields are `tiles`, `stepNumber` and `previousBoard`;
  - its methods follow the original's loops step by step;
  - each method that changes or computes board contents (`Resolved`, `SwapTiles`,
    `TryMoving`, `Neighbours`, `Priority` and the helpers they use) is proved
    against the `BoardSpec` function that specifies it; `Equals` states its
    position-by-position comparison directly, and `SolvedRoot` combines the others.

`neighbours` does not modify the board it is called on: it has no `modifies`
clause. Each child it returns is freshly allocated, has `stepNumber + 1` and
points back to the parent.

## Model

| member | source | states |
|---|---|---|
| Grid.NeighbourCoords | app/src/main/java/com/google/engedu/puzzle8/PuzzleBoard.java:12-17 | The four directions as (dx, dy) pairs, in the order left, right, up, down |
| Grid.InBounds | app/src/main/java/com/google/engedu/puzzle8/PuzzleBoard.java:160 | A cell (x, y) is on the grid when both coordinates lie in 0 .. NUM_TILES - 1 |
| Grid.Column | app/src/main/java/com/google/engedu/puzzle8/PuzzleBoard.java:150 | The column of a slot index is the index modulo NUM_TILES |
| Grid.Row | app/src/main/java/com/google/engedu/puzzle8/PuzzleBoard.java:151 | The row of a slot index is the index divided by NUM_TILES |
| Grid.Abs | app/src/main/java/com/google/engedu/puzzle8/PuzzleBoard.java:190-191 | The absolute value used for the distance terms |
| Grid.Distance | app/src/main/java/com/google/engedu/puzzle8/PuzzleBoard.java:183-191 | The Manhattan distance between two slot indices: the absolute column difference plus the absolute row difference |
| Grid.NeighbourCellsUpTo | app/src/main/java/com/google/engedu/puzzle8/PuzzleBoard.java:156-160 | The in-bounds cells reached by the first d directions around (x, y), in direction order; each result is a slot index |
| Grid.NeighbourCells | app/src/main/java/com/google/engedu/puzzle8/PuzzleBoard.java:156-160 | The in-bounds cells reached by all four directions around (x, y); each result is a slot index |
| Grid.XYtoIndex | app/src/main/java/com/google/engedu/puzzle8/PuzzleBoard.java:117-119 | An in-bounds cell gets a slot index in 0..8 |
| Grid.CoordinatesRoundTrip | app/src/main/java/com/google/engedu/puzzle8/PuzzleBoard.java:117-119 | Applying `% NUM_TILES` and `/ NUM_TILES` to `XYtoIndex(x, y)` gives back x and y |
| Grid.IndexRoundTrip | app/src/main/java/com/google/engedu/puzzle8/PuzzleBoard.java:148-151 | Every slot index i has in-bounds coordinates `(i % 3, i / 3)` that map back to i |
| Grid.NeighbourCellsInOrder | app/src/main/java/com/google/engedu/puzzle8/PuzzleBoard.java:12-17 | The neighbour cells come in the order left, right, up, down, and only the in-bounds ones are kept |
| Grid.AdjacentCoordinates | app/src/main/java/com/google/engedu/puzzle8/PuzzleBoard.java:156-160 | A cell is at Manhattan distance 1 from (x, y) exactly when it is one step away along one axis |
| Grid.NeighbourCellsAreAdjacent | app/src/main/java/com/google/engedu/puzzle8/PuzzleBoard.java:156-160 | A cell is generated as a neighbour of (x, y) if and only if it is orthogonally adjacent to it |
| Grid.NeighbourCount | app/src/main/java/com/google/engedu/puzzle8/PuzzleBoard.java:156-160 | A corner has 2 neighbour cells, the centre 4 and an edge cell 3 |
| Grid.NeighbourCellsDistinct | app/src/main/java/com/google/engedu/puzzle8/PuzzleBoard.java:156-160 | No neighbour cell is generated twice |
| Grid.AdjacentDistanceStep | app/src/main/java/com/google/engedu/puzzle8/PuzzleBoard.java:183-191 | One orthogonal step changes the Manhattan distance to any fixed cell by exactly 1 |
| BoardSpec.GoalSlots | app/src/main/java/com/google/engedu/puzzle8/PuzzleBoard.java:42-63 | The solved board has tile k in slot k for k < 8 and the empty slot last |
| BoardSpec.ValidSlots | app/src/main/java/com/google/engedu/puzzle8/PuzzleBoard.java:42-63 | The board invariant: nine slots whose multiset equals that of the solved board, so one empty slot and each tile 0..7 once |
| Puzzle8.PuzzleBoard.Valid | app/src/main/java/com/google/engedu/puzzle8/PuzzleBoard.java:42-63 | A board object satisfies the invariant when its `tiles` field does |
| BoardSpec.GoalIsValid | app/src/main/java/com/google/engedu/puzzle8/PuzzleBoard.java:42-63 | The solved board satisfies the board invariant |
| BoardSpec.EmptyUnique | app/src/main/java/com/google/engedu/puzzle8/PuzzleBoard.java:42-63 | A board satisfying the invariant has at most one empty slot |
| BoardSpec.TileNumberInRange | app/src/main/java/com/google/engedu/puzzle8/PuzzleBoard.java:42-63 | Every tile on a valid board is numbered 0..7 |
| BoardSpec.TilePresent | app/src/main/java/com/google/engedu/puzzle8/PuzzleBoard.java:42-63 | Each of the tiles 0..7 is on a valid board |
| BoardSpec.EmptyIndexFrom | app/src/main/java/com/google/engedu/puzzle8/PuzzleBoard.java:145-154 | The empty-slot scan from slot i always yields a slot index in 0..8 |
| BoardSpec.EmptyIndex | app/src/main/java/com/google/engedu/puzzle8/PuzzleBoard.java:145-154 | The slot index the scan of `neighbours` locates, starting from slot 0 |
| BoardSpec.EmptyIndexFromIsFirst | app/src/main/java/com/google/engedu/puzzle8/PuzzleBoard.java:145-154 | The scan stops at the first empty slot at or after i. When no slot from i on is empty it yields 0, matching the starting coordinates (0, 0) |
| BoardSpec.EmptyIndexIsTheEmptySlot | app/src/main/java/com/google/engedu/puzzle8/PuzzleBoard.java:145-154 | On a valid board the scan finds the empty slot, and a slot is empty if and only if it is the one the scan found |
| BoardSpec.Swap | app/src/main/java/com/google/engedu/puzzle8/PuzzleBoard.java:121-125 | Slots i and j trade contents; every other slot and the length are unchanged |
| BoardSpec.SwapPermutes | app/src/main/java/com/google/engedu/puzzle8/PuzzleBoard.java:121-125 | A swap keeps the multiset of slots, so it keeps the board invariant |
| BoardSpec.SwapInvolution | app/src/main/java/com/google/engedu/puzzle8/PuzzleBoard.java:121-125 | Swapping twice restores the slots, and the order of the two indices does not matter |
| BoardSpec.IsResolved | app/src/main/java/com/google/engedu/puzzle8/PuzzleBoard.java:108-115 | The goal test on values: slots 0..7 hold tiles 0..7; slot 8 is not looked at |
| BoardSpec.ResolvedIffGoal | app/src/main/java/com/google/engedu/puzzle8/PuzzleBoard.java:108-115 | On a valid board `resolved` holds if and only if the board is the solved board, even though slot 8 is never checked |
| BoardSpec.Cost | app/src/main/java/com/google/engedu/puzzle8/PuzzleBoard.java:179-192 | A slot's distance term: nothing for the empty slot, otherwise the Manhattan distance from the slot to the tile's home slot |
| BoardSpec.HeuristicUpTo | app/src/main/java/com/google/engedu/puzzle8/PuzzleBoard.java:176-194 | The accumulator after the first n slots: the sum of their distance terms |
| BoardSpec.Heuristic | app/src/main/java/com/google/engedu/puzzle8/PuzzleBoard.java:176-194 | The sum of the distance terms over all slots |
| BoardSpec.SearchPriority | app/src/main/java/com/google/engedu/puzzle8/PuzzleBoard.java:174-198 | The priority is never below the step number |
| BoardSpec.HeuristicUpToZero | app/src/main/java/com/google/engedu/puzzle8/PuzzleBoard.java:176-194 | The accumulated distance is zero exactly when every slot scanned so far costs nothing |
| BoardSpec.CostZeroAtHome | app/src/main/java/com/google/engedu/puzzle8/PuzzleBoard.java:181-191 | A tile adds no distance if and only if it is in its home slot |
| BoardSpec.HeuristicZeroIffGoal | app/src/main/java/com/google/engedu/puzzle8/PuzzleBoard.java:174-198 | On a valid board the Manhattan sum is zero if and only if the board is solved |
| BoardSpec.HeuristicUpToUpdate | app/src/main/java/com/google/engedu/puzzle8/PuzzleBoard.java:176-194 | Changing one slot changes the accumulated distance by exactly the difference of that slot's costs |
| BoardSpec.NeighbourArrangements | app/src/main/java/com/google/engedu/puzzle8/PuzzleBoard.java:141-172 | `neighbours` on values: for each neighbour cell of the scanned empty slot, in direction order, the slots with that cell and the empty slot swapped |
| BoardSpec.NeighbourArrangementsValid | app/src/main/java/com/google/engedu/puzzle8/PuzzleBoard.java:141-172 | Every arrangement generated from a valid board is valid |
| BoardSpec.ArrangementsUpToStep | app/src/main/java/com/google/engedu/puzzle8/PuzzleBoard.java:156-170 | Each turn of the direction loop adds one child with the empty slot and that neighbour swapped if the neighbour is in bounds, and adds nothing otherwise |
| BoardSpec.ArrangementsUpToAll | app/src/main/java/com/google/engedu/puzzle8/PuzzleBoard.java:141-172 | After all four directions around the scanned empty slot, the children are exactly the neighbour arrangements |
| BoardSpec.NeighbourIsOneMove | app/src/main/java/com/google/engedu/puzzle8/PuzzleBoard.java:156-170 | Each neighbour swaps the empty slot with an adjacent tile and changes no other slot. It keeps the invariant, and its empty slot is where that tile was |
| BoardSpec.NeighbourArrangementsComplete | app/src/main/java/com/google/engedu/puzzle8/PuzzleBoard.java:156-170 | A cell is moved into the empty slot by some neighbour if and only if it is adjacent to the empty slot |
| BoardSpec.NeighbourArrangementCount | app/src/main/java/com/google/engedu/puzzle8/PuzzleBoard.java:156-170 | There are 2 neighbours when the empty slot is in a corner, 4 when it is in the centre and 3 otherwise |
| BoardSpec.GoalNeighbours | app/src/main/java/com/google/engedu/puzzle8/PuzzleBoard.java:141-172 | From the solved board the neighbours are the slide of tile 7 and then the slide of tile 5, in that order |
| BoardSpec.MoveIntoEmptyGenerated | app/src/main/java/com/google/engedu/puzzle8/PuzzleBoard.java:156-170 | Sliding any tile adjacent to the empty slot gives a generated neighbour |
| BoardSpec.NeighbourReversible | app/src/main/java/com/google/engedu/puzzle8/PuzzleBoard.java:141-172 | The parent is among the neighbours of each of its neighbours |
| BoardSpec.SlideHeuristicStep | app/src/main/java/com/google/engedu/puzzle8/PuzzleBoard.java:183-191 | Sliding a tile into an adjacent empty slot changes the Manhattan sum by exactly 1 |
| BoardSpec.NeighbourHeuristicStep | app/src/main/java/com/google/engedu/puzzle8/PuzzleBoard.java:174-198 | A neighbour's Manhattan sum differs from its parent's by exactly 1 |
| BoardSpec.HeuristicAdmissibleFrom | app/src/main/java/com/google/engedu/puzzle8/PuzzleBoard.java:174-198 | On a move path that ends at the solved board, the Manhattan sum of each board is at most the number of moves left |
| BoardSpec.HeuristicAdmissible | app/src/main/java/com/google/engedu/puzzle8/PuzzleBoard.java:174-198 | The Manhattan sum never overestimates the number of moves to the solved board, so it is admissible |
| BoardSpec.MoveTargetFrom | app/src/main/java/com/google/engedu/puzzle8/PuzzleBoard.java:128-137 | A target found by the `tryMoving` scan is an empty slot index |
| BoardSpec.MoveTarget | app/src/main/java/com/google/engedu/puzzle8/PuzzleBoard.java:127-139 | The empty cell the tile at (x, y) moves into, if the scan over all four directions finds one |
| BoardSpec.TryMoveResult | app/src/main/java/com/google/engedu/puzzle8/PuzzleBoard.java:127-139 | The slots after `tryMoving(x, y)`: the clicked tile swapped with the found cell, or unchanged when none is found |
| BoardSpec.MoveTargetInOrder | app/src/main/java/com/google/engedu/puzzle8/PuzzleBoard.java:127-139 | The scan tries left, right, up, down in that order and takes the first in-bounds empty cell |
| BoardSpec.MoveTargetFindsUniqueEmpty | app/src/main/java/com/google/engedu/puzzle8/PuzzleBoard.java:127-139 | When only one slot is empty, the scan finds it if and only if it is a neighbour cell of the clicked tile |
| BoardSpec.MoveTargetIsEmptyNeighbour | app/src/main/java/com/google/engedu/puzzle8/PuzzleBoard.java:127-139 | On a valid board a tile moves if and only if it is adjacent to the empty slot, and it then moves into the empty slot |
| BoardSpec.TryMoveIsOneMove | app/src/main/java/com/google/engedu/puzzle8/PuzzleBoard.java:127-139 | A successful `tryMoving` swaps the clicked tile with the empty slot and keeps the invariant; otherwise the slots are unchanged |
| Puzzle8.PuzzleBoard.constructor | app/src/main/java/com/google/engedu/puzzle8/PuzzleBoard.java:32-65 | The row-by-row loops build the solved board with step 0 and no previous board, and the result is valid |
| Puzzle8.PuzzleBoard.FromParent | app/src/main/java/com/google/engedu/puzzle8/PuzzleBoard.java:67-71 | The child copies the parent's slots, points back to the parent and has step number `stepNumber + 1`; the child of a valid board is valid |
| Puzzle8.PuzzleBoard.Equals | app/src/main/java/com/google/engedu/puzzle8/PuzzleBoard.java:77-82 | Two boards are equal if and only if their slots agree position by position; the step number and the previous board are ignored |
| Puzzle8.PuzzleBoard.Resolved | app/src/main/java/com/google/engedu/puzzle8/PuzzleBoard.java:108-115 | The loop returns true exactly when slots 0..7 hold tiles 0..7 |
| Puzzle8.PuzzleBoard.SwapTiles | app/src/main/java/com/google/engedu/puzzle8/PuzzleBoard.java:121-125 | The slots become the swap of the old slots; the step number and the previous board are unchanged; a valid board stays valid |
| Puzzle8.PuzzleBoard.TryMoving | app/src/main/java/com/google/engedu/puzzle8/PuzzleBoard.java:127-139 | The result is true if and only if the scan finds an empty neighbour cell; the slots become the move's result, nothing else changes and a valid board stays valid |
| Puzzle8.PuzzleBoard.Child | app/src/main/java/com/google/engedu/puzzle8/PuzzleBoard.java:162-167 | A freshly allocated child, one step further on and pointing back to this board, with the two slots swapped |
| Puzzle8.PuzzleBoard.EmptyTile | app/src/main/java/com/google/engedu/puzzle8/PuzzleBoard.java:145-154 | The scan's coordinates are the column and row of `EmptyIndex`, which `EmptyIndexFromIsFirst` shows is the first empty slot, or 0 when there is none |
| Puzzle8.PuzzleBoard.Neighbours | app/src/main/java/com/google/engedu/puzzle8/PuzzleBoard.java:141-172 | The result has one fresh board per neighbour arrangement, in order. Each has those slots, step number `stepNumber + 1` and this board as its previous board |
| Puzzle8.PuzzleBoard.Priority | app/src/main/java/com/google/engedu/puzzle8/PuzzleBoard.java:174-198 | The loop's result is the Manhattan sum plus the step number, so it is at least the step number. On a valid board it equals the step number if and only if the board is solved |
| Puzzle8.ChildrenValid | app/src/main/java/com/google/engedu/puzzle8/PuzzleBoard.java:141-172 | Boards carrying, position by position, the neighbour arrangements of a valid board (as `Neighbours` returns them) are valid |
| Puzzle8.SolvedRoot | app/src/main/java/com/google/engedu/puzzle8/PuzzleBoard.java:108-115 | A newly built root board is resolved and has priority 0 |

## Left out

- The bitmap work of the first constructor is not modelled: scaling the image and cutting it into tile bitmaps. `PuzzleTile` becomes the tile's number, and `draw` and `click` are left out with it. These are drawing and touch handling, outside the board logic.
- `reset`, `getPreviousBoard` and `setPreviousBoard` are left out. `reset` has an empty body, and the other two only read or write the `previousBoard` field.
- `equals` takes an `Object`. Its `null` check and cast are left out, so `Equals` takes a `PuzzleBoard`.
- Puzzle8.PuzzleBoard.Equals: compares tiles by their numbers. Java's `ArrayList.equals` compares the `PuzzleTile` objects, and `PuzzleTile` is not part of this model. For boards that descend from the same root board the lists are cloned reference by reference, so each tile number is carried by one `PuzzleTile` object and the two comparisons agree. Boards from different runs of the first constructor hold different `PuzzleTile` objects, and Java would call them unequal where the model calls them equal.
- `stepNumber`, and therefore `priority`, are unbounded integers. Java's 32-bit `int` could wrap after about 2^31 moves; this is not modelled.
- Puzzle8.PuzzleBoard.TryMoving: requires in-bounds (tileX, tileY). The method is private, and its only caller is `click`, which passes `i % 3` and `i / 3` for a slot index i.
- Puzzle8.PuzzleBoard.EmptyTile and Puzzle8.PuzzleBoard.Child: the empty-slot scan and the building of one child are separate methods. In the original they are inlined in `neighbours`. The loops and the calls are the same.
- Puzzle8.PuzzleBoard.Neighbours and Puzzle8.PuzzleBoard.Child: their contracts do not restate the board invariant for the children, because stating it there makes the proof of `Neighbours` too costly. The contract of `Neighbours` ties each child's slots to `NeighbourArrangements`, and one call of `ChildrenValid` gives the children's validity.
- The search driver and the activity are left out. They keep a priority queue of boards and follow `previousBoard` back to the root, and they live outside `PuzzleBoard`.
- The grid size is fixed at 3. Other sizes of `NUM_TILES` are not modelled.
