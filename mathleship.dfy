/** The board generator of the Mathleship mini-game: it places a fixed fleet
    of straight ships on a 6 x 6 occupancy board by rejection sampling. The
    random number generator is replaced by a finite sequence of draws that
    the caller supplies; running out of draws is reported as exhaustion. */
module Mathleship {
  import opened Entity

  /** Width and height of the board. */
  const BoardSize: int := 6
  /** The fleet, placed in this order. */
  const ShipSizes: seq<nat> := [4, 3, 2, 1]
  /** Column letters, indexed by column number. */
  const Columns: seq<char> := ['A', 'B', 'C', 'D', 'E', 'F']

  /** What can go wrong: `nextInt` called with a bound that is not positive,
      an index past the end of the column table, or no draws left. */
  datatype Error = IllegalArgument | IndexOutOfBounds | Exhausted

  datatype Result<T> = Ok(value: T) | Err(error: Error)

  /** One round of the random generator: the orientation coin and the two raw
      values from which `nextInt` takes the row and the column. */
  datatype Draw = Draw(horizontal: bool, rowPick: nat, colPick: nat)

  /** Outcome of one iteration of the placement loop. */
  datatype Attempt = Placed(cells: seq<GridCell>) | Rejected | Failed(error: Error)

  // ---------------------------------------------------------------------
  // Columns

  /** Index of a column letter; the letters A..F are exactly the ones whose
      index lies on the board, and the table maps the index back. */
  function ColumnIndex(column: char): (r: int)
    ensures 0 <= r < BoardSize <==> column in Columns
    ensures 0 <= r < BoardSize ==> Columns[r] == column
  {
    column as int - 'A' as int
  }

  /** Looking up a column number in the table and converting back is the identity. */
  lemma ColumnRoundTrip(c: int)
    requires 0 <= c < BoardSize
    ensures Columns[c] in Columns
    ensures ColumnIndex(Columns[c]) == c
  {
  }

  // ---------------------------------------------------------------------
  // Runs of cells

  /** Row of the i-th cell of a run that starts in `row`. */
  function RunRow(row: int, i: int, horizontal: bool): int {
    if horizontal then row else row + i
  }

  /** Column of the i-th cell of a run that starts in column `col`. */
  function RunCol(col: int, i: int, horizontal: bool): int {
    if horizontal then col + i else col
  }

  /** Every cell of the run lies on the board. */
  predicate RunInBounds(row: int, col: int, size: nat, horizontal: bool) {
    0 <= row && 0 <= col &&
    forall i :: 0 <= i < size ==>
      RunRow(row, i, horizontal) < BoardSize && RunCol(col, i, horizontal) < BoardSize
  }

  /** No cell of the run is occupied yet. */
  ghost predicate RunUnoccupied(board: array2<bool>, row: int, col: int, size: nat, horizontal: bool)
    reads board
    requires board.Length0 == BoardSize && board.Length1 == BoardSize
    requires RunInBounds(row, col, size, horizontal)
  {
    forall i :: 0 <= i < size ==> !board[RunRow(row, i, horizontal), RunCol(col, i, horizontal)]
  }

  /** (r, c) is one of the cells of the run. */
  predicate OnRun(r: int, c: int, row: int, col: int, size: nat, horizontal: bool) {
    if horizontal then r == row && col <= c < col + size
    else c == col && row <= r < row + size
  }

  /** The cells a ship of length `size` occupies, in order from the start outward. */
  function Run(row: int, col: int, size: nat, horizontal: bool): seq<GridCell>
    requires RunInBounds(row, col, size, horizontal)
  {
    seq(size, i requires 0 <= i < size =>
      GridCell(RunRow(row, i, horizontal), Columns[RunCol(col, i, horizontal)], 1, 0))
  }

  /** Board coordinates of a cell. */
  function Pos(cell: GridCell): (int, int) {
    (cell.row, ColumnIndex(cell.column))
  }

  ghost function Positions(cells: seq<GridCell>): set<(int, int)> {
    set k | 0 <= k < |cells| :: Pos(cells[k])
  }

  /** The coordinates the board marks as occupied. */
  ghost function Occupied(board: array2<bool>): set<(int, int)>
    reads board
    requires board.Length0 == BoardSize && board.Length1 == BoardSize
  {
    set r, c | 0 <= r < BoardSize && 0 <= c < BoardSize && board[r, c] :: (r, c)
  }

  /** A cell on the board, emitted as part of a ship. */
  predicate ShipCell(cell: GridCell) {
    0 <= cell.row < BoardSize && cell.column in Columns && cell.hasShip == 1 && cell.isHit == 0
  }

  /** Same row, consecutive columns from the first cell on. */
  predicate Horizontal(cells: seq<GridCell>) {
    forall k :: 0 <= k < |cells| ==>
      cells[k].row == cells[0].row && ColumnIndex(cells[k].column) == ColumnIndex(cells[0].column) + k
  }

  /** Same column, consecutive rows from the first cell on. */
  predicate Vertical(cells: seq<GridCell>) {
    forall k :: 0 <= k < |cells| ==>
      cells[k].column == cells[0].column && cells[k].row == cells[0].row + k
  }

  /** A contiguous straight run of ship cells inside the board. */
  predicate StraightRun(cells: seq<GridCell>) {
    (Horizontal(cells) || Vertical(cells)) && forall k :: 0 <= k < |cells| ==> ShipCell(cells[k])
  }

  lemma RunShape(row: int, col: int, size: nat, horizontal: bool)
    requires RunInBounds(row, col, size, horizontal)
    ensures |Run(row, col, size, horizontal)| == size
    ensures forall i :: 0 <= i < size ==>
      Pos(Run(row, col, size, horizontal)[i]) == (RunRow(row, i, horizontal), RunCol(col, i, horizontal))
    ensures StraightRun(Run(row, col, size, horizontal))
    ensures horizontal ==> Horizontal(Run(row, col, size, horizontal))
    ensures !horizontal ==> Vertical(Run(row, col, size, horizontal))
  {
    var cells := Run(row, col, size, horizontal);
    forall i | 0 <= i < size
      ensures Pos(cells[i]) == (RunRow(row, i, horizontal), RunCol(col, i, horizontal))
      ensures ShipCell(cells[i])
    {
      ColumnRoundTrip(RunCol(col, i, horizontal));
    }
  }

  /** A straight run inside the board is at most as long as the board is wide. */
  lemma StraightRunLength(cells: seq<GridCell>)
    requires StraightRun(cells)
    ensures |cells| <= BoardSize
  {
    if |cells| > 0 {
      var last := |cells| - 1;
      assert ShipCell(cells[0]) && ShipCell(cells[last]);
      if Horizontal(cells) {
        assert ColumnIndex(cells[last].column) == ColumnIndex(cells[0].column) + last;
      } else {
        assert cells[last].row == cells[0].row + last;
      }
    }
  }

  /** Closed form of RunInBounds: for a non-empty run, the start is on the board
      and the far end does not pass the edge. */
  lemma RunInBoundsIff(row: int, col: int, size: nat, horizontal: bool)
    requires 0 < size
    ensures RunInBounds(row, col, size, horizontal) <==>
      0 <= row && 0 <= col &&
      (if horizontal then row < BoardSize && col + size <= BoardSize
       else col < BoardSize && row + size <= BoardSize)
  {
    if RunInBounds(row, col, size, horizontal) {
      assert RunRow(row, size - 1, horizontal) < BoardSize && RunCol(col, size - 1, horizontal) < BoardSize;
    }
  }

  lemma PositionsSnoc(cells: seq<GridCell>, cell: GridCell)
    ensures Positions(cells + [cell]) == Positions(cells) + {Pos(cell)}
  {
    var cells' := cells + [cell];
    forall p | p in Positions(cells') ensures p in Positions(cells) + {Pos(cell)} {
      var k :| 0 <= k < |cells'| && p == Pos(cells'[k]);
      if k < |cells| { assert cells'[k] == cells[k]; }
    }
    forall p | p in Positions(cells) ensures p in Positions(cells') {
      var k :| 0 <= k < |cells| && p == Pos(cells[k]);
      assert cells'[k] == cells[k];
    }
    assert Pos(cell) == Pos(cells'[|cells|]);
  }

  /** Distinct coordinates give as many positions as cells. */
  lemma {:induction false} DistinctPositionsCard(cells: seq<GridCell>)
    requires forall j, k :: 0 <= j < k < |cells| ==> Pos(cells[j]) != Pos(cells[k])
    ensures |Positions(cells)| == |cells|
  {
    if |cells| > 0 {
      var init := cells[..|cells| - 1];
      var last := cells[|cells| - 1];
      assert cells == init + [last];
      DistinctPositionsCard(init);
      PositionsSnoc(init, last);
      assert Pos(last) !in Positions(init) by {
        forall k | 0 <= k < |init| ensures Pos(init[k]) != Pos(last) {
          assert init[k] == cells[k];
        }
      }
    }
  }

  /** The positions of a run are exactly the coordinates on it, one per cell. */
  lemma RunPositions(row: int, col: int, size: nat, horizontal: bool)
    requires RunInBounds(row, col, size, horizontal)
    ensures |Positions(Run(row, col, size, horizontal))| == size
    ensures forall r, c :: (r, c) in Positions(Run(row, col, size, horizontal)) <==>
      OnRun(r, c, row, col, size, horizontal)
  {
    var cells := Run(row, col, size, horizontal);
    RunShape(row, col, size, horizontal);
    DistinctPositionsCard(cells);
    forall r, c | OnRun(r, c, row, col, size, horizontal)
      ensures (r, c) in Positions(cells)
    {
      var i := if horizontal then c - col else r - row;
      assert Pos(cells[i]) == (r, c);
    }
  }

  /** A run that fits shares no coordinate with the occupied cells. */
  lemma FitsDisjoint(board: array2<bool>, row: int, col: int, size: nat, horizontal: bool)
    requires board.Length0 == BoardSize && board.Length1 == BoardSize
    requires RunInBounds(row, col, size, horizontal)
    requires RunUnoccupied(board, row, col, size, horizontal)
    ensures Positions(Run(row, col, size, horizontal)) !! Occupied(board)
  {
    var cells := Run(row, col, size, horizontal);
    RunShape(row, col, size, horizontal);
    forall p | p in Positions(cells) ensures p !in Occupied(board) {
      var i :| 0 <= i < |cells| && p == Pos(cells[i]);
      assert !board[RunRow(row, i, horizontal), RunCol(col, i, horizontal)];
    }
  }

  /** Marking the cells of a run adds exactly the run's positions to the
      occupied coordinates. */
  lemma OccupiedAfterMarking(board: array2<bool>, before: set<(int, int)>,
                             row: int, col: int, size: nat, horizontal: bool)
    requires board.Length0 == BoardSize && board.Length1 == BoardSize
    requires RunInBounds(row, col, size, horizontal)
    requires forall r, c :: (r, c) in before ==> 0 <= r < BoardSize && 0 <= c < BoardSize
    requires forall r, c :: 0 <= r < BoardSize && 0 <= c < BoardSize ==>
      board[r, c] == ((r, c) in before || OnRun(r, c, row, col, size, horizontal))
    ensures Occupied(board) == before + Positions(Run(row, col, size, horizontal))
  {
    RunPositions(row, col, size, horizontal);
    var after := before + Positions(Run(row, col, size, horizontal));
    forall p | p in Occupied(board) ensures p in after {
      assert board[p.0, p.1];
    }
    forall p | p in after ensures p in Occupied(board) {
      var (r, c) := p;
      assert 0 <= r < BoardSize && 0 <= c < BoardSize && board[r, c];
    }
  }

  // ---------------------------------------------------------------------
  // Random start positions

  /** `java.util.Random.nextInt(bound)`: throws unless the bound is positive,
      otherwise some value in [0, bound); a pick below the bound is taken as is. */
  function NextInt(bound: int, pick: nat): (r: Result<int>)
    ensures r.Ok? <==> 0 < bound
    ensures r.Err? ==> r.error == IllegalArgument
    ensures r.Ok? ==> 0 <= r.value < bound
    ensures pick < bound ==> r == Ok(pick)
  {
    if bound <= 0 then Err(IllegalArgument) else Ok(pick % bound)
  }

  /** A start for a ship of length `size`: horizontally the row ranges over the
      whole board and the column over the first BoardSize - size + 1 columns,
      vertically the other way round. */
  function StartPosition(size: nat, d: Draw): (r: Result<GridCell>)
    ensures r.Ok? <==> size <= BoardSize && !(size == 0 && d.horizontal && d.colPick % (BoardSize + 1) == BoardSize)
    ensures r.Err? ==> (r.error == IllegalArgument <==> BoardSize < size)
    ensures r.Err? ==> r.error != Exhausted
    ensures r.Ok? ==> r.value.hasShip == 1 && r.value.isHit == 0 && r.value.column in Columns
    ensures r.Ok? && d.horizontal ==>
      0 <= r.value.row < BoardSize && 0 <= ColumnIndex(r.value.column) < BoardSize - size + 1
    ensures r.Ok? && !d.horizontal ==>
      0 <= r.value.row < BoardSize - size + 1 && 0 <= ColumnIndex(r.value.column) < BoardSize
    ensures r.Ok? ==> RunInBounds(r.value.row, ColumnIndex(r.value.column), size, d.horizontal)
  {
    var rowBound := if d.horizontal then BoardSize else BoardSize - size + 1;
    var colBound := if d.horizontal then BoardSize - size + 1 else BoardSize;
    match NextInt(rowBound, d.rowPick)
    case Err(e) => Err(e)
    case Ok(row) =>
      match NextInt(colBound, d.colPick)
      case Err(e) => Err(e)
      case Ok(col) =>
        if col < |Columns| then
          ColumnRoundTrip(col);
          Ok(GridCell(row, Columns[col], 1, 0))
        else
          Err(IndexOutOfBounds)
  }

  /** Every start from which a ship of length 1..BoardSize fits on the board is
      produced by some draw. */
  lemma StartReachable(size: nat, row: int, col: int, horizontal: bool)
    requires 1 <= size <= BoardSize
    requires RunInBounds(row, col, size, horizontal)
    ensures var r := StartPosition(size, Draw(horizontal, row, col));
      r.Ok? && Pos(r.value) == (row, col) && r.value.hasShip == 1 && r.value.isHit == 0
  {
    RunInBoundsIff(row, col, size, horizontal);
  }

  // ---------------------------------------------------------------------
  // Placing one ship

  /** Whether a ship of length `size` starting at `start` lies on the board and
      touches no occupied cell. */
  method CanPlaceShip(board: array2<bool>, start: GridCell, size: nat, horizontal: bool) returns (ok: bool)
    requires board.Length0 == BoardSize && board.Length1 == BoardSize
    requires 0 <= start.row && 0 <= ColumnIndex(start.column)
    ensures ok <==>
      RunInBounds(start.row, ColumnIndex(start.column), size, horizontal) &&
      RunUnoccupied(board, start.row, ColumnIndex(start.column), size, horizontal)
  {
    ghost var col0 := ColumnIndex(start.column);
    for i := 0 to size
      invariant forall j :: 0 <= j < i ==>
        RunRow(start.row, j, horizontal) < BoardSize && RunCol(col0, j, horizontal) < BoardSize &&
        !board[RunRow(start.row, j, horizontal), RunCol(col0, j, horizontal)]
    {
      var row := start.row;
      var colIndex := ColumnIndex(start.column);
      if horizontal {
        colIndex := colIndex + i;
      } else {
        row := row + i;
      }
      if row >= BoardSize || colIndex >= BoardSize || board[row, colIndex] {
        assert row == RunRow(start.row, i, horizontal) && colIndex == RunCol(col0, i, horizontal);
        return false;
      }
    }
    return true;
  }

  /** Marks the cells of the run occupied and returns them, in order from the
      start outward; every other cell keeps its value. */
  method PlaceShipOnBoard(board: array2<bool>, start: GridCell, size: nat, horizontal: bool)
    returns (cells: seq<GridCell>)
    requires board.Length0 == BoardSize && board.Length1 == BoardSize
    requires RunInBounds(start.row, ColumnIndex(start.column), size, horizontal)
    modifies board
    ensures cells == Run(start.row, ColumnIndex(start.column), size, horizontal)
    ensures forall r, c :: 0 <= r < BoardSize && 0 <= c < BoardSize ==>
      board[r, c] == (old(board[r, c]) || OnRun(r, c, start.row, ColumnIndex(start.column), size, horizontal))
    ensures Occupied(board) == old(Occupied(board)) + Positions(cells)
  {
    ghost var col0 := ColumnIndex(start.column);
    ghost var before := Occupied(board);
    cells := [];
    for i := 0 to size
      invariant |cells| == i
      invariant forall j :: 0 <= j < i ==>
        cells[j] == GridCell(RunRow(start.row, j, horizontal), Columns[RunCol(col0, j, horizontal)], 1, 0)
      invariant forall r, c :: 0 <= r < BoardSize && 0 <= c < BoardSize ==>
        board[r, c] == (old(board[r, c]) || OnRun(r, c, start.row, col0, i, horizontal))
      invariant forall r, c :: 0 <= r < BoardSize && 0 <= c < BoardSize ==>
        (old(board[r, c]) <==> (r, c) in before)
    {
      var row := start.row;
      var colIndex := ColumnIndex(start.column);
      if horizontal {
        colIndex := colIndex + i;
      } else {
        row := row + i;
      }
      assert row == RunRow(start.row, i, horizontal) && colIndex == RunCol(col0, i, horizontal);
      board[row, colIndex] := true;
      cells := cells + [GridCell(row, Columns[colIndex], 1, 0)];
    }
    OccupiedAfterMarking(board, before, start.row, col0, size, horizontal);
  }

  /** The draw yields a start at which the ship fits on the board and touches
      no occupied cell. */
  ghost predicate Accepts(board: array2<bool>, size: nat, d: Draw)
    reads board
    requires board.Length0 == BoardSize && board.Length1 == BoardSize
  {
    StartPosition(size, d).Ok? &&
    var s := StartPosition(size, d).value;
    RunUnoccupied(board, s.row, ColumnIndex(s.column), size, d.horizontal)
  }

  /** The draw yields a start, but the ship would collide with an occupied cell there. */
  ghost predicate Rejects(board: array2<bool>, size: nat, d: Draw)
    reads board
    requires board.Length0 == BoardSize && board.Length1 == BoardSize
  {
    StartPosition(size, d).Ok? && !Accepts(board, size, d)
  }

  /** A drawn start is rejected exactly when some cell of its run is already
      occupied: it never fails by leaving the board. */
  lemma RejectedOnlyByCollision(board: array2<bool>, size: nat, d: Draw)
    requires board.Length0 == BoardSize && board.Length1 == BoardSize
    requires StartPosition(size, d).Ok?
    ensures var s := StartPosition(size, d).value;
      Rejects(board, size, d) <==>
        exists i :: 0 <= i < size &&
          board[RunRow(s.row, i, d.horizontal), RunCol(ColumnIndex(s.column), i, d.horizontal)]
  {
  }

  /** One iteration of the placement loop: draw a start, test it, and on
      success place the ship; a rejected or failed draw changes nothing. */
  method TryPlaceShip(board: array2<bool>, size: nat, d: Draw) returns (outcome: Attempt)
    requires board.Length0 == BoardSize && board.Length1 == BoardSize
    modifies board
    ensures outcome.Failed? <==> StartPosition(size, d).Err?
    ensures outcome.Failed? ==> outcome.error == StartPosition(size, d).error && unchanged(board)
    ensures outcome.Rejected? <==> old(Rejects(board, size, d))
    ensures outcome.Rejected? ==> unchanged(board)
    ensures outcome.Placed? <==> old(Accepts(board, size, d))
    ensures outcome.Placed? ==>
      var s := StartPosition(size, d).value;
      outcome.cells == Run(s.row, ColumnIndex(s.column), size, d.horizontal) &&
      Positions(outcome.cells) !! old(Occupied(board)) &&
      Occupied(board) == old(Occupied(board)) + Positions(outcome.cells)
  {
    var startPosition := StartPosition(size, d);
    if startPosition.Err? {
      return Failed(startPosition.error);
    }
    var start := startPosition.value;
    var ok := CanPlaceShip(board, start, size, d.horizontal);
    if ok {
      FitsDisjoint(board, start.row, ColumnIndex(start.column), size, d.horizontal);
      var cells := PlaceShipOnBoard(board, start, size, d.horizontal);
      return Placed(cells);
    }
    return Rejected;
  }

  // ---------------------------------------------------------------------
  // The fleet

  /** Sum of the ship lengths. */
  function TotalSize(fleet: seq<nat>): nat {
    if fleet == [] then 0 else TotalSize(fleet[..|fleet| - 1]) + fleet[|fleet| - 1]
  }

  /** Every coordinate some ship occupies. */
  ghost function AllPositions(ships: seq<Ship>): set<(int, int)> {
    if ships == [] then {}
    else AllPositions(ships[..|ships| - 1]) + Positions(ships[|ships| - 1].cellsOccupied)
  }

  /** A freshly placed ship of length `size`. */
  predicate LegalShip(ship: Ship, size: nat) {
    ship.size == size && ship.hitCount == 0 && |ship.cellsOccupied| == size &&
    StraightRun(ship.cellsOccupied)
  }

  /** No two ships share a coordinate. */
  ghost predicate PairwiseDisjoint(ships: seq<Ship>) {
    forall j, k :: 0 <= j < k < |ships| ==>
      Positions(ships[j].cellsOccupied) !! Positions(ships[k].cellsOccupied)
  }

  /** `ships` is a legal layout of `fleet`: one ship per length, in order, straight,
      pairwise disjoint and covering exactly the sum of the lengths. */
  ghost predicate FleetLaidOut(fleet: seq<nat>, ships: seq<Ship>) {
    |ships| == |fleet| &&
    (forall k :: 0 <= k < |ships| ==> LegalShip(ships[k], fleet[k])) &&
    PairwiseDisjoint(ships) &&
    |AllPositions(ships)| == TotalSize(fleet)
  }

  lemma TotalShipSizes()
    ensures TotalSize(ShipSizes) == 10
  {
    assert [4, 3, 2, 1][..3] == [4, 3, 2];
    assert [4, 3, 2][..2] == [4, 3];
    assert [4, 3][..1] == [4];
    assert [4][..0] == [];
    assert TotalSize([4]) == 4;
    assert TotalSize([4, 3]) == 7;
    assert TotalSize([4, 3, 2]) == 9;
  }

  lemma {:induction false} ShipInAll(ships: seq<Ship>, j: int)
    requires 0 <= j < |ships|
    ensures Positions(ships[j].cellsOccupied) <= AllPositions(ships)
  {
    var init := ships[..|ships| - 1];
    if j < |ships| - 1 {
      ShipInAll(init, j);
      assert init[j] == ships[j];
    }
  }

  lemma TotalSizeStep(fleet: seq<nat>, k: nat)
    requires k < |fleet|
    ensures TotalSize(fleet[..k + 1]) == TotalSize(fleet[..k]) + fleet[k]
  {
    assert fleet[..k + 1][..k] == fleet[..k];
  }

  lemma AllPositionsStep(ships: seq<Ship>, ship: Ship)
    ensures AllPositions(ships + [ship]) == AllPositions(ships) + Positions(ship.cellsOccupied)
  {
    assert (ships + [ship])[..|ships|] == ships;
  }

  lemma DisjointStep(ships: seq<Ship>, ship: Ship)
    requires PairwiseDisjoint(ships)
    requires Positions(ship.cellsOccupied) !! AllPositions(ships)
    ensures PairwiseDisjoint(ships + [ship])
  {
    var ships' := ships + [ship];
    forall j, i | 0 <= j < i < |ships'|
      ensures Positions(ships'[j].cellsOccupied) !! Positions(ships'[i].cellsOccupied)
    {
      if i == |ships| {
        ShipInAll(ships, j);
      } else {
        assert ships'[j] == ships[j] && ships'[i] == ships[i];
      }
    }
  }

  /** Adding a legal ship of the next length that avoids every occupied
      coordinate keeps the layout legal. */
  lemma AddShip(fleet: seq<nat>, k: nat, ships: seq<Ship>, ship: Ship)
    requires k < |fleet|
    requires FleetLaidOut(fleet[..k], ships)
    requires LegalShip(ship, fleet[k]) && |Positions(ship.cellsOccupied)| == fleet[k]
    requires Positions(ship.cellsOccupied) !! AllPositions(ships)
    ensures FleetLaidOut(fleet[..k + 1], ships + [ship])
    ensures AllPositions(ships + [ship]) == AllPositions(ships) + Positions(ship.cellsOccupied)
  {
    TotalSizeStep(fleet, k);
    AllPositionsStep(ships, ship);
    DisjointStep(ships, ship);
    var ships' := ships + [ship];
    forall j | 0 <= j < |ships'| ensures LegalShip(ships'[j], fleet[..k + 1][j]) {
      if j < |ships| {
        assert ships'[j] == ships[j] && fleet[..k + 1][j] == fleet[..k][j];
      }
    }
  }

  /** In a legal layout no ship is longer than the board is wide. */
  lemma LaidOutShipsFit(fleet: seq<nat>, ships: seq<Ship>)
    requires FleetLaidOut(fleet, ships)
    ensures forall k :: 0 <= k < |fleet| ==> fleet[k] <= BoardSize
  {
    forall k | 0 <= k < |fleet| ensures fleet[k] <= BoardSize {
      assert LegalShip(ships[k], fleet[k]);
      StraightRunLength(ships[k].cellsOccupied);
    }
  }

  /** A board with no true cell has no occupied coordinate. */
  lemma EmptyBoard(board: array2<bool>)
    requires board.Length0 == BoardSize && board.Length1 == BoardSize
    requires forall r, c :: 0 <= r < BoardSize && 0 <= c < BoardSize ==> !board[r, c]
    ensures Occupied(board) == {}
  {
  }

  /** A ship built from an accepted draw is a legal ship of that length. */
  lemma PlacedShipIsLegal(size: nat, d: Draw, ship: Ship)
    requires StartPosition(size, d).Ok?
    requires var s := StartPosition(size, d).value;
      ship == Ship(size, 0, Run(s.row, ColumnIndex(s.column), size, d.horizontal))
    ensures LegalShip(ship, size) && |Positions(ship.cellsOccupied)| == size
  {
    var s := StartPosition(size, d).value;
    RunShape(s.row, ColumnIndex(s.column), size, d.horizontal);
    RunPositions(s.row, ColumnIndex(s.column), size, d.horizontal);
  }

  // ---------------------------------------------------------------------
  // The generator as a function of the draws

  /** The draw yields a start whose run avoids every coordinate in `occupied`. */
  ghost predicate Fits(occupied: set<(int, int)>, size: nat, d: Draw) {
    StartPosition(size, d).Ok? &&
    var s := StartPosition(size, d).value;
    Positions(Run(s.row, ColumnIndex(s.column), size, d.horizontal)) !! occupied
  }

  /** The draw yields a start, but its run meets a coordinate in `occupied`. */
  ghost predicate Collides(occupied: set<(int, int)>, size: nat, d: Draw) {
    StartPosition(size, d).Ok? && !Fits(occupied, size, d)
  }

  /** The ship a draw places: the given size, no hits, and the run of its start. */
  function ShipAt(size: nat, d: Draw): Ship
    requires StartPosition(size, d).Ok?
  {
    var s := StartPosition(size, d).value;
    Ship(size, 0, Run(s.row, ColumnIndex(s.column), size, d.horizontal))
  }

  /** What one draw does for a ship of length `size` against the coordinates in
      `occupied`: the start position's error, a rejection because the run
      collides, or the cells of the run that fits. */
  ghost function DrawOutcome(occupied: set<(int, int)>, size: nat, d: Draw): (r: Attempt)
    ensures r.Failed? ==> r.error != Exhausted
    ensures r.Placed? ==> |r.cells| == size && Positions(r.cells) !! occupied
  {
    if StartPosition(size, d).Err? then Failed(StartPosition(size, d).error)
    else if Fits(occupied, size, d) then
      var s := StartPosition(size, d).value;
      RunShape(s.row, ColumnIndex(s.column), size, d.horizontal);
      Placed(ShipAt(size, d).cellsOccupied)
    else Rejected
  }

  /** The outcome of every draw against the same occupied coordinates. */
  ghost function Outcomes(occupied: set<(int, int)>, size: nat): Draw -> Attempt {
    d => DrawOutcome(occupied, size, d)
  }

  /** The retry loop for a ship of length `size` from draw `from` on, when each
      draw has the given outcome: its result and the index of the first draw it
      did not use. */
  ghost function Retry(outcome: Draw -> Attempt, size: nat, draws: seq<Draw>, from: nat): (r: (Result<Ship>, nat))
    requires from <= |draws|
    ensures from <= r.1 <= |draws|
    decreases |draws| - from
  {
    if from == |draws| then (Err(Exhausted), from)
    else match outcome(draws[from])
      case Failed(e) => (Err(e), from + 1)
      case Placed(cells) => (Ok(Ship(size, 0, cells)), from + 1)
      case Rejected => Retry(outcome, size, draws, from + 1)
  }

  /** The state of the fleet loop after its first k iterations: the ships placed
      so far, or the error that ended the loop, and the index of the next draw. */
  ghost function Layout(fleet: seq<nat>, k: nat, draws: seq<Draw>): (r: (Result<seq<Ship>>, nat))
    requires k <= |fleet|
    ensures r.1 <= |draws|
    ensures r.0.Ok? ==> |r.0.value| == k
    decreases k
  {
    if k == 0 then (Ok([]), 0)
    else
      var (done, from) := Layout(fleet, k - 1, draws);
      if done.Err? then (done, from)
      else
        var (r, next) := Retry(Outcomes(AllPositions(done.value), fleet[k - 1]), fleet[k - 1], draws, from);
        if r.Err? then (Err(r.error), next) else (Ok(done.value + [r.value]), next)
  }

  /** What the generator returns for a fleet and a sequence of draws on an empty board. */
  ghost function Generate(fleet: seq<nat>, draws: seq<Draw>): (r: Result<seq<Ship>>)
    ensures r.Ok? ==> |r.value| == |fleet|
  {
    Layout(fleet, |fleet|, draws).0
  }

  /** The retry loop reports exhaustion only after using up every draw, each of
      them rejected, provided no single draw fails with exhaustion itself. */
  lemma {:induction false} RetryExhausted(outcome: Draw -> Attempt, size: nat, draws: seq<Draw>, from: nat)
    requires from <= |draws|
    requires forall d :: outcome(d) != Failed(Exhausted)
    ensures Retry(outcome, size, draws, from).0 == Err(Exhausted) ==>
      Retry(outcome, size, draws, from).1 == |draws| &&
      forall j :: from <= j < |draws| ==> outcome(draws[j]) == Rejected
    decreases |draws| - from
  {
    if from < |draws| && outcome(draws[from]) == Rejected {
      RetryExhausted(outcome, size, draws, from + 1);
    }
  }

  /** Otherwise it stops at draw `next - 1`, and every draw it skipped was rejected. */
  lemma {:induction false} RetrySkips(outcome: Draw -> Attempt, size: nat, draws: seq<Draw>, from: nat)
    requires from <= |draws|
    ensures var r := Retry(outcome, size, draws, from);
      r.0 != Err(Exhausted) ==>
        from < r.1 && forall j :: from <= j < r.1 - 1 ==> outcome(draws[j]) == Rejected
    decreases |draws| - from
  {
    if from < |draws| && outcome(draws[from]) == Rejected {
      RetrySkips(outcome, size, draws, from + 1);
    }
  }

  /** A ship comes from the draw the loop stops at: that draw placed it, with
      the requested length, no hits and the placed cells. */
  lemma {:induction false} RetryPlaced(outcome: Draw -> Attempt, size: nat, draws: seq<Draw>, from: nat)
    requires from <= |draws|
    ensures var r := Retry(outcome, size, draws, from);
      r.0.Ok? ==>
        from < r.1 && outcome(draws[r.1 - 1]).Placed? &&
        r.0.value == Ship(size, 0, outcome(draws[r.1 - 1]).cells)
    decreases |draws| - from
  {
    if from < |draws| && outcome(draws[from]) == Rejected {
      RetryPlaced(outcome, size, draws, from + 1);
    }
  }

  /** Any other error comes from the draw the loop stops at, which failed with it. */
  lemma {:induction false} RetryFailed(outcome: Draw -> Attempt, size: nat, draws: seq<Draw>, from: nat)
    requires from <= |draws|
    ensures var r := Retry(outcome, size, draws, from);
      r.0.Err? && r.0.error != Exhausted ==>
        from < r.1 && outcome(draws[r.1 - 1]) == Failed(r.0.error)
    decreases |draws| - from
  {
    if from < |draws| && outcome(draws[from]) == Rejected {
      RetryFailed(outcome, size, draws, from + 1);
    }
  }

  /** Conversely, the draws determine the loop's result: a result whose skipped
      draws were all rejected and whose last draw ends the loop (or which
      reports exhaustion after every remaining draw was rejected) is the one it
      returns. */
  lemma {:induction false} RetryDetermined(outcome: Draw -> Attempt, size: nat, draws: seq<Draw>,
                                           from: nat, result: Result<Ship>, next: nat)
    requires from <= next <= |draws|
    requires result == Err(Exhausted) ==>
      next == |draws| && forall j :: from <= j < next ==> outcome(draws[j]) == Rejected
    requires result != Err(Exhausted) ==>
      from < next &&
      (forall j :: from <= j < next - 1 ==> outcome(draws[j]) == Rejected) &&
      (result.Ok? ==>
        outcome(draws[next - 1]).Placed? && result.value == Ship(size, 0, outcome(draws[next - 1]).cells)) &&
      (result.Err? ==> outcome(draws[next - 1]) == Failed(result.error))
    ensures Retry(outcome, size, draws, from) == (result, next)
    decreases next - from
  {
    if result == Err(Exhausted) {
      if from < next {
        RetryDetermined(outcome, size, draws, from + 1, result, next);
      }
    } else if from < next - 1 {
      RetryDetermined(outcome, size, draws, from + 1, result, next);
    }
  }

  /** The accepting test on the board is the set-level test on its occupied coordinates. */
  lemma AcceptsIffFits(board: array2<bool>, size: nat, d: Draw)
    requires board.Length0 == BoardSize && board.Length1 == BoardSize
    ensures Accepts(board, size, d) <==> Fits(Occupied(board), size, d)
    ensures Rejects(board, size, d) <==> Collides(Occupied(board), size, d)
  {
    if StartPosition(size, d).Ok? {
      var s := StartPosition(size, d).value;
      var row, col := s.row, ColumnIndex(s.column);
      if RunUnoccupied(board, row, col, size, d.horizontal) {
        FitsDisjoint(board, row, col, size, d.horizontal);
      } else {
        var i :| 0 <= i < size && board[RunRow(row, i, d.horizontal), RunCol(col, i, d.horizontal)];
        RunShape(row, col, size, d.horizontal);
        var cells := Run(row, col, size, d.horizontal);
        assert Pos(cells[i]) in Positions(cells);
        assert Pos(cells[i]) in Occupied(board);
      }
    }
  }

  /** Read on the board, each draw's outcome is the one the placement loop sees:
      rejected exactly when the board test rejects it, the run's cells when the
      board test accepts it, and the start's error when there is no start. */
  lemma OutcomesOnBoard(board: array2<bool>, size: nat, draws: seq<Draw>, from: nat)
    requires board.Length0 == BoardSize && board.Length1 == BoardSize
    ensures forall j :: from <= j < |draws| ==>
      var outcome := Outcomes(Occupied(board), size)(draws[j]);
      (Rejects(board, size, draws[j]) <==> outcome == Rejected) &&
      (Accepts(board, size, draws[j]) ==> outcome == Placed(ShipAt(size, draws[j]).cellsOccupied)) &&
      (StartPosition(size, draws[j]).Err? ==> outcome == Failed(StartPosition(size, draws[j]).error))
  {
    forall j | from <= j < |draws|
      ensures var outcome := Outcomes(Occupied(board), size)(draws[j]);
        (Rejects(board, size, draws[j]) <==> outcome == Rejected) &&
        (Accepts(board, size, draws[j]) ==> outcome == Placed(ShipAt(size, draws[j]).cellsOccupied)) &&
        (StartPosition(size, draws[j]).Err? ==> outcome == Failed(StartPosition(size, draws[j]).error))
    {
      AcceptsIffFits(board, size, draws[j]);
    }
  }

  /** Once an iteration of the fleet loop fails, that error is the loop's result. */
  lemma {:induction false} LayoutErrStays(fleet: seq<nat>, k: nat, m: nat, draws: seq<Draw>)
    requires k <= m <= |fleet|
    requires Layout(fleet, k, draws).0.Err?
    ensures Layout(fleet, m, draws).0 == Layout(fleet, k, draws).0
    decreases m
  {
    if k < m {
      LayoutErrStays(fleet, k, m - 1, draws);
    }
  }

  /** With lengths between 1 and 6 every draw yields a start, so the fleet loop
      can only fail by running out of draws. */
  lemma {:induction false} LayoutFailsOnlyByExhaustion(fleet: seq<nat>, k: nat, draws: seq<Draw>)
    requires k <= |fleet|
    requires forall i :: 0 <= i < |fleet| ==> 1 <= fleet[i] <= BoardSize
    ensures Layout(fleet, k, draws).0.Err? ==> Layout(fleet, k, draws).0.error == Exhausted
    decreases k
  {
    if 0 < k {
      LayoutFailsOnlyByExhaustion(fleet, k - 1, draws);
      var (done, from) := Layout(fleet, k - 1, draws);
      if done.Ok? {
        RetryFailed(Outcomes(AllPositions(done.value), fleet[k - 1]), fleet[k - 1], draws, from);
      }
    }
  }

  /** The standard kind of fleet fails only when the draws run out. */
  lemma GenerateFailsOnlyByExhaustion(fleet: seq<nat>, draws: seq<Draw>)
    requires forall i :: 0 <= i < |fleet| ==> 1 <= fleet[i] <= BoardSize
    ensures Generate(fleet, draws).Err? ==> Generate(fleet, draws).error == Exhausted
  {
    LayoutFailsOnlyByExhaustion(fleet, |fleet|, draws);
  }

  /** The generator fails on the fleet 4, 3, 2, 1 only when the draws run out. */
  lemma ShipSizesFailOnlyByExhaustion(draws: seq<Draw>)
    ensures Generate(ShipSizes, draws).Err? ==> Generate(ShipSizes, draws).error == Exhausted
  {
    GenerateFailsOnlyByExhaustion(ShipSizes, draws);
  }

  /** A ship the retry loop places against `occupied` is legal, has `size`
      distinct coordinates and avoids `occupied`. */
  lemma RetryPlacesLegalShip(occupied: set<(int, int)>, size: nat, draws: seq<Draw>, from: nat)
    requires from <= |draws|
    ensures var r := Retry(Outcomes(occupied, size), size, draws, from);
      r.0.Ok? ==>
        LegalShip(r.0.value, size) && |Positions(r.0.value.cellsOccupied)| == size &&
        Positions(r.0.value.cellsOccupied) !! occupied
  {
    var r := Retry(Outcomes(occupied, size), size, draws, from);
    RetryPlaced(Outcomes(occupied, size), size, draws, from);
    if r.0.Ok? {
      PlacedShipIsLegal(size, draws[r.1 - 1], r.0.value);
    }
  }

  /** The ships the first k iterations place are a legal layout of the first k lengths. */
  lemma {:induction false} LayoutLaidOut(fleet: seq<nat>, k: nat, draws: seq<Draw>)
    requires k <= |fleet|
    ensures Layout(fleet, k, draws).0.Ok? ==> FleetLaidOut(fleet[..k], Layout(fleet, k, draws).0.value)
    decreases k
  {
    if k == 0 {
      assert fleet[..0] == [];
    } else {
      LayoutLaidOut(fleet, k - 1, draws);
      var (done, from) := Layout(fleet, k - 1, draws);
      if done.Ok? {
        var occupied := AllPositions(done.value);
        var (r, next) := Retry(Outcomes(occupied, fleet[k - 1]), fleet[k - 1], draws, from);
        if r.Ok? {
          RetryPlacesLegalShip(occupied, fleet[k - 1], draws, from);
          AddShip(fleet, k - 1, done.value, r.value);
          assert Layout(fleet, k, draws).0 == Ok(done.value + [r.value]);
        } else {
          assert Layout(fleet, k, draws).0.Err?;
        }
      } else {
        assert Layout(fleet, k, draws).0.Err?;
      }
    }
  }

  /** Every fleet the generator produces is laid out legally. */
  lemma GenerateLaysOutFleet(fleet: seq<nat>, draws: seq<Draw>)
    ensures Generate(fleet, draws).Ok? ==> FleetLaidOut(fleet, Generate(fleet, draws).value)
  {
    LayoutLaidOut(fleet, |fleet|, draws);
    assert fleet[..|fleet|] == fleet;
  }

  /** A failing fleet loop has a first failing iteration: the one after the
      last iteration that still placed its ship. */
  lemma {:induction false} LayoutFirstError(fleet: seq<nat>, k: nat, draws: seq<Draw>)
    requires k <= |fleet|
    requires Layout(fleet, k, draws).0.Err?
    ensures exists n ::
      0 <= n < k && Layout(fleet, n, draws).0.Ok? && Layout(fleet, n + 1, draws) == Layout(fleet, k, draws)
    decreases k
  {
    if Layout(fleet, k - 1, draws).0.Err? {
      LayoutFirstError(fleet, k - 1, draws);
    } else {
      assert Layout(fleet, k - 1, draws).0.Ok?;
    }
  }

  /** From draw `start` on, every draw collides with the coordinates in `occupied`. */
  ghost predicate AllCollideFrom(occupied: set<(int, int)>, size: nat, draws: seq<Draw>, start: nat) {
    forall j :: start <= j < |draws| ==> Collides(occupied, size, draws[j])
  }

  /** The generator runs out of draws only in the iteration after the last one
      that placed its ship: the ships placed until then are a legal layout of
      the lengths before, every draw left from the index that iteration reached
      collides with their cells, and the failing iteration used all the draws. */
  lemma GenerateExhausted(fleet: seq<nat>, draws: seq<Draw>)
    ensures Generate(fleet, draws) == Err(Exhausted) ==>
      exists n :: 0 <= n < |fleet| && Layout(fleet, n, draws).0.Ok? &&
        FleetLaidOut(fleet[..n], Layout(fleet, n, draws).0.value) &&
        AllCollideFrom(AllPositions(Layout(fleet, n, draws).0.value), fleet[n], draws, Layout(fleet, n, draws).1) &&
        Layout(fleet, n + 1, draws) == (Err(Exhausted), |draws|)
  {
    if Generate(fleet, draws) == Err(Exhausted) {
      LayoutFirstError(fleet, |fleet|, draws);
      var n :| 0 <= n < |fleet| && Layout(fleet, n, draws).0.Ok? &&
        Layout(fleet, n + 1, draws) == Layout(fleet, |fleet|, draws);
      var (done, from) := Layout(fleet, n, draws);
      RetryExhausted(Outcomes(AllPositions(done.value), fleet[n]), fleet[n], draws, from);
      LayoutLaidOut(fleet, n, draws);
      assert AllCollideFrom(AllPositions(done.value), fleet[n], draws, from);
    }
  }

  /** A horizontal draw with picks (row, 0) starts at column A of that row, and
      its run fits whenever every occupied coordinate lies in an earlier row: the
      retry loop then places the ship on that draw, in that row. */
  lemma RowStartFits(occupied: set<(int, int)>, size: nat, draws: seq<Draw>, row: nat)
    requires 1 <= size <= BoardSize && row < BoardSize
    requires row < |draws| && draws[row] == Draw(true, row, 0)
    requires forall p :: p in occupied ==> p.0 < row
    ensures Fits(occupied, size, draws[row])
    ensures Retry(Outcomes(occupied, size), size, draws, row) == (Ok(ShipAt(size, draws[row])), row + 1)
    ensures forall p :: p in Positions(ShipAt(size, draws[row]).cellsOccupied) ==> p.0 == row
  {
    var d := Draw(true, row, 0);
    var s := StartPosition(size, d).value;
    assert s.row == row;
    RunPositions(s.row, ColumnIndex(s.column), size, d.horizontal);
  }

  /** Draws that lay the ships in rows 0 to 3 from column A place the whole
      fleet, each ship on the first draw it gets. */
  lemma RowByRowLayout()
    ensures Generate(ShipSizes, [Draw(true, 0, 0), Draw(true, 1, 0), Draw(true, 2, 0), Draw(true, 3, 0)]).Ok?
  {
    var draws := [Draw(true, 0, 0), Draw(true, 1, 0), Draw(true, 2, 0), Draw(true, 3, 0)];
    RowStartFits({}, 4, draws, 0);
    var ship0 := ShipAt(4, draws[0]);
    var ships1 := [ship0];
    assert [] + [ship0] == ships1;
    assert Layout(ShipSizes, 1, draws) == (Ok(ships1), 1);
    AllPositionsStep([], ship0);
    RowStartFits(AllPositions(ships1), 3, draws, 1);
    var ship1 := ShipAt(3, draws[1]);
    var ships2 := ships1 + [ship1];
    assert Layout(ShipSizes, 2, draws) == (Ok(ships2), 2);
    AllPositionsStep(ships1, ship1);
    RowStartFits(AllPositions(ships2), 2, draws, 2);
    var ship2 := ShipAt(2, draws[2]);
    var ships3 := ships2 + [ship2];
    assert Layout(ShipSizes, 3, draws) == (Ok(ships3), 3);
    AllPositionsStep(ships2, ship2);
    RowStartFits(AllPositions(ships3), 1, draws, 3);
    assert Layout(ShipSizes, 4, draws) == (Ok(ships3 + [ShipAt(1, draws[3])]), 4);
  }

  /** One ship of the loop: build it with its length and no hits, then keep
      drawing starts from `draws[from..]` until one is accepted and placed.
      Every draw before the accepted one was rejected. The `placed` flag of the
      source becomes a return from the branch that places the ship. */
  method PlaceShip(board: array2<bool>, size: nat, draws: seq<Draw>, from: nat)
    returns (result: Result<Ship>, next: nat)
    requires board.Length0 == BoardSize && board.Length1 == BoardSize
    requires from <= |draws|
    modifies board
    ensures from <= next <= |draws|
    ensures result.Ok? ==>
      from < next && old(Accepts(board, size, draws[next - 1])) &&
      (forall j :: from <= j < next - 1 ==> old(Rejects(board, size, draws[j]))) &&
      result.value == ShipAt(size, draws[next - 1])
    ensures result.Ok? ==>
      LegalShip(result.value, size) &&
      |Positions(result.value.cellsOccupied)| == size &&
      Positions(result.value.cellsOccupied) !! old(Occupied(board)) &&
      Occupied(board) == old(Occupied(board)) + Positions(result.value.cellsOccupied)
    ensures result.Err? ==> unchanged(board)
    ensures result == Err(Exhausted) ==>
      next == |draws| && forall j :: from <= j < next ==> old(Rejects(board, size, draws[j]))
    ensures result.Err? && result.error != Exhausted ==>
      from < next && StartPosition(size, draws[next - 1]) == Err(result.error) &&
      forall j :: from <= j < next - 1 ==> old(Rejects(board, size, draws[j]))
    ensures result == Err(IllegalArgument) ==> BoardSize < size
    ensures result == Err(IndexOutOfBounds) ==> size == 0
  {
    var ship := Ship(size, 0, []);
    next := from;
    while next < |draws|
      invariant from <= next <= |draws|
      invariant unchanged(board)
      invariant forall j :: from <= j < next ==> old(Rejects(board, size, draws[j]))
    {
      var d := draws[next];
      next := next + 1;
      var outcome := TryPlaceShip(board, size, d);
      match outcome
      case Failed(error) =>
        return Err(error), next;
      case Placed(cells) =>
        ship := ship.(cellsOccupied := cells);
        PlacedShipIsLegal(size, d, ship);
        return Ok(ship), next;
      case Rejected =>
    }
    return Err(Exhausted), next;
  }

  /** The source's placement loop over a given fleet and a given (initially
      empty) board. */
  method PlaceFleet(board: array2<bool>, fleet: seq<nat>, draws: seq<Draw>) returns (result: Result<seq<Ship>>)
    requires board.Length0 == BoardSize && board.Length1 == BoardSize
    requires forall r, c :: 0 <= r < BoardSize && 0 <= c < BoardSize ==> !board[r, c]
    modifies board
    ensures result.Ok? ==> FleetLaidOut(fleet, result.value) && Occupied(board) == AllPositions(result.value)
    ensures result.Ok? ==> forall k :: 0 <= k < |fleet| ==> fleet[k] <= BoardSize
    ensures result == Err(IllegalArgument) ==> exists k :: 0 <= k < |fleet| && BoardSize < fleet[k]
    ensures result == Err(IndexOutOfBounds) ==> exists k :: 0 <= k < |fleet| && fleet[k] == 0
    ensures result == Generate(fleet, draws)
  {
    var ships: seq<Ship> := [];
    var next := 0;
    EmptyBoard(board);
    assert fleet[..0] == [];
    for k := 0 to |fleet|
      invariant next <= |draws|
      invariant |ships| == k
      invariant FleetLaidOut(fleet[..k], ships)
      invariant Occupied(board) == AllPositions(ships)
      invariant Layout(fleet, k, draws) == (Ok(ships), next)
    {
      ghost var occupied, from := Occupied(board), next;
      OutcomesOnBoard(board, fleet[k], draws, next);
      var placed;
      placed, next := PlaceShip(board, fleet[k], draws, next);
      RetryDetermined(Outcomes(occupied, fleet[k]), fleet[k], draws, from, placed, next);
      if placed.Err? {
        LayoutErrStays(fleet, k + 1, |fleet|, draws);
        assert placed.error == IllegalArgument ==> BoardSize < fleet[k];
        assert placed.error == IndexOutOfBounds ==> fleet[k] == 0;
        return Err(placed.error);
      }
      var ship := placed.value;
      AddShip(fleet, k, ships, ship);
      ships := ships + [ship];
    }
    assert fleet[..|fleet|] == fleet;
    LaidOutShipsFit(fleet, ships);
    return Ok(ships);
  }

  /** Generates the fleet 4, 3, 2, 1 on a fresh 6 x 6 board. Only running out of
      draws can make it fail. */
  method InitializeBoard(draws: seq<Draw>) returns (result: Result<seq<Ship>>)
    ensures result.Err? ==> result.error == Exhausted
    ensures result.Ok? ==> FleetLaidOut(ShipSizes, result.value)
    ensures result.Ok? ==> |AllPositions(result.value)| == 10
    ensures result == Generate(ShipSizes, draws)
  {
    var board := new bool[BoardSize, BoardSize]((_, _) => false);
    result := PlaceFleet(board, ShipSizes, draws);
    ShipSizesFailOnlyByExhaustion(draws);
    TotalShipSizes();
  }
}
