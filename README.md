# Mathleship board generator

This is a Dafny model of the board generator behind the Mathleship mini-game. The
`initialize` endpoint of `MathleshipRestController` places the fleet `[4, 3, 2, 1]` on a
6 × 6 grid, in that order. For each ship it draws an orientation and a start at random. It
checks that every cell of the candidate run is on the board and still free. Then it either
marks the cells occupied or draws again. It returns one `Ship` per fleet entry: the size, a
hit count of 0, and the occupied cells as `GridCell`s with a letter column (`'A'..'F'`),
`hasShip = 1` and `isHit = 0`.

The model is imperative, like the source:

- The occupancy board is an `array2<bool>`.
- `CanPlaceShip` is a read-only method that loops with an early return.
- `PlaceShipOnBoard` loops over the run. It writes into the board and returns the cells.
- The `for`/`while (!placed)` structure of `initializeBoard` is kept:
  - `PlaceFleet` is the loop over the fleet.
  - `PlaceShip` is one `while (!placed)` loop. Where the source sets `placed = true`, the
    model returns from the branch that places the ship.
  - `TryPlaceShip` is one iteration of that loop.
- `GridCell` and `Ship` are value datatypes. They live in module `Entity`.
- `java.util.Random` is replaced by a finite sequence of caller-supplied `Draw`s. Each draw
  holds the `nextBoolean` result and two raw values.
  - `nextInt(bound)` is modelled as `pick % bound`. A pick already below the bound is taken
    as is, so every value in range can be produced.
  - A bound that is not positive gives `IllegalArgument`, as Java throws
    `IllegalArgumentException`.
  - When the draws run out, the result is `Exhausted`. This is the attempt bound on the
    otherwise unbounded rejection loop.

What is proved:

- `CanPlaceShip` answers exactly "every cell of the run is on the board and free".
- Every start the generator can produce keeps the run on the board, so a rejection is
  always a collision.
- Every start from which a ship fits can be produced by some draw (sizes 1..6).
- The column letters round-trip.
- `PlaceShipOnBoard` writes exactly the run's cells. It leaves every other cell unchanged
  and returns the run from the start outward.
- A rejected or failed draw leaves the board unchanged.
- On success, `InitializeBoard` returns one ship per fleet entry, in order. Each ship is a
  contiguous straight run inside the board, with size equal to its entry and hit count 0.
  The ships are pairwise disjoint and cover exactly 10 coordinates.
- On the board, the occupied cells are exactly the ships' cells.
- The generator is also a ghost function of the fleet and the draws:
  - `DrawOutcome` is one iteration of the `while (!placed)` loop against a set of occupied
    coordinates;
  - `Retry` is that whole loop;
  - `Layout` is the state of the `for` loop after its first k iterations;
  - `Generate` is the whole `for` loop.

  `PlaceFleet` and `InitializeBoard` return exactly `Generate`'s value. About `Generate` it
  is proved that:
  - a success is a legal layout;
  - with lengths 1..6 the only failure is running out of draws;
  - running out happens only after some n of the generator's own iterations have each
    placed a ship. Those ships are a legal layout, every draw from the index they reached
    collides with them, and iteration n + 1 uses up every draw;
  - the draws that start each ship at column A of rows 0 to 3 succeed.

## Model

| member | source | states |
|---|---|---|
| `Mathleship.ColumnIndex` | src/main/java/com/project/demo/rest/mathleship/MathleshipRestController.java:81-83 | `column - 'A'` lies in [0, 6) exactly when the letter is one of `COLUMNS`, and then `COLUMNS` maps the index back to the letter |
| `Mathleship.ColumnRoundTrip` | src/main/java/com/project/demo/rest/mathleship/MathleshipRestController.java:31 | for every column number c in [0, 6), `getColumnIndex(COLUMNS[c]) == c` |
| `Mathleship.NextInt` | src/main/java/com/project/demo/rest/mathleship/MathleshipRestController.java:60-61 | `nextInt(bound)` fails with IllegalArgument exactly when the bound is not positive; otherwise it lies in [0, bound), and any pick below the bound is returned unchanged |
| `Mathleship.StartPosition` | src/main/java/com/project/demo/rest/mathleship/MathleshipRestController.java:59-63 | succeeds exactly for sizes up to 6, except size 0 horizontal with column 6 (`COLUMNS[6]` out of bounds); fails with IllegalArgument exactly for sizes over 6; a horizontal start has row in [0, 6) and column in [0, 7 - size), a vertical one the transposed ranges; the whole run is on the board; the cell has a letter column, `hasShip = 1`, `isHit = 0` |
| `Mathleship.StartReachable` | src/main/java/com/project/demo/rest/mathleship/MathleshipRestController.java:59-63 | for sizes 1..6, every start from which the run fits on the board is produced by some draw |
| `Mathleship.RunInBoundsIff` | src/main/java/com/project/demo/rest/mathleship/MathleshipRestController.java:66-76 | a non-empty run is on the board exactly when its start is and its far end does not pass the edge (row < 6 and col + size <= 6 horizontally, transposed vertically) |
| `Mathleship.RejectedOnlyByCollision` | src/main/java/com/project/demo/rest/mathleship/MathleshipRestController.java:46-48 | for a generated start the run is always on the board, so a start is rejected exactly when some cell of its run is occupied |
| `Mathleship.CanPlaceShip` | src/main/java/com/project/demo/rest/mathleship/MathleshipRestController.java:65-79 | true iff every cell i < size, at (row, col + i) horizontally or (row + i, col) vertically, has row < 6, column < 6 and is unoccupied; has no modifies clause, so it cannot change the board |
| `Mathleship.RunShape` | src/main/java/com/project/demo/rest/mathleship/MathleshipRestController.java:86-98 | the emitted run has exactly size cells; the i-th cell is at (row, col + i) or (row + i, col); the cells are on the board, have letter columns A..F, `hasShip = 1`, `isHit = 0`, and form a horizontal run when horizontal and a vertical one otherwise |
| `Mathleship.RunPositions` | src/main/java/com/project/demo/rest/mathleship/MathleshipRestController.java:87-97 | the run covers exactly the coordinates on the segment, and size distinct ones |
| `Mathleship.StraightRunLength` | src/main/java/com/project/demo/rest/mathleship/MathleshipRestController.java:74 | a straight run inside the board has at most 6 cells |
| `Mathleship.FitsDisjoint` | src/main/java/com/project/demo/rest/mathleship/MathleshipRestController.java:74-75 | a run that passed the check shares no coordinate with the occupied cells |
| `Mathleship.PlaceShipOnBoard` | src/main/java/com/project/demo/rest/mathleship/MathleshipRestController.java:85-99 | returns the run from the start outward; afterwards a board cell is true iff it was true before or lies on the run, so every other cell keeps its value; the occupied set grows by exactly the run's coordinates |
| `Mathleship.TryPlaceShip` | src/main/java/com/project/demo/rest/mathleship/MathleshipRestController.java:45-53 | a draw fails iff its start cannot be produced; is placed iff the ship fits there, and then the board gains exactly the run; a rejected or failed draw leaves the board unchanged |
| `Mathleship.TotalShipSizes` | src/main/java/com/project/demo/rest/mathleship/MathleshipRestController.java:29 | the fleet 4, 3, 2, 1 has 10 cells in all |
| `Mathleship.AddShip` | src/main/java/com/project/demo/rest/mathleship/MathleshipRestController.java:48-52 | appending a legal ship of the next fleet length that avoids all occupied coordinates keeps the layout legal, and adds its coordinates to the union |
| `Mathleship.LaidOutShipsFit` | src/main/java/com/project/demo/rest/mathleship/MathleshipRestController.java:38-56 | a legal layout can only exist when no fleet entry exceeds 6 |
| `Mathleship.AcceptsIffFits` | src/main/java/com/project/demo/rest/mathleship/MathleshipRestController.java:46-48 | a drawn start passes `canPlaceShip` on the board exactly when its run avoids the set of occupied coordinates, and is rejected exactly when its run meets that set |
| `Mathleship.DrawOutcome` | src/main/java/com/project/demo/rest/mathleship/MathleshipRestController.java:45-53 | one iteration of the `while (!placed)` loop against a set of occupied coordinates: the start position's error, a rejection when the run meets the set, or the run's cells; a failure is never exhaustion, and a placed run has `size` cells and avoids the set |
| `Mathleship.Retry` | src/main/java/com/project/demo/rest/mathleship/MathleshipRestController.java:44-54 | computes the `while (!placed)` loop from a given draw on: the first draw that is not rejected decides the result, and a placed ship has the size, hit count 0 and that draw's cells; ensures the index of the next unused draw lies between the start and the end of the draws (the lemmas below state the rest) |
| `Mathleship.OutcomesOnBoard` | src/main/java/com/project/demo/rest/mathleship/MathleshipRestController.java:46-48 | read on a board, each draw's outcome is the one the loop sees: rejected exactly when `canPlaceShip` rejects it, the run's cells when it accepts it, the start position's error when there is no start |
| `Mathleship.RetryExhausted` | src/main/java/com/project/demo/rest/mathleship/MathleshipRestController.java:44-54 | when no single draw fails with exhaustion, the retry loop runs out only after using every remaining draw, each of them rejected |
| `Mathleship.RetrySkips` | src/main/java/com/project/demo/rest/mathleship/MathleshipRestController.java:44-54 | otherwise the loop stops at draw `next - 1` and every draw it skipped was rejected |
| `Mathleship.RetryPlaced` | src/main/java/com/project/demo/rest/mathleship/MathleshipRestController.java:48-52 | a ship comes from the draw the loop stops at, which placed it; the ship has the requested size, hit count 0 and that draw's cells |
| `Mathleship.RetryFailed` | src/main/java/com/project/demo/rest/mathleship/MathleshipRestController.java:44-54 | any error other than exhaustion is the error of the draw the loop stops at |
| `Mathleship.RetryDetermined` | src/main/java/com/project/demo/rest/mathleship/MathleshipRestController.java:44-54 | conversely, a result and stop index whose skipped draws were rejected and whose last draw ends the loop with that result are the loop's value |
| `Mathleship.RetryPlacesLegalShip` | src/main/java/com/project/demo/rest/mathleship/MathleshipRestController.java:48-52 | a ship the loop places is legal for its length, has that many distinct coordinates and avoids the occupied ones |
| `Mathleship.Layout` | src/main/java/com/project/demo/rest/mathleship/MathleshipRestController.java:38-55 | the `for` loop after its first k iterations: the ships placed so far, one per iteration, or the error that ended the loop, and the next draw's index, which is within the draws |
| `Mathleship.Generate` | src/main/java/com/project/demo/rest/mathleship/MathleshipRestController.java:38-55 | the whole `for` loop on an empty board; a success has one ship per fleet entry |
| `Mathleship.LayoutErrStays` | src/main/java/com/project/demo/rest/mathleship/MathleshipRestController.java:38-55 | once an iteration of the `for` loop fails, every later state carries that same error |
| `Mathleship.LayoutFailsOnlyByExhaustion` | src/main/java/com/project/demo/rest/mathleship/MathleshipRestController.java:38-55 | with every fleet length in 1..6, the first k iterations fail only by running out of draws |
| `Mathleship.LayoutLaidOut` | src/main/java/com/project/demo/rest/mathleship/MathleshipRestController.java:38-55 | the ships of the first k iterations are a legal layout of the first k lengths |
| `Mathleship.LayoutFirstError` | src/main/java/com/project/demo/rest/mathleship/MathleshipRestController.java:38-55 | a failing loop has a first failing iteration n: the state after n iterations is a success and the state after n + 1 is the final one |
| `Mathleship.ShipSizesFailOnlyByExhaustion` | src/main/java/com/project/demo/rest/mathleship/MathleshipRestController.java:29 | the generator on the fleet 4, 3, 2, 1 fails only by running out of draws |
| `Mathleship.GenerateFailsOnlyByExhaustion` | src/main/java/com/project/demo/rest/mathleship/MathleshipRestController.java:38-55 | with every fleet length in 1..6 the generator fails only by running out of draws |
| `Mathleship.GenerateLaysOutFleet` | src/main/java/com/project/demo/rest/mathleship/MathleshipRestController.java:38-55 | every fleet the generator returns is a legal layout: one ship per entry in order, straight, on the board, pairwise disjoint |
| `Mathleship.GenerateExhausted` | src/main/java/com/project/demo/rest/mathleship/MathleshipRestController.java:38-55 | the generator runs out of draws only after some n of its own iterations that each placed a ship: those n ships are a legal layout of the first n lengths, every draw from the index they reached collides with their cells, and iteration n + 1 ends with `Exhausted` after using every draw |
| `Mathleship.RowStartFits` | src/main/java/com/project/demo/rest/mathleship/MathleshipRestController.java:59-63 | the draw (horizontal, row, 0) fits while all occupied coordinates are in earlier rows; the loop then places the ship on that draw, within that row |
| `Mathleship.RowByRowLayout` | src/main/java/com/project/demo/rest/mathleship/MathleshipRestController.java:29 | the fleet 4, 3, 2, 1 is placed by the four draws that start each ship at column A of rows 0 to 3 |
| `Mathleship.PlaceShip` | src/main/java/com/project/demo/rest/mathleship/MathleshipRestController.java:39-54 | every draw before the accepted one was rejected by collision; the ship has the given size, hit count 0, and the run of the accepted start as cells; those cells were free and the board gains exactly them; on exhaustion every draw was rejected and the board is unchanged; IllegalArgument only for size > 6, IndexOutOfBounds only for size 0 |
| `Mathleship.PlaceFleet` | src/main/java/com/project/demo/rest/mathleship/MathleshipRestController.java:35-56 | on success one legal ship per fleet entry in order, pairwise disjoint, covering the sum of the lengths, and the board's true cells are exactly the ships' cells; success needs every length <= 6; IllegalArgument only if some length exceeds 6, IndexOutOfBounds only if some length is 0; the result is `Generate` of the fleet and the draws |
| `Mathleship.InitializeBoard` | src/main/java/com/project/demo/rest/mathleship/MathleshipRestController.java:33-57 | on a fresh all-false 6 × 6 board with the fleet 4, 3, 2, 1: the result is `Generate` of the fleet and the draws; fails only with `Exhausted`; on success returns four ships of sizes 4, 3, 2, 1 in order, each with hit count 0 and a straight contiguous run of that many cells inside the board, pairwise disjoint, covering 10 coordinates |

## Left out

- Randomness: the draws are a parameter. The model covers only the ranges the draws fall
  in, not the uniform distribution of `java.util.Random`.
- Unbounded retry: the source's `while (!placed)` loop has no attempt bound and loops
  forever if no start ever fits. The model stops with `Exhausted` when the supplied draws
  run out. Any terminating run of the source corresponds to a finite draw sequence.
- Fleet generalisation: `PlaceFleet` takes any fleet of natural numbers, not only the
  constant `SHIP_SIZES`. Negative ship sizes are not modelled.
- Oversized ships (a fleet such as [7]): the source does not report exhaustion. It throws an
  `IllegalArgumentException` from `nextInt` with a bound that is not positive, and the model
  returns `IllegalArgument` for it. With the source's constant fleet this cannot happen.
- Lower bounds in the board check: `canPlaceShip` checks only `row >= 6` and
  `colIndex >= 6`. Lower bounds come from the generator. `CanPlaceShip` therefore requires a
  non-negative row and column index, which every generated start has.
- The board is a local variable in `initializeBoard`. The model passes it to `PlaceFleet`
  so that the board-level facts can be stated. `InitializeBoard` allocates it itself, all
  false, as `new boolean[6][6]` does.
- Hit resolution, sinking and win detection are not in this code. `isHit` and `hitCount`
  are only ever set to 0 here, so none of this is modelled.
- Persistence and transport: the Spring REST mapping, the repository field, and the JPA
  `id` of `GridCell` and `Ship` are left out.
- `Ship` as an object: `Ship` is declared in another file. Only the three fields its setters
  touch here are modelled, as a value, and the setters as record updates.
- TeamController, UserRestController, ScoreRestController and the entity classes are
  persistence and request plumbing with no logic of their own. They are not part of this
  model.
