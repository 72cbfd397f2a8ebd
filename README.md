# Conway's Game of Life: the generation step, the first grid and the step loop

This project models the `Game` class of a small Python Game of Life:

- `update_grid`, one generation of the B3/S23 rule;
- `init_grid`, which builds the first grid from the configured size;
- `start`, which renders the first grid and then runs `max_steps`
  generations, rendering after each one.

It also restates the example generations of the unit tests as lemmas.

As written, `update_grid` is a stub: its body only returns `grid.copy()`
(play.py:48-51). The model follows what its comments (play.py:43-46) and the
tests (test.py:20-110) say the step must do. A live cell survives with two or
three live neighbours and dies otherwise. A dead cell comes alive with exactly
three live neighbours and stays dead otherwise. The stub is kept as
`Play.UpdateGridAsWritten` and is listed under Findings.

Modules:

- `Life` (life.dfy) is the rule on grids of 0/1 cells (`seq<seq<Cell>>`):
  - `NextState` is the rule for one cell.
  - `CountNeighbours` sums the eight Moore neighbours.
  - `Step` is one generation and `Iterate` is n generations.
  - The file also holds the lemmas about them.
- `Play` (play.dfy) models play.py:
  - `InitGrid` takes the random cells as a `draw` parameter.
  - `UpdateGrid` works on a 2D array.
  - `Start` returns the log of renders and updates that the real method
    prints or plots.
- `Patterns` (patterns.dfy) holds the grids of test.py and proves each
  expected generation.

Edge convention. `update_grid` works on a copy of the grid (play.py:48). The
model overwrites only the interior cells, so the cells on the outermost rows
and columns keep their copied values. An interior cell therefore only reads
neighbours that exist. Every test satisfies this. The unpadded 5x5 block test
(test.py:22-34) has a dead outer edge, which stays dead. The padded tests
(test.py:38-52) compare exactly the region the model recomputes. For each padded
test the whole 7x7 result is proved as well. A grid with fewer than three rows
or columns has no interior, so one generation leaves it as it is.

## Model

| member | source | states |
|---|---|---|
| Life.NextState | play.py:43-46 | The four numbered rules. A live cell with fewer than two live neighbours dies. A live cell with two or three survives. A live cell with more than three dies. A dead cell becomes live exactly when it has three. |
| Life.CountNeighbours | play.py:43-46 | The neighbour count of an interior cell is between 0 and 8. |
| Life.CountIsLiveNeighbours | play.py:43-46 | The neighbour count equals the size of the set of live cells among the eight Moore neighbours. This is an independent definition of "live neighbours". |
| Life.Step | play.py:48-51 | One generation returns a grid with exactly the shape of its input. |
| Life.InteriorRules | play.py:43-46 | For every interior cell of the grid, Step obeys the four rules, with neighbours counted as a set of live cells. |
| Life.FrameUnchanged | play.py:48 | A cell on the outermost rows or columns keeps the value that `grid.copy()` gave it. |
| Life.FrameUnchangedForever | play.py:29-31 | Those cells keep their value through any number of generations, so a dead border stays dead. |
| Life.AllDeadStaysDead | play.py:43-46 | A grid with no live cell is unchanged by a generation. |
| Life.Iterate | play.py:29-30 | Any number of generations keeps the grid's shape. |
| Life.StillLifeForever | test.py:86-90 | A grid that one generation leaves unchanged stays unchanged for any number of generations. |
| Life.OscillatesWithPeriod2 | test.py:106-110 | A grid that two generations return to alternates between its two phases forever. |
| Play.InitGrid | play.py:15-23 | An int n gives an n x n grid. A two-element tuple (h, w) gives an h x w grid. The cells are the drawn 0/1 values. A negative dimension is an error. Any other size raises "Invalid grid size". |
| Play.UpdateGrid | play.py:42-51 | Returns a freshly allocated array of the same dimensions whose contents are the next generation of the input. The input array is not modified. |
| Play.TraceFacts | play.py:27-31 | A run of n generations logs 2n + 1 events: n + 1 renders and n updates, alternating. Render k shows the grid after k generations, and the last render shows the grid after n. |
| Play.Start | play.py:25-31 | A bad size raises before any render. An unknown visualization mode raises at the first render. Otherwise the log is the run of `max_steps` generations from the initial grid, with zero generations when `max_steps` is negative. |
| Patterns.InteriorOfPad | test.py:50-52 | Comparing `[1:-1, 1:-1]` of a dead-framed grid gives back the framed pattern. |
| Patterns.BlockCompletion | test.py:20-34 | The L-shaped triomino at (1,1), (1,2), (2,2) of a 5x5 grid becomes the full 2x2 block. Every other cell, the outer edge included, stays 0. |
| Patterns.MixedGeneration | test.py:36-52 | Underpopulation, overpopulation and reproduction together give exactly the expected grid of the mixed pattern. |
| Patterns.VerticalPairDies | test.py:54-70 | A vertical pair dies of underpopulation, leaving an all-dead region. This is the shadowed first `test_update_grid3`. |
| Patterns.TubIsStill | test.py:72-90 | One step leaves the tub unchanged, and so does a second step. |
| Patterns.TubForever | test.py:72-90 | The tub is unchanged after any number of generations. |
| Patterns.BeaconOscillates | test.py:92-110 | One step fills the beacon's two inner corners, and a second step returns exactly to the initial grid. |
| Patterns.BeaconForever | test.py:92-110 | After 2n generations the beacon is in its first phase, and after 2n + 1 in its second. |
| Patterns.AsWrittenFailsBlockTest | play.py:48-51 | The stub's result differs from the expected block on the block test, while Step gives exactly that block. |

## Left out

- Rendering (`visualize`, play.py:33-40) is modelled only as a `Render` event in the log. The text printing and the matplotlib display are I/O.
- The banner printed by `start` (play.py:26) is console output and is not modelled.
- The random cell values (`np.random.choice`, play.py:17, 19) are the `draw` parameter. The model keeps only the shape and the 0/1 range of the cells.
- YAML config loading and the `__main__` entry point (play.py:54-57, test.py:8-17) are file I/O. config.yaml is not part of this model.
- A YAML config yields lists, never tuples. A size like `[5, 5]` read from YAML therefore takes the "Invalid grid size" branch. The model represents such a value as `OtherSize`.
- Play.InitGrid: Python's `bool` is a subtype of `int`, so `True` would give a 1x1 grid. Non-integer tuple entries make numpy raise TypeError. Neither case is modelled: sizes are ints or tuples of ints.
- Play.Start: a non-integer `max_steps` would make `range` raise TypeError. The model takes `max_steps` as an int.
- The float dtype of the padded test grids (`np.zeros`, test.py:38) is not modelled. Cells are the integers 0 and 1.
- The unittest harness and the config-loading test `test_setup` are not modelled. The example grids of the tests are lemmas.
- The unused `time` import (play.py:5) and any pacing between frames are not modelled.
- An active-cell (sparse) update strategy and console entry of seed coordinates do not appear in play.py and are not modelled.

## Findings

| source | as written | input that shows it | evidently intended | confidence | as-written member | corrected member |
|---|---|---|---|---|---|---|
| play.py:48-51 | `update_grid` returns `grid.copy()` and never applies the rule described in its comments | the L-shaped triomino of test.py:22-26: the copy keeps cell (2,1) dead, but the test expects it alive | the B3/S23 generation of play.py:43-46, which every example of test.py:20-110 asserts | high (the body is an unfinished stub); not executed | Play.UpdateGridAsWritten, Patterns.AsWrittenFailsBlockTest | Play.UpdateGrid, Life.Step, Patterns.BlockCompletion |
