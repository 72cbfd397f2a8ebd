/** The generation rule of Conway's Game of Life (B3/S23) on a bounded grid.

    A grid is a rectangular matrix of 0/1 cells, as the numpy arrays the game
    works on. One generation copies the grid and recomputes every interior
    cell from the old grid; the outermost rows and columns (the frame) keep
    their old values, so every neighbour an interior cell reads is in range. */
module Life {

  /** A cell as numpy holds it: 0 is dead, 1 is alive. */
  type Cell = c: int | 0 <= c <= 1

  const DEAD: Cell := 0
  const ALIVE: Cell := 1

  /** Rows of cells; `g[i][j]` is row i, column j (numpy's `grid[i, j]`). */
  type Grid = seq<seq<Cell>>

  /** The number of columns, read off the first row. */
  function Width(g: Grid): nat {
    if |g| == 0 then 0 else |g[0]|
  }

  /** `g` has numpy shape (h, w). */
  predicate HasShape(g: Grid, h: nat, w: nat) {
    |g| == h && forall i :: 0 <= i < h ==> |g[i]| == w
  }

  /** Every row of `g` is as long as the first one. */
  predicate IsRect(g: Grid) {
    HasShape(g, |g|, Width(g))
  }

  /** (i, j) is a cell of the grid. */
  predicate InGrid(g: Grid, i: int, j: int) {
    0 <= i < |g| && 0 <= j < Width(g)
  }

  /** (i, j) is a cell that is not on the outermost rows or columns. */
  predicate IsInterior(g: Grid, i: int, j: int) {
    1 <= i < |g| - 1 && 1 <= j < Width(g) - 1
  }

  /** The transition rule for one cell with `n` live neighbours. */
  function NextState(c: Cell, n: nat): (r: Cell)
    // underpopulation
    ensures c == ALIVE && n < 2 ==> r == DEAD
    // survival
    ensures c == ALIVE && (n == 2 || n == 3) ==> r == ALIVE
    // overpopulation
    ensures c == ALIVE && n > 3 ==> r == DEAD
    // reproduction, and a dead cell stays dead otherwise
    ensures c == DEAD ==> (r == ALIVE <==> n == 3)
  {
    if n == 3 || (c == ALIVE && n == 2) then ALIVE else DEAD
  }

  /** The sum of the eight cells around an interior cell. */
  function CountNeighbours(g: Grid, i: int, j: int): (n: nat)
    requires IsRect(g) && IsInterior(g, i, j)
    ensures n <= 8
  {
    (g[i-1][j-1] as int) + g[i-1][j] + g[i-1][j+1] +
    g[i][j-1]                     + g[i][j+1] +
    g[i+1][j-1]        + g[i+1][j] + g[i+1][j+1]
  }

  /** The eight coordinates of the Moore neighbourhood of (i, j). */
  function Moore(i: int, j: int): seq<(int, int)> {
    [(i-1, j-1), (i-1, j), (i-1, j+1),
     (i,   j-1),           (i,   j+1),
     (i+1, j-1), (i+1, j), (i+1, j+1)]
  }

  /** The cell at p exists and is alive. */
  predicate LiveAt(g: Grid, p: (int, int)) {
    0 <= p.0 < |g| && 0 <= p.1 < |g[p.0]| && g[p.0][p.1] == ALIVE
  }

  /** The live cells listed in ps. */
  ghost function LiveIn(g: Grid, ps: seq<(int, int)>): set<(int, int)> {
    set p | p in ps && LiveAt(g, p)
  }

  /** How many entries of ps are live cells, counted one by one. */
  function CountLive(g: Grid, ps: seq<(int, int)>): nat {
    if |ps| == 0 then 0
    else CountLive(g, ps[..|ps| - 1]) + (if LiveAt(g, ps[|ps| - 1]) then 1 else 0)
  }

  /** A singleton or nothing, for the cell at p. */
  ghost function IfLive(g: Grid, p: (int, int)): set<(int, int)> {
    if LiveAt(g, p) then {p} else {}
  }

  lemma AddDisjoint(s: set<(int, int)>, g: Grid, p: (int, int))
    requires p !in s
    ensures |s + IfLive(g, p)| == |s| + (if LiveAt(g, p) then 1 else 0)
  {
  }

  /** Over a list without repetitions, counting one by one gives the size of the set. */
  lemma {:induction false} LiveInSize(g: Grid, ps: seq<(int, int)>)
    requires forall a, b :: 0 <= a < b < |ps| ==> ps[a] != ps[b]
    ensures |LiveIn(g, ps)| == CountLive(g, ps)
  {
    if |ps| > 0 {
      var q, p := ps[..|ps| - 1], ps[|ps| - 1];
      LiveInSize(g, q);
      assert LiveIn(g, ps) == LiveIn(g, q) + IfLive(g, p);
      AddDisjoint(LiveIn(g, q), g, p);
    }
  }

  lemma CountLivePrefix(g: Grid, ps: seq<(int, int)>, k: nat)
    requires k < |ps|
    ensures CountLive(g, ps[..k + 1]) == CountLive(g, ps[..k]) + (if LiveAt(g, ps[k]) then 1 else 0)
  {
    assert ps[..k + 1][..k] == ps[..k];
  }

  lemma MooreDistinct(i: int, j: int)
    ensures forall a, b :: 0 <= a < b < |Moore(i, j)| ==> Moore(i, j)[a] != Moore(i, j)[b]
  {
  }

  lemma CountLiveMoore(g: Grid, i: int, j: int)
    requires IsRect(g) && IsInterior(g, i, j)
    ensures CountLive(g, Moore(i, j)) == CountNeighbours(g, i, j)
  {
    var m := Moore(i, j);
    assert m[..0] == [];
    CountLivePrefix(g, m, 0);
    assert CountLive(g, m[..1]) == CountLive(g, m[..0]) + g[i-1][j-1];
    CountLivePrefix(g, m, 1);
    assert CountLive(g, m[..2]) == CountLive(g, m[..1]) + g[i-1][j];
    CountLivePrefix(g, m, 2);
    assert CountLive(g, m[..3]) == CountLive(g, m[..2]) + g[i-1][j+1];
    CountLivePrefix(g, m, 3);
    assert CountLive(g, m[..4]) == CountLive(g, m[..3]) + g[i][j-1];
    CountLivePrefix(g, m, 4);
    assert CountLive(g, m[..5]) == CountLive(g, m[..4]) + g[i][j+1];
    CountLivePrefix(g, m, 5);
    assert CountLive(g, m[..6]) == CountLive(g, m[..5]) + g[i+1][j-1];
    CountLivePrefix(g, m, 6);
    assert CountLive(g, m[..7]) == CountLive(g, m[..6]) + g[i+1][j];
    CountLivePrefix(g, m, 7);
    assert CountLive(g, m[..8]) == CountLive(g, m[..7]) + g[i+1][j+1];
    assert m[..8] == m;
  }

  /** The neighbour count is the number of live cells in the Moore neighbourhood. */
  lemma CountIsLiveNeighbours(g: Grid, i: int, j: int)
    requires IsRect(g) && IsInterior(g, i, j)
    ensures |LiveIn(g, Moore(i, j))| == CountNeighbours(g, i, j)
  {
    MooreDistinct(i, j);
    LiveInSize(g, Moore(i, j));
    CountLiveMoore(g, i, j);
  }

  /** The next value of cell (i, j): an interior cell follows the rule, a frame
      cell keeps the value the copy gave it. */
  function NextCell(g: Grid, i: int, j: int): Cell
    requires IsRect(g) && InGrid(g, i, j)
  {
    if IsInterior(g, i, j) then NextState(g[i][j], CountNeighbours(g, i, j)) else g[i][j]
  }

  /** One generation: a new grid of the same shape, each cell computed from the old grid only. */
  function Step(g: Grid): (r: Grid)
    requires IsRect(g)
    ensures HasShape(r, |g|, Width(g))
  {
    seq(|g|, i requires 0 <= i < |g| =>
      seq(Width(g), j requires 0 <= j < Width(g) => NextCell(g, i, j)))
  }

  /** `n` generations from g. */
  function Iterate(g: Grid, n: nat): (r: Grid)
    requires IsRect(g)
    ensures HasShape(r, |g|, Width(g))
  {
    if n == 0 then g else Step(Iterate(g, n - 1))
  }

  /** Step is determined cell by cell: a grid of the same shape whose every cell is
      the next value of the old cell is the next generation. */
  lemma StepIs(g: Grid, e: Grid)
    requires IsRect(g) && HasShape(e, |g|, Width(g))
    requires forall i, j :: 0 <= i < |g| && 0 <= j < Width(g) ==> NextCell(g, i, j) == e[i][j]
    ensures Step(g) == e
  {
    var r := Step(g);
    forall i | 0 <= i < |g|
      ensures r[i] == e[i]
    {
      assert forall j :: 0 <= j < Width(g) ==> r[i][j] == e[i][j];
    }
  }

  /** The live cells around (i, j), as a set of coordinates. */
  ghost function LiveNeighbours(g: Grid, i: int, j: int): set<(int, int)> {
    LiveIn(g, Moore(i, j))
  }

  /** The four rules of the game, stated over the set of live neighbours: what
      one generation does to an interior cell. */
  lemma InteriorRules(g: Grid, i: int, j: int)
    requires IsRect(g) && IsInterior(g, i, j)
    // 1. underpopulation
    ensures g[i][j] == ALIVE && |LiveNeighbours(g, i, j)| < 2 ==> Step(g)[i][j] == DEAD
    // 2. survival
    ensures g[i][j] == ALIVE && 2 <= |LiveNeighbours(g, i, j)| <= 3 ==> Step(g)[i][j] == ALIVE
    // 3. overpopulation
    ensures g[i][j] == ALIVE && |LiveNeighbours(g, i, j)| > 3 ==> Step(g)[i][j] == DEAD
    // 4. reproduction; otherwise a dead cell stays dead
    ensures g[i][j] == DEAD ==> (Step(g)[i][j] == ALIVE <==> |LiveNeighbours(g, i, j)| == 3)
  {
    CountIsLiveNeighbours(g, i, j);
  }

  /** A cell on the outermost rows or columns keeps its value. */
  lemma FrameUnchanged(g: Grid, i: int, j: int)
    requires IsRect(g) && InGrid(g, i, j) && !IsInterior(g, i, j)
    ensures Step(g)[i][j] == g[i][j]
  {
  }

  /** ... and so keeps it for any number of generations: a dead border stays dead. */
  lemma {:induction false} FrameUnchangedForever(g: Grid, n: nat, i: int, j: int)
    requires IsRect(g) && InGrid(g, i, j) && !IsInterior(g, i, j)
    ensures Iterate(g, n)[i][j] == g[i][j]
  {
    if n > 0 {
      FrameUnchangedForever(g, n - 1, i, j);
      FrameUnchanged(Iterate(g, n - 1), i, j);
    }
  }

  /** A grid with no live cell is left as it is. */
  lemma AllDeadStaysDead(g: Grid)
    requires IsRect(g)
    requires forall i, j :: 0 <= i < |g| && 0 <= j < |g[i]| ==> g[i][j] == DEAD
    ensures Step(g) == g
  {
    forall i, j | 0 <= i < |g| && 0 <= j < Width(g)
      ensures NextCell(g, i, j) == g[i][j]
    {
    }
    StepIs(g, g);
  }

  /** A still life (a fixed point of Step) never changes. */
  lemma {:induction false} StillLifeForever(g: Grid, n: nat)
    requires IsRect(g) && Step(g) == g
    ensures Iterate(g, n) == g
  {
    if n > 0 {
      StillLifeForever(g, n - 1);
    }
  }

  /** A period-2 oscillator alternates between its two phases forever. */
  lemma {:induction false} OscillatesWithPeriod2(g: Grid, n: nat)
    requires IsRect(g) && Step(Step(g)) == g
    ensures Iterate(g, 2 * n) == g
    ensures Iterate(g, 2 * n + 1) == Step(g)
  {
    if n > 0 {
      OscillatesWithPeriod2(g, n - 1);
      assert Iterate(g, 2 * n) == Step(Iterate(g, 2 * n - 1));
    }
  }
}
