/** The `Game` of play.py: building the first grid from the configured size,
    one generation over a numpy-like 2D array, and the step loop of `start`.

    The random cell values are an input (`draw`), and rendering is recorded as
    an event in a log instead of being printed or plotted. */
module Play {
  import opened Life

  /** The `grid_size` configuration value, by its Python type. */
  datatype GridSize =
    | IntSize(n: int)           // an int: a square grid
    | TupleSize(dims: seq<int>) // a tuple of ints
    | OtherSize                 // anything else (a list, a string, None, ...)

  /** The `visualization.mode` configuration value. */
  datatype Mode = Text | Graphical | UnknownMode

  /** The configuration a `Game` is built with. */
  datatype Game = Game(gridSize: GridSize, maxSteps: int, mode: Mode)

  /** The ValueErrors the game raises. */
  datatype GameError =
    | InvalidGridSize           // init_grid's own check
    | NegativeDimensions        // numpy refuses a negative dimension
    | UnknownVisualizationMode  // visualize's check

  datatype Result<T> = Ok(value: T) | Err(error: GameError)

  /** The grid that init_grid returns for a given size, with cell (i, j) drawn as
      draw(i, j); an int n gives n x n, a pair (h, w) gives h x w, anything else
      is refused, and so is a negative dimension. */
  function InitGrid(size: GridSize, draw: (nat, nat) -> Cell): (r: Result<Grid>)
    ensures size.IntSize? && size.n >= 0 ==> r.Ok? && HasShape(r.value, size.n, size.n)
    ensures size.TupleSize? && |size.dims| == 2 && size.dims[0] >= 0 && size.dims[1] >= 0 ==>
              r.Ok? && HasShape(r.value, size.dims[0], size.dims[1])
    ensures r.Ok? ==> IsRect(r.value)
    ensures r.Ok? ==> forall i, j :: 0 <= i < |r.value| && 0 <= j < |r.value[i]| ==> r.value[i][j] == draw(i, j)
    ensures size.IntSize? && size.n < 0 ==> r == Err(NegativeDimensions)
    ensures size.TupleSize? && |size.dims| == 2 && (size.dims[0] < 0 || size.dims[1] < 0) ==>
              r == Err(NegativeDimensions)
    ensures !size.IntSize? && !(size.TupleSize? && |size.dims| == 2) ==> r == Err(InvalidGridSize)
  {
    match size
    case IntSize(n) =>
      if n < 0 then Err(NegativeDimensions) else Ok(Fill(n, n, draw))
    case TupleSize(dims) =>
      if |dims| != 2 then Err(InvalidGridSize)
      else if dims[0] < 0 || dims[1] < 0 then Err(NegativeDimensions)
      else Ok(Fill(dims[0], dims[1], draw))
    case OtherSize =>
      Err(InvalidGridSize)
  }

  /** An h x w grid of drawn cells. */
  function Fill(h: nat, w: nat, draw: (nat, nat) -> Cell): (g: Grid)
    ensures HasShape(g, h, w)
  {
    seq(h, (i: nat) => seq(w, (j: nat) => draw(i, j)))
  }

  /** The array as a sequence of rows. */
  function Contents(a: array2<Cell>): (g: Grid)
    reads a
    ensures HasShape(g, a.Length0, a.Length1)
    ensures forall i, j :: 0 <= i < a.Length0 && 0 <= j < a.Length1 ==> g[i][j] == a[i, j]
  {
    seq(a.Length0, i requires 0 <= i < a.Length0 reads a =>
      seq(a.Length1, j requires 0 <= j < a.Length1 reads a => a[i, j]))
  }

  /** update_grid: copy the grid into a new array, then overwrite every interior
      cell by the rule, reading neighbours only from the old grid. The old grid
      is not modified. */
  method UpdateGrid(grid: array2<Cell>) returns (newGrid: array2<Cell>)
    ensures fresh(newGrid)
    ensures newGrid.Length0 == grid.Length0 && newGrid.Length1 == grid.Length1
    ensures Contents(newGrid) == Step(Contents(grid))
  {
    var h, w := grid.Length0, grid.Length1;
    var g := Contents(grid);  // the old grid, read-only from here on
    newGrid := new Cell[h, w];
    // new_grid = grid.copy()
    var i := 0;
    while i < h
      invariant 0 <= i <= h
      invariant forall a, b :: 0 <= a < i && 0 <= b < w ==> newGrid[a, b] == grid[a, b]
    {
      var j := 0;
      while j < w
        invariant 0 <= j <= w
        invariant forall a, b :: 0 <= a < i && 0 <= b < w ==> newGrid[a, b] == grid[a, b]
        invariant forall b :: 0 <= b < j ==> newGrid[i, b] == grid[i, b]
      {
        newGrid[i, j] := grid[i, j];
        j := j + 1;
      }
      i := i + 1;
    }
    // the rule, for every interior cell
    ghost var next := Step(g);
    i := 1;
    while i < h - 1
      invariant 1 <= i <= if h < 2 then 1 else h - 1
      invariant forall a, b :: 0 <= a < h && 0 <= b < w ==>
                  newGrid[a, b] == if 1 <= a < i && 1 <= b < w - 1 then next[a][b] else g[a][b]
    {
      var j := 1;
      while j < w - 1
        invariant 1 <= j <= if w < 2 then 1 else w - 1
        invariant forall a, b :: 0 <= a < h && 0 <= b < w ==>
                    newGrid[a, b] == if (1 <= a < i || a == i) && 1 <= b < w - 1 && (a < i || b < j)
                                     then next[a][b] else g[a][b]
      {
        newGrid[i, j] := NextState(g[i][j], CountNeighbours(g, i, j));
        j := j + 1;
      }
      i := i + 1;
    }
    forall a, b | 0 <= a < h && 0 <= b < w && !IsInterior(g, a, b)
      ensures next[a][b] == g[a][b]
    {
      FrameUnchanged(g, a, b);
    }
    assert forall a :: 0 <= a < h ==> Contents(newGrid)[a] == next[a];
  }

  /** update_grid exactly as play.py writes it: the rule is described in its
      comments, but the body only returns a copy of the grid. */
  function UpdateGridAsWritten(g: Grid): Grid {
    g
  }

  /** A fresh array holding the grid. */
  method ToArray(g: Grid) returns (a: array2<Cell>)
    requires IsRect(g)
    ensures fresh(a)
    ensures Contents(a) == g
  {
    a := new Cell[|g|, Width(g)]((i: int, j: int) requires 0 <= i < |g| && 0 <= j < Width(g) => g[i][j]);
    assert forall i :: 0 <= i < |g| ==> Contents(a)[i] == g[i];
  }

  /** What start does that can be observed, in order. */
  datatype Event =
    | Render(grid: Grid)  // visualize(grid)
    | Update              // grid = update_grid(grid)

  /** How start ends. */
  datatype Outcome = Finished | Raised(error: GameError)

  /** The number of iterations of `for _ in range(m)`. */
  function StepCount(m: int): nat {
    if m < 0 then 0 else m
  }

  /** The events of a run of n generations from g: a render of g, then an update
      followed by a render of the new grid for each generation. */
  function Trace(g: Grid, n: nat): seq<Event>
    requires IsRect(g)
  {
    if n == 0 then [Render(g)] else Trace(g, n - 1) + [Update, Render(Iterate(g, n))]
  }

  /** How many renders a log holds. */
  function Renders(log: seq<Event>): nat {
    if |log| == 0 then 0 else Renders(log[..|log| - 1]) + (if log[|log| - 1].Render? then 1 else 0)
  }

  /** How many updates a log holds. */
  function Updates(log: seq<Event>): nat {
    if |log| == 0 then 0 else Updates(log[..|log| - 1]) + (if log[|log| - 1].Update? then 1 else 0)
  }

  /** A run of n generations renders n + 1 times and updates n times, alternating,
      and its k-th render shows the grid after k generations; the last one shows
      the grid after n. */
  lemma {:induction false} TraceFacts(g: Grid, n: nat)
    requires IsRect(g)
    ensures |Trace(g, n)| == 2 * n + 1
    ensures forall p :: 0 <= p < 2 * n + 1 ==>
              Trace(g, n)[p] == if p % 2 == 0 then Render(Iterate(g, p / 2)) else Update
    ensures Renders(Trace(g, n)) == n + 1
    ensures Updates(Trace(g, n)) == n
    ensures Trace(g, n)[2 * n] == Render(Iterate(g, n))
  {
    if n > 0 {
      TraceFacts(g, n - 1);
      var t, t1 := Trace(g, n), Trace(g, n - 1) + [Update];
      assert t[..|t| - 1] == t1;
      assert t1[..|t1| - 1] == Trace(g, n - 1);
    }
  }

  /** start: build the first grid, render it, then max_steps times update the
      grid and render the result. An invalid size raises before anything is
      rendered; an unknown visualization mode raises at the first render. */
  method Start(game: Game, draw: (nat, nat) -> Cell) returns (outcome: Outcome, log: seq<Event>)
    ensures InitGrid(game.gridSize, draw).Err? ==>
              outcome == Raised(InitGrid(game.gridSize, draw).error) && log == []
    ensures InitGrid(game.gridSize, draw).Ok? && game.mode == UnknownMode ==>
              outcome == Raised(UnknownVisualizationMode) && log == []
    ensures InitGrid(game.gridSize, draw).Ok? && game.mode != UnknownMode ==>
              outcome == Finished &&
              log == Trace(InitGrid(game.gridSize, draw).value, StepCount(game.maxSteps))
  {
    var init := InitGrid(game.gridSize, draw);
    if init.Err? {
      return Raised(init.error), [];
    }
    if game.mode == UnknownMode {
      return Raised(UnknownVisualizationMode), [];
    }
    var g0 := init.value;
    var grid := ToArray(g0);
    log := [Render(Contents(grid))];
    var steps := StepCount(game.maxSteps);
    for k := 0 to steps
      invariant Contents(grid) == Iterate(g0, k)
      invariant log == Trace(g0, k)
    {
      grid := UpdateGrid(grid);
      log := log + [Update, Render(Contents(grid))];
    }
    outcome := Finished;
  }
}
