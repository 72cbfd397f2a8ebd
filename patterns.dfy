/** The example generations of the game's unit tests, proved under the model.

    Except for the first, each test embeds a 5x5 pattern in a 7x7 grid of dead
    cells, applies the update, and compares the inner 5x5 region of the result
    with the expected pattern. */
module Patterns {
  import opened Life
  import opened Play

  /** The dead-framed grid of a test (numpy: `zeros((h + 2, w + 2))` with `x`
      assigned to `[1:-1, 1:-1]`). */
  function Pad(x: Grid): (r: Grid)
    requires IsRect(x)
    ensures HasShape(r, |x| + 2, Width(x) + 2)
  {
    var h, w := |x|, Width(x);
    seq(h + 2, i requires 0 <= i < h + 2 =>
      seq(w + 2, j requires 0 <= j < w + 2 =>
        if 1 <= i <= h && 1 <= j <= w then x[i - 1][j - 1] else DEAD))
  }

  /** The region a test compares (numpy: `g[1:-1, 1:-1]`). */
  function Interior(g: Grid): (r: Grid)
    requires IsRect(g) && |g| >= 2 && Width(g) >= 2
    ensures HasShape(r, |g| - 2, Width(g) - 2)
  {
    seq(|g| - 2, i requires 0 <= i < |g| - 2 =>
      seq(Width(g) - 2, j requires 0 <= j < Width(g) - 2 => g[i + 1][j + 1]))
  }

  /** Comparing the inner region of a padded grid gives back what was padded. */
  lemma InteriorOfPad(x: Grid)
    requires IsRect(x)
    ensures Interior(Pad(x)) == x
  {
    var r := Interior(Pad(x));
    forall i | 0 <= i < |x|
      ensures r[i] == x[i]
    {
    }
  }

  /** Two grids of one shape with the same cells are equal. */
  lemma SameCells(g: Grid, e: Grid)
    requires IsRect(g) && HasShape(e, |g|, Width(g))
    requires forall i, j :: 0 <= i < |g| && 0 <= j < Width(g) ==> g[i][j] == e[i][j]
    ensures g == e
  {
    forall i | 0 <= i < |g|
      ensures g[i] == e[i]
    {
    }
  }

  // The 5x5 patterns of the tests.

  function LShape(): Grid {
    [[0, 0, 0, 0, 0],
     [0, 1, 1, 0, 0],
     [0, 0, 1, 0, 0],
     [0, 0, 0, 0, 0],
     [0, 0, 0, 0, 0]]
  }

  function Block(): Grid {
    [[0, 0, 0, 0, 0],
     [0, 1, 1, 0, 0],
     [0, 1, 1, 0, 0],
     [0, 0, 0, 0, 0],
     [0, 0, 0, 0, 0]]
  }

  function Mixed(): Grid {
    [[0, 0, 0, 0, 0],
     [0, 1, 1, 1, 0],
     [0, 0, 1, 1, 0],
     [0, 1, 0, 1, 0],
     [0, 0, 0, 0, 0]]
  }

  function MixedNext(): Grid {
    [[0, 0, 1, 0, 0],
     [0, 1, 0, 1, 0],
     [0, 0, 0, 0, 1],
     [0, 0, 0, 1, 0],
     [0, 0, 0, 0, 0]]
  }

  function Pair(): Grid {
    [[0, 0, 0, 0, 0],
     [0, 0, 1, 0, 0],
     [0, 0, 1, 0, 0],
     [0, 0, 0, 0, 0],
     [0, 0, 0, 0, 0]]
  }

  function AllDead(): Grid {
    [[0, 0, 0, 0, 0],
     [0, 0, 0, 0, 0],
     [0, 0, 0, 0, 0],
     [0, 0, 0, 0, 0],
     [0, 0, 0, 0, 0]]
  }

  function Tub(): Grid {
    [[0, 0, 0, 0, 0],
     [0, 0, 1, 0, 0],
     [0, 1, 0, 1, 0],
     [0, 0, 1, 0, 0],
     [0, 0, 0, 0, 0]]
  }

  function Beacon(): Grid {
    [[0, 0, 0, 0, 0],
     [0, 1, 1, 0, 0],
     [0, 1, 0, 0, 0],
     [0, 0, 0, 0, 1],
     [0, 0, 0, 1, 1]]
  }

  function BeaconNext(): Grid {
    [[0, 0, 0, 0, 0],
     [0, 1, 1, 0, 0],
     [0, 1, 1, 0, 0],
     [0, 0, 0, 1, 1],
     [0, 0, 0, 1, 1]]
  }


  // The 7x7 grids the padded tests build, written out.

  function PaddedMixed(): Grid {
    [[0, 0, 0, 0, 0, 0, 0],
     [0, 0, 0, 0, 0, 0, 0],
     [0, 0, 1, 1, 1, 0, 0],
     [0, 0, 0, 1, 1, 0, 0],
     [0, 0, 1, 0, 1, 0, 0],
     [0, 0, 0, 0, 0, 0, 0],
     [0, 0, 0, 0, 0, 0, 0]]
  }

  function PaddedMixedNext(): Grid {
    [[0, 0, 0, 0, 0, 0, 0],
     [0, 0, 0, 1, 0, 0, 0],
     [0, 0, 1, 0, 1, 0, 0],
     [0, 0, 0, 0, 0, 1, 0],
     [0, 0, 0, 0, 1, 0, 0],
     [0, 0, 0, 0, 0, 0, 0],
     [0, 0, 0, 0, 0, 0, 0]]
  }

  function PaddedPair(): Grid {
    [[0, 0, 0, 0, 0, 0, 0],
     [0, 0, 0, 0, 0, 0, 0],
     [0, 0, 0, 1, 0, 0, 0],
     [0, 0, 0, 1, 0, 0, 0],
     [0, 0, 0, 0, 0, 0, 0],
     [0, 0, 0, 0, 0, 0, 0],
     [0, 0, 0, 0, 0, 0, 0]]
  }

  function PaddedAllDead(): Grid {
    [[0, 0, 0, 0, 0, 0, 0],
     [0, 0, 0, 0, 0, 0, 0],
     [0, 0, 0, 0, 0, 0, 0],
     [0, 0, 0, 0, 0, 0, 0],
     [0, 0, 0, 0, 0, 0, 0],
     [0, 0, 0, 0, 0, 0, 0],
     [0, 0, 0, 0, 0, 0, 0]]
  }

  function PaddedTub(): Grid {
    [[0, 0, 0, 0, 0, 0, 0],
     [0, 0, 0, 0, 0, 0, 0],
     [0, 0, 0, 1, 0, 0, 0],
     [0, 0, 1, 0, 1, 0, 0],
     [0, 0, 0, 1, 0, 0, 0],
     [0, 0, 0, 0, 0, 0, 0],
     [0, 0, 0, 0, 0, 0, 0]]
  }

  function PaddedBeacon(): Grid {
    [[0, 0, 0, 0, 0, 0, 0],
     [0, 0, 0, 0, 0, 0, 0],
     [0, 0, 1, 1, 0, 0, 0],
     [0, 0, 1, 0, 0, 0, 0],
     [0, 0, 0, 0, 0, 1, 0],
     [0, 0, 0, 0, 1, 1, 0],
     [0, 0, 0, 0, 0, 0, 0]]
  }

  function PaddedBeaconNext(): Grid {
    [[0, 0, 0, 0, 0, 0, 0],
     [0, 0, 0, 0, 0, 0, 0],
     [0, 0, 1, 1, 0, 0, 0],
     [0, 0, 1, 1, 0, 0, 0],
     [0, 0, 0, 0, 1, 1, 0],
     [0, 0, 0, 0, 1, 1, 0],
     [0, 0, 0, 0, 0, 0, 0]]
  }

  lemma PadMixed()
    ensures Pad(Mixed()) == PaddedMixed()
  {
    var g, e := Pad(Mixed()), PaddedMixed();
    forall i, j | 0 <= i < 7 && 0 <= j < 7
      ensures g[i][j] == e[i][j]
    {
      assert i == 0 || i == 1 || i == 2 || i == 3 || i == 4 || i == 5 || i == 6;
      assert j == 0 || j == 1 || j == 2 || j == 3 || j == 4 || j == 5 || j == 6;
    }
    SameCells(g, e);
  }

  lemma PadMixedNext()
    ensures Pad(MixedNext()) == PaddedMixedNext()
  {
    var g, e := Pad(MixedNext()), PaddedMixedNext();
    forall i, j | 0 <= i < 7 && 0 <= j < 7
      ensures g[i][j] == e[i][j]
    {
      assert i == 0 || i == 1 || i == 2 || i == 3 || i == 4 || i == 5 || i == 6;
      assert j == 0 || j == 1 || j == 2 || j == 3 || j == 4 || j == 5 || j == 6;
    }
    SameCells(g, e);
  }

  lemma PadPair()
    ensures Pad(Pair()) == PaddedPair()
  {
    var g, e := Pad(Pair()), PaddedPair();
    forall i, j | 0 <= i < 7 && 0 <= j < 7
      ensures g[i][j] == e[i][j]
    {
      assert i == 0 || i == 1 || i == 2 || i == 3 || i == 4 || i == 5 || i == 6;
      assert j == 0 || j == 1 || j == 2 || j == 3 || j == 4 || j == 5 || j == 6;
    }
    SameCells(g, e);
  }

  lemma PadAllDead()
    ensures Pad(AllDead()) == PaddedAllDead()
  {
    var g, e := Pad(AllDead()), PaddedAllDead();
    forall i, j | 0 <= i < 7 && 0 <= j < 7
      ensures g[i][j] == e[i][j]
    {
      assert i == 0 || i == 1 || i == 2 || i == 3 || i == 4 || i == 5 || i == 6;
      assert j == 0 || j == 1 || j == 2 || j == 3 || j == 4 || j == 5 || j == 6;
    }
    SameCells(g, e);
  }

  lemma PadTub()
    ensures Pad(Tub()) == PaddedTub()
  {
    var g, e := Pad(Tub()), PaddedTub();
    forall i, j | 0 <= i < 7 && 0 <= j < 7
      ensures g[i][j] == e[i][j]
    {
      assert i == 0 || i == 1 || i == 2 || i == 3 || i == 4 || i == 5 || i == 6;
      assert j == 0 || j == 1 || j == 2 || j == 3 || j == 4 || j == 5 || j == 6;
    }
    SameCells(g, e);
  }

  lemma PadBeacon()
    ensures Pad(Beacon()) == PaddedBeacon()
  {
    var g, e := Pad(Beacon()), PaddedBeacon();
    forall i, j | 0 <= i < 7 && 0 <= j < 7
      ensures g[i][j] == e[i][j]
    {
      assert i == 0 || i == 1 || i == 2 || i == 3 || i == 4 || i == 5 || i == 6;
      assert j == 0 || j == 1 || j == 2 || j == 3 || j == 4 || j == 5 || j == 6;
    }
    SameCells(g, e);
  }

  lemma PadBeaconNext()
    ensures Pad(BeaconNext()) == PaddedBeaconNext()
  {
    var g, e := Pad(BeaconNext()), PaddedBeaconNext();
    forall i, j | 0 <= i < 7 && 0 <= j < 7
      ensures g[i][j] == e[i][j]
    {
      assert i == 0 || i == 1 || i == 2 || i == 3 || i == 4 || i == 5 || i == 6;
      assert j == 0 || j == 1 || j == 2 || j == 3 || j == 4 || j == 5 || j == 6;
    }
    SameCells(g, e);
  }

  lemma StepPaddedMixed()
    ensures Step(PaddedMixed()) == PaddedMixedNext()
  {
    var g, e := PaddedMixed(), PaddedMixedNext();
    forall i, j | 0 <= i < 7 && 0 <= j < 7
      ensures NextCell(g, i, j) == e[i][j]
    {
      assert i == 0 || i == 1 || i == 2 || i == 3 || i == 4 || i == 5 || i == 6;
      assert j == 0 || j == 1 || j == 2 || j == 3 || j == 4 || j == 5 || j == 6;
    }
    StepIs(g, e);
  }

  lemma StepPaddedPair()
    ensures Step(PaddedPair()) == PaddedAllDead()
  {
    var g, e := PaddedPair(), PaddedAllDead();
    forall i, j | 0 <= i < 7 && 0 <= j < 7
      ensures NextCell(g, i, j) == e[i][j]
    {
      assert i == 0 || i == 1 || i == 2 || i == 3 || i == 4 || i == 5 || i == 6;
      assert j == 0 || j == 1 || j == 2 || j == 3 || j == 4 || j == 5 || j == 6;
    }
    StepIs(g, e);
  }

  lemma StepPaddedTub()
    ensures Step(PaddedTub()) == PaddedTub()
  {
    var g, e := PaddedTub(), PaddedTub();
    forall i, j | 0 <= i < 7 && 0 <= j < 7
      ensures NextCell(g, i, j) == e[i][j]
    {
      assert i == 0 || i == 1 || i == 2 || i == 3 || i == 4 || i == 5 || i == 6;
      assert j == 0 || j == 1 || j == 2 || j == 3 || j == 4 || j == 5 || j == 6;
    }
    StepIs(g, e);
  }

  lemma StepPaddedBeacon()
    ensures Step(PaddedBeacon()) == PaddedBeaconNext()
  {
    var g, e := PaddedBeacon(), PaddedBeaconNext();
    forall i, j | 0 <= i < 7 && 0 <= j < 7
      ensures NextCell(g, i, j) == e[i][j]
    {
      assert i == 0 || i == 1 || i == 2 || i == 3 || i == 4 || i == 5 || i == 6;
      assert j == 0 || j == 1 || j == 2 || j == 3 || j == 4 || j == 5 || j == 6;
    }
    StepIs(g, e);
  }

  lemma StepPaddedBeaconNext()
    ensures Step(PaddedBeaconNext()) == PaddedBeacon()
  {
    var g, e := PaddedBeaconNext(), PaddedBeacon();
    forall i, j | 0 <= i < 7 && 0 <= j < 7
      ensures NextCell(g, i, j) == e[i][j]
    {
      assert i == 0 || i == 1 || i == 2 || i == 3 || i == 4 || i == 5 || i == 6;
      assert j == 0 || j == 1 || j == 2 || j == 3 || j == 4 || j == 5 || j == 6;
    }
    StepIs(g, e);
  }

  /** An L-shaped triomino in an unpadded 5x5 grid completes the 2x2 block, and
      every other cell, the outer edge included, stays dead. */
  lemma BlockCompletion()
    ensures Step(LShape()) == Block()
  {
    var g, e := LShape(), Block();
    forall i, j | 0 <= i < 5 && 0 <= j < 5
      ensures NextCell(g, i, j) == e[i][j]
    {
      assert i == 0 || i == 1 || i == 2 || i == 3 || i == 4;
      assert j == 0 || j == 1 || j == 2 || j == 3 || j == 4;
    }
    StepIs(g, e);
  }

  /** Underpopulation, overpopulation and reproduction together give exactly the
      expected generation of the mixed pattern. */
  lemma MixedGeneration()
    ensures Step(Pad(Mixed())) == Pad(MixedNext())
    ensures Interior(Step(Pad(Mixed()))) == MixedNext()
  {
    PadMixed();
    PadMixedNext();
    StepPaddedMixed();
    InteriorOfPad(MixedNext());
  }

  /** Both cells of a vertical pair have one live neighbour, so both die and the
      compared region is all dead. This test is shadowed by the next definition
      of the same test name, but its expected grid still holds. */
  lemma VerticalPairDies()
    ensures Step(Pad(Pair())) == Pad(AllDead())
    ensures Interior(Step(Pad(Pair()))) == AllDead()
  {
    PadPair();
    PadAllDead();
    StepPaddedPair();
    InteriorOfPad(AllDead());
  }

  /** The tub is a still life: one step, and a second step, leave it as it is. */
  lemma TubIsStill()
    ensures Step(Pad(Tub())) == Pad(Tub())
    ensures Interior(Step(Pad(Tub()))) == Tub()
    ensures Interior(Step(Step(Pad(Tub())))) == Tub()
  {
    PadTub();
    StepPaddedTub();
    InteriorOfPad(Tub());
  }

  /** ... and so it survives any number of generations. */
  lemma TubForever(n: nat)
    ensures Interior(Iterate(Pad(Tub()), n)) == Tub()
  {
    TubIsStill();
    StillLifeForever(Pad(Tub()), n);
    InteriorOfPad(Tub());
  }

  /** The beacon fills its two inner corners in one step and returns exactly to
      its first phase in the next. */
  lemma BeaconOscillates()
    ensures Step(Pad(Beacon())) == Pad(BeaconNext())
    ensures Interior(Step(Pad(Beacon()))) == BeaconNext()
    ensures Step(Step(Pad(Beacon()))) == Pad(Beacon())
    ensures Interior(Step(Step(Pad(Beacon())))) == Interior(Pad(Beacon()))
  {
    PadBeacon();
    PadBeaconNext();
    StepPaddedBeacon();
    StepPaddedBeaconNext();
    InteriorOfPad(BeaconNext());
  }

  /** ... so it has period 2 for ever. */
  lemma BeaconForever(n: nat)
    ensures Iterate(Pad(Beacon()), 2 * n) == Pad(Beacon())
    ensures Iterate(Pad(Beacon()), 2 * n + 1) == Pad(BeaconNext())
  {
    BeaconOscillates();
    OscillatesWithPeriod2(Pad(Beacon()), n);
  }

  /** update_grid as written fails the first test: a copy of the L-shaped
      triomino is not the block the test expects, while the rule gives it. */
  lemma AsWrittenFailsBlockTest()
    ensures UpdateGridAsWritten(LShape()) != Block()
    ensures Step(LShape()) == Block()
  {
    assert LShape()[2][1] != Block()[2][1];
    BlockCompletion();
  }
}
