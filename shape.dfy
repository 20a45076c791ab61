/**
 * Shapes of the puzzle: an id, a 0/1/2 pattern grid, the occupancy and gap
 * masks derived from it, and the offset the masks have been moved by
 * (shape/shape.go).  A Go `Shape` is a value that its methods copy, so it is
 * a datatype here; the loops of the source are methods proved equal to the
 * functions that specify them.
 */
module Shape {
  import opened mask

  type Grid = seq<seq<int>>

  datatype Shape = Shape(id: int, pattern: Grid, mask: Bits, gaps: Bits, row: int, col: int)

  /** The grids the source works with: non-empty and rectangular. */
  predicate Rectangular(g: Grid)
  {
    1 <= |g| && 1 <= |g[0]| && forall r | 0 <= r < |g| :: |g[r]| == |g[0]|
  }

  /** A rectangular grid that also fits the 8x8 mask. */
  predicate Fits(g: Grid)
  {
    Rectangular(g) && |g| <= 8 && |g[0]| <= 8
  }

  lemma RectangularScannable(g: Grid)
    requires Rectangular(g)
    ensures Scannable(g) && Width(g) == |g[0]|
  {
  }

  function NumRows(s: Shape): nat
  {
    |s.pattern|
  }

  function NumCols(s: Shape): nat
    requires 1 <= |s.pattern|
  {
    |s.pattern[0]|
  }

  function ID(s: Shape): int
  {
    s.id
  }

  function Mask(s: Shape): Bits
  {
    s.mask
  }

  function GapMask(s: Shape): Bits
  {
    s.gaps
  }

  // ---------------------------------------------------------------------
  // Construction (shape.go:25-51, 81-85)
  // ---------------------------------------------------------------------

  /** The shape with its masks derived from its current pattern. */
  function WithMasks(s: Shape): (t: Shape)
    requires Scannable(s.pattern)
    ensures t.id == s.id && t.pattern == s.pattern && t.row == s.row && t.col == s.col
  {
    s.(mask := Occupancy(s.pattern), gaps := GapCells(s.pattern))
  }

  /**
   * ComputeMask, which updates the shape it is called on: the updated shape is returned together
   * with its new occupancy mask.
   */
  method ComputeMask(s: Shape) returns (t: Shape, m: Bits)
    requires Scannable(s.pattern)
    ensures t == WithMasks(s) && m == t.mask
  {
    var mbits, gapbits := mask.ComputeMask(s.pattern);
    t := s.(mask := mbits, gaps := gapbits);
    m := t.mask;
  }

  /** The shape NewShape builds: placed at (0, 0), masks from the grid. */
  function Initial(id: int, grid: Grid): (s: Shape)
    requires Scannable(grid)
    ensures s.id == id && s.pattern == grid && s.row == 0 && s.col == 0
  {
    WithMasks(Shape(id, grid, 0, 0, 0, 0))
  }

  /** The gap cells of a new shape are among its filled cells. */
  lemma InitialGapsWithin(id: int, grid: Grid)
    requires Scannable(grid)
    ensures Within(Initial(id, grid).gaps, Initial(id, grid).mask)
  {
    GapsWithinOccupancy(grid);
  }

  method NewShape(id: int, grid: Grid) returns (s: Shape)
    requires Scannable(grid)
    ensures s == Initial(id, grid)
  {
    s := Shape(id, grid, 0, 0, 0, 0);
    var m;
    s, m := ComputeMask(s);
  }

  /** For a grid that fits the frame, the masks of a new shape mark exactly its filled and gap cells. */
  lemma InitialCells(id: int, grid: Grid, i: int, j: int)
    requires Fits(grid) && InFrame(i, j)
    ensures Has(Initial(id, grid).mask, i, j) <==> i < |grid| && j < |grid[0]| && grid[i][j] != 0
    ensures Has(Initial(id, grid).gaps, i, j) <==> i < |grid| && j < |grid[0]| && grid[i][j] == 2
  {
    MaskCells(grid, i, j);
  }

  /** One shape per grid, numbered from 1 in the order of the grids. */
  method MakeShapes(grids: seq<Grid>) returns (shapes: seq<Shape>)
    requires forall k | 0 <= k < |grids| :: Scannable(grids[k])
    ensures |shapes| == |grids|
    ensures forall k | 0 <= k < |grids| :: shapes[k] == Initial(k + 1, grids[k])
  {
    shapes := [];
    for id := 0 to |grids|
      invariant |shapes| == id
      invariant forall k | 0 <= k < id :: shapes[k] == Initial(k + 1, grids[k])
    {
      var s := NewShape(id + 1, grids[id]);
      shapes := shapes + [s];
    }
  }

  // ---------------------------------------------------------------------
  // Masks of a shape (shape.go:88-112)
  // ---------------------------------------------------------------------

  /** Restricts both masks to a region: a cell stays exactly when it is in the region; the pattern and the offset stay. */
  function Clip(s: Shape, region: Bits): (t: Shape)
    ensures t.id == s.id && t.pattern == s.pattern && t.row == s.row && t.col == s.col
    ensures Within(t.mask, region) && Within(t.gaps, region)
    ensures Within(t.mask, s.mask) && Within(t.gaps, s.gaps)
    ensures Within(And(s.mask, region), t.mask) && Within(And(s.gaps, region), t.gaps)
    ensures Within(s.gaps, s.mask) ==> Within(t.gaps, t.mask)
  {
    AndWithin(s.mask, region);
    AndWithin(s.gaps, region);
    WithinSelf(And(s.mask, region));
    WithinSelf(And(s.gaps, region));
    AndKeepsWithin(s.gaps, s.mask, region);
    s.(mask := And(s.mask, region), gaps := And(s.gaps, region))
  }

  /** A clipped shape covers cell (i, j) exactly when the shape and the region both do. */
  lemma ClipCells(s: Shape, region: Bits, i: int, j: int)
    requires InFrame(i, j)
    ensures Has(Clip(s, region).mask, i, j) <==> Has(s.mask, i, j) && Has(region, i, j)
    ensures Has(Clip(s, region).gaps, i, j) <==> Has(s.gaps, i, j) && Has(region, i, j)
  {
    HasAnd(s.mask, region, i, j);
    HasAnd(s.gaps, region, i, j);
  }

  /** The filled cells that are not gap cells. */
  function OutlineMask(s: Shape): (o: Bits)
    ensures And(o, s.gaps) == 0
    ensures Within(s.gaps, s.mask) ==> Or(o, s.gaps) == s.mask
    ensures Within(o, s.mask)
  {
    ComplementSplit(s.mask, s.gaps);
    AndWithin(s.mask, Not(s.gaps));
    And(s.mask, Not(s.gaps))
  }

  /** The shape moved by (r, c): both masks are translated and the offset grows. */
  function Moved(s: Shape, r: int, c: int): (t: Shape)
    ensures t.id == s.id && t.pattern == s.pattern
    ensures t.row == s.row + r && t.col == s.col + c
    ensures Within(s.gaps, s.mask) ==> Within(t.gaps, t.mask)
  {
    TranslateWithin(s.gaps, s.mask, r, c);
    s.(row := s.row + r, col := s.col + c,
       mask := Translated(s.mask, r, c), gaps := Translated(s.gaps, r, c))
  }

  method Translate(s: Shape, r: int, c: int) returns (t: Shape)
    ensures t == Moved(s, r, c)
  {
    var m := mask.Translate(s.mask, r, c);
    var g := mask.Translate(s.gaps, r, c);
    t := s.(row := s.row + r, col := s.col + c, mask := m, gaps := g);
  }

  /** A moved shape covers cell (i, j) exactly when its unmoved mask covers (i - r, j - c). */
  lemma MovedCells(s: Shape, r: int, c: int, i: int, j: int)
    requires InFrame(i, j)
    ensures Has(Moved(s, r, c).mask, i, j) <==> InFrame(i - r, j - c) && Has(s.mask, i - r, j - c)
    ensures Has(Moved(s, r, c).gaps, i, j) <==> InFrame(i - r, j - c) && Has(s.gaps, i - r, j - c)
  {
    TranslatedCells(s.mask, r, c, i, j);
    TranslatedCells(s.gaps, r, c, i, j);
  }

  // ---------------------------------------------------------------------
  // Rotation and reflection (shape.go:114-126, 143-154)
  // ---------------------------------------------------------------------

  /** The pattern turned a quarter clockwise: row r of the result is column r read bottom-up. */
  function RotatedGrid(g: Grid): (h: Grid)
    requires 1 <= |g| && Scannable(g)
    ensures |h| == |g[0]| && forall r | 0 <= r < |h| :: |h[r]| == |g|
  {
    seq(|g[0]|, r requires 0 <= r < |g[0]| =>
      seq(|g|, c requires 0 <= c < |g| => g[|g| - c - 1][r]))
  }

  /** The pattern with its rows in reverse order, cut to the width of the first row. */
  function FlippedGrid(g: Grid): (h: Grid)
    requires 1 <= |g| && Scannable(g)
    ensures |h| == |g| && forall r | 0 <= r < |h| :: |h[r]| == |g[0]|
  {
    seq(|g|, r requires 0 <= r < |g| =>
      seq(|g[0]|, c requires 0 <= c < |g[0]| => g[|g| - r - 1][c]))
  }

  lemma RotatedRectangular(g: Grid)
    requires Rectangular(g)
    ensures Rectangular(RotatedGrid(g))
  {
  }

  lemma FlippedRectangular(g: Grid)
    requires Rectangular(g)
    ensures Rectangular(FlippedGrid(g))
  {
  }

  lemma RotatedScannable(g: Grid)
    requires 1 <= |g| && Scannable(g)
    ensures Scannable(RotatedGrid(g))
  {
  }

  lemma FlippedScannable(g: Grid)
    requires 1 <= |g| && Scannable(g)
    ensures Scannable(FlippedGrid(g))
  {
  }

  function Rotated(s: Shape): (t: Shape)
    requires 1 <= |s.pattern| && Scannable(s.pattern)
    ensures t.id == s.id && t.row == 0 && t.col == 0 && t.pattern == RotatedGrid(s.pattern)
    ensures Rectangular(s.pattern) ==> Rectangular(t.pattern)
  {
    RotatedScannable(s.pattern);
    Initial(s.id, RotatedGrid(s.pattern))
  }

  function Flipped(s: Shape): (t: Shape)
    requires 1 <= |s.pattern| && Scannable(s.pattern)
    ensures t.id == s.id && t.row == 0 && t.col == 0 && t.pattern == FlippedGrid(s.pattern)
    ensures Rectangular(s.pattern) ==> Rectangular(t.pattern)
  {
    FlippedScannable(s.pattern);
    Initial(s.id, FlippedGrid(s.pattern))
  }

  /** Builds the rotated grid row by row into a fresh table, then makes a new shape of it. */
  method Rotate(s: Shape) returns (t: Shape)
    requires 1 <= |s.pattern| && Scannable(s.pattern)
    ensures t == Rotated(s)
  {
    var nrow := NumCols(s);
    var ncol := NumRows(s);
    var grid := new seq<int>[nrow];
    for r := 0 to nrow
      invariant forall k | 0 <= k < r :: grid[k] == RotatedGrid(s.pattern)[k]
    {
      var line := new int[ncol];
      for c := 0 to ncol
        modifies line
        invariant forall k | 0 <= k < c :: line[k] == s.pattern[ncol - k - 1][r]
      {
        line[c] := s.pattern[ncol - c - 1][r];
      }
      assert line[..] == RotatedGrid(s.pattern)[r];
      grid[r] := line[..];
    }
    assert grid[..] == RotatedGrid(s.pattern);
    RotatedScannable(s.pattern);
    t := NewShape(s.id, grid[..]);
  }

  /** Builds the flipped grid row by row into a fresh table, then makes a new shape of it. */
  method Flip(s: Shape) returns (t: Shape)
    requires 1 <= |s.pattern| && Scannable(s.pattern)
    ensures t == Flipped(s)
  {
    var nrow := NumRows(s);
    var ncol := NumCols(s);
    var grid := new seq<int>[nrow];
    for r := 0 to nrow
      invariant forall k | 0 <= k < r :: grid[k] == FlippedGrid(s.pattern)[k]
    {
      var line := new int[ncol];
      for c := 0 to ncol
        modifies line
        invariant forall k | 0 <= k < c :: line[k] == s.pattern[nrow - r - 1][k]
      {
        line[c] := s.pattern[nrow - r - 1][c];
      }
      assert line[..] == FlippedGrid(s.pattern)[r];
      grid[r] := line[..];
    }
    assert grid[..] == FlippedGrid(s.pattern);
    FlippedScannable(s.pattern);
    t := NewShape(s.id, grid[..]);
  }

  /** Rotation swaps the dimensions and takes cell (r, c) from cell (rows-1-c, r). */
  lemma RotateDimensions(s: Shape)
    requires Rectangular(s.pattern)
    ensures Rectangular(Rotated(s).pattern)
    ensures NumRows(Rotated(s)) == NumCols(s) && NumCols(Rotated(s)) == NumRows(s)
    ensures forall r, c | 0 <= r < NumCols(s) && 0 <= c < NumRows(s) ::
      Rotated(s).pattern[r][c] == s.pattern[NumRows(s) - 1 - c][r]
  {
  }

  /** Flipping keeps the dimensions and reverses the order of the rows. */
  lemma FlipDimensions(s: Shape)
    requires Rectangular(s.pattern)
    ensures Rectangular(Flipped(s).pattern)
    ensures NumRows(Flipped(s)) == NumRows(s) && NumCols(Flipped(s)) == NumCols(s)
    ensures forall r | 0 <= r < NumRows(s) :: Flipped(s).pattern[r] == s.pattern[NumRows(s) - 1 - r]
  {
  }

  /** Both masks of a rotated shape are recomputed from the rotated pattern. */
  lemma RotatedCells(s: Shape, i: int, j: int)
    requires Fits(s.pattern) && InFrame(i, j)
    ensures Has(Rotated(s).mask, i, j) <==>
      i < NumCols(s) && j < NumRows(s) && s.pattern[NumRows(s) - 1 - j][i] != 0
    ensures Has(Rotated(s).gaps, i, j) <==>
      i < NumCols(s) && j < NumRows(s) && s.pattern[NumRows(s) - 1 - j][i] == 2
  {
    RotateDimensions(s);
    InitialCells(s.id, RotatedGrid(s.pattern), i, j);
  }

  /** Two quarter turns take cell (r, c) from the point-reflected cell. */
  lemma RotateTwice(g: Grid)
    requires Rectangular(g)
    ensures Rectangular(RotatedGrid(g)) && Rectangular(RotatedGrid(RotatedGrid(g)))
    ensures |RotatedGrid(RotatedGrid(g))| == |g|
    ensures forall r, c | 0 <= r < |g| && 0 <= c < |g[0]| ::
      RotatedGrid(RotatedGrid(g))[r][c] == g[|g| - 1 - r][|g[0]| - 1 - c]
  {
  }

  /** Four quarter turns give back the pattern. */
  lemma RotateFourTimes(g: Grid)
    requires Rectangular(g)
    ensures RotatedGrid(RotatedGrid(RotatedGrid(RotatedGrid(g)))) == g
  {
    RotateTwice(g);
    var h := RotatedGrid(RotatedGrid(g));
    RotateTwice(h);
    var k := RotatedGrid(RotatedGrid(h));
    assert |k| == |g|;
    forall r | 0 <= r < |g|
      ensures k[r] == g[r]
    {
      assert |k[r]| == |g[r]|;
    }
  }

  /** Flipping twice gives back the pattern. */
  lemma FlipTwice(g: Grid)
    requires Rectangular(g)
    ensures FlippedGrid(FlippedGrid(g)) == g
  {
    var k := FlippedGrid(FlippedGrid(g));
    forall r | 0 <= r < |g|
      ensures k[r] == g[r]
    {
    }
  }

  // ---------------------------------------------------------------------
  // Equality of patterns (shape.go:128-141)
  // ---------------------------------------------------------------------

  /** Same dimensions and the same value in every cell of the first pattern's rectangle. */
  predicate SameCells(a: Grid, b: Grid)
    requires 1 <= |a| && Scannable(a) && Scannable(b)
  {
    |a| == |b| && |a[0]| == |b[0]| &&
    forall r, c | 0 <= r < |a| && 0 <= c < |a[0]| :: a[r][c] == b[r][c]
  }

  /** Compares the patterns cell by cell; the ids, masks and offsets play no part. */
  method Equals(s: Shape, b: Shape) returns (result: bool)
    requires 1 <= |s.pattern| && Scannable(s.pattern) && Scannable(b.pattern)
    ensures result == SameCells(s.pattern, b.pattern)
  {
    var nrow := NumRows(s);
    var ncol := NumCols(s);
    result := nrow == NumRows(b) && ncol == NumCols(b);
    if result {
      for r := 0 to nrow
        invariant result == forall i, j | 0 <= i < r && 0 <= j < ncol :: s.pattern[i][j] == b.pattern[i][j]
      {
        for c := 0 to ncol
          invariant result == ((forall i, j | 0 <= i < r && 0 <= j < ncol :: s.pattern[i][j] == b.pattern[i][j]) &&
                               forall j | 0 <= j < c :: s.pattern[r][j] == b.pattern[r][j])
        {
          result := result && s.pattern[r][c] == b.pattern[r][c];
        }
      }
    }
  }

  /** On rectangular patterns the cell-by-cell comparison is plain equality. */
  lemma SameCellsIsEquality(a: Grid, b: Grid)
    requires Rectangular(a) && Rectangular(b)
    ensures SameCells(a, b) <==> a == b
  {
    if SameCells(a, b) {
      assert |a| == |b|;
      forall r | 0 <= r < |a|
        ensures a[r] == b[r]
      {
        assert |a[r]| == |b[r]|;
      }
    }
  }

  /**
   * The comparisons the source's tests expect, on the cross and the bracket:
   * a bracket has the cells of its mirror image but not of its quarter turn.
   */
  lemma EqualsExamples()
    ensures var cross := [[0, 1, 0], [1, 1, 1], [0, 1, 0]];
            var bracket := [[1, 1], [1, 0], [1, 1]];
            SameCells(cross, cross) && !SameCells(cross, bracket) && SameCells(bracket, bracket) &&
            SameCells(bracket, FlippedGrid(bracket)) && !SameCells(bracket, RotatedGrid(bracket))
  {
    var bracket := [[1, 1], [1, 0], [1, 1]];
    var f := FlippedGrid(bracket);
    assert f[0] == bracket[2] && f[1] == bracket[1] && f[2] == bracket[0];
    assert f == bracket;
    assert |RotatedGrid(bracket)| == 2;
  }

  // ---------------------------------------------------------------------
  // Orientations (shape.go:156-178)
  // ---------------------------------------------------------------------

  /** Reports the first shape satisfying the predicate, or (false, 0) when there is none. */
  method SearchShapes(shapes: seq<Shape>, pred: Shape --> bool) returns (found: bool, index: nat)
    requires forall k | 0 <= k < |shapes| :: pred.requires(shapes[k])
    ensures found <==> exists k | 0 <= k < |shapes| :: pred(shapes[k])
    ensures found ==> index < |shapes| && pred(shapes[index]) &&
                      forall k | 0 <= k < index :: !pred(shapes[k])
    ensures !found ==> index == 0
  {
    for i := 0 to |shapes|
      invariant forall k | 0 <= k < i :: !pred(shapes[k])
    {
      if pred(shapes[i]) {
        return true, i;
      }
    }
    return false, 0;
  }

  /** The pattern after n quarter turns. */
  function Spun(g: Grid, n: nat): (h: Grid)
    requires Rectangular(g)
    ensures Rectangular(h)
  {
    if n == 0 then g else RotatedRectangular(Spun(g, n - 1)); RotatedGrid(Spun(g, n - 1))
  }

  /**
   * The shape after n quarter turns: the shape itself, or a new shape built
   * from the turned pattern.
   */
  function Turned(s: Shape, n: nat): (t: Shape)
    requires Rectangular(s.pattern)
    ensures Rectangular(t.pattern) && t.id == s.id && t.pattern == Spun(s.pattern, n)
  {
    if n == 0 then s else Initial(s.id, Spun(s.pattern, n))
  }

  /** One more quarter turn. */
  lemma TurnedNext(s: Shape, n: nat)
    requires Rectangular(s.pattern)
    ensures Rotated(Turned(s, n)) == Turned(s, n + 1)
  {
  }

  lemma SpunAddOne(g: Grid, n: nat)
    requires Rectangular(g)
    ensures Spun(g, n + 1) == RotatedGrid(Spun(g, n))
  {
  }

  lemma {:induction false} SpunAdd(g: Grid, a: nat, b: nat)
    requires Rectangular(g)
    ensures Spun(Spun(g, a), b) == Spun(g, a + b)
  {
    if b > 0 {
      var h := Spun(g, a);
      var x := Spun(h, b - 1);
      SpunAdd(g, a, b - 1);
      assert x == Spun(g, a + b - 1);
      assert Spun(h, b) == RotatedGrid(x);
      assert Spun(g, a + b) == RotatedGrid(Spun(g, a + b - 1));
    }
  }

  lemma SpunFour(g: Grid, n: nat)
    requires Rectangular(g)
    ensures Spun(g, n + 4) == Spun(g, n)
  {
    var h := Spun(g, n);
    SpunAdd(g, n, 4);
    SpunAddOne(h, 0);
    SpunAddOne(h, 1);
    SpunAddOne(h, 2);
    SpunAddOne(h, 3);
    RotateFourTimes(h);
  }

  lemma {:induction false} SpunMod(g: Grid, n: nat)
    requires Rectangular(g)
    ensures Spun(g, n) == Spun(g, n % 4)
  {
    if n >= 4 {
      SpunFour(g, n - 4);
      SpunMod(g, n - 4);
      assert (n - 4) % 4 == n % 4;
    }
  }

  /** The shape Permutations works on after the first four turns and the flip. */
  function Mirror(s: Shape): (t: Shape)
    requires Rectangular(s.pattern)
    ensures Rectangular(t.pattern) && t.id == s.id
  {
    Flipped(Turned(s, 4))
  }

  /** The mirror image is the flipped pattern, since four turns give back the pattern. */
  lemma MirrorPattern(s: Shape)
    requires Rectangular(s.pattern)
    ensures Mirror(s).pattern == FlippedGrid(s.pattern)
  {
    SpunFour(s.pattern, 0);
  }

  /** The k-th shape the loop of Permutations offers: four turns, then four turns of the mirror image. */
  function Candidate(s: Shape, k: nat): (t: Shape)
    requires Rectangular(s.pattern)
    ensures Rectangular(t.pattern) && t.id == s.id
  {
    if k < 4 then Turned(s, k) else Turned(Mirror(s), k - 4)
  }

  /** The eight shapes the loop of Permutations offers, in its order. */
  function Candidates(s: Shape): (cs: seq<Shape>)
    requires Rectangular(s.pattern)
    ensures |cs| == 8
    ensures forall k | 0 <= k < 8 :: cs[k] == Candidate(s, k)
  {
    seq(8, k requires 0 <= k < 8 => Candidate(s, k))
  }

  predicate AllRectangular(xs: seq<Shape>)
  {
    forall k | 0 <= k < |xs| :: Rectangular(xs[k].pattern)
  }

  /** Whether some shape of the list has the cells of x. */
  predicate Seen(d: seq<Shape>, x: Shape)
    requires AllRectangular(d) && Rectangular(x.pattern)
  {
    exists k | 0 <= k < |d| :: SameCells(d[k].pattern, x.pattern)
  }

  /** The list with x appended unless a shape with its cells is already there. */
  function Keep(d: seq<Shape>, x: Shape): (e: seq<Shape>)
    requires AllRectangular(d) && Rectangular(x.pattern)
    ensures AllRectangular(e)
  {
    if Seen(d, x) then d else d + [x]
  }

  /** Keeps each shape unless an earlier kept shape has the same cells. */
  function Dedup(xs: seq<Shape>): (d: seq<Shape>)
    requires AllRectangular(xs)
    ensures AllRectangular(d)
  {
    if |xs| == 0 then [] else Keep(Dedup(xs[..|xs| - 1]), xs[|xs| - 1])
  }

  /** The distinct orientations of a shape, the result of Permutations. */
  function Orientations(s: Shape): seq<Shape>
    requires Rectangular(s.pattern)
  {
    Dedup(Candidates(s))
  }

  /** Every shape of a list of rectangular shapes can be compared. */
  lemma AllComparable(xs: seq<Shape>)
    requires AllRectangular(xs)
    ensures forall k | 0 <= k < |xs| :: 1 <= |xs[k].pattern| && Scannable(xs[k].pattern)
  {
    forall k | 0 <= k < |xs|
      ensures Scannable(xs[k].pattern)
    {
      RectangularScannable(xs[k].pattern);
    }
  }

  /** The body of the Permutations loop: search the kept shapes for s, and append s when it is new. */
  method Offer(shapes: seq<Shape>, s: Shape) returns (kept: seq<Shape>)
    requires AllRectangular(shapes) && Rectangular(s.pattern)
    ensures kept == Keep(shapes, s)
  {
    AllComparable(shapes);
    RectangularScannable(s.pattern);
    var found, _ := SearchShapes(shapes, (b: Shape) requires 1 <= |b.pattern| && Scannable(b.pattern) => SameCells(b.pattern, s.pattern));
    kept := shapes;
    if !found {
      kept := shapes + [s];
    }
  }

  /** The shape the Permutations loop holds when its i-th pass begins. */
  function Before(s0: Shape, i: nat): (s: Shape)
    requires Rectangular(s0.pattern)
    ensures Rectangular(s.pattern)
  {
    if i <= 4 then Turned(s0, i) else Turned(Mirror(s0), i - 4)
  }

  /** One pass of the Permutations loop: flip on the fifth pass, offer the candidate, rotate. */
  lemma Advance(s0: Shape, i: nat, s: Shape)
    requires Rectangular(s0.pattern) && i < 8 && s == Before(s0, i)
    ensures var c := if i == 4 then Flipped(s) else s;
      c == Candidate(s0, i) && Rectangular(c.pattern) && Rotated(c) == Before(s0, i + 1)
  {
    if i < 4 {
      TurnedNext(s0, i);
    } else {
      TurnedNext(Mirror(s0), i - 4);
    }
  }

  /** Offering the i-th candidate to the orientations kept so far gives those of the first i + 1. */
  lemma DedupNext(s0: Shape, i: nat)
    requires Rectangular(s0.pattern) && i < 8
    ensures Dedup(Candidates(s0)[..i + 1]) == Keep(Dedup(Candidates(s0)[..i]), Candidate(s0, i))
  {
    var cs := Candidates(s0);
    assert cs[..i + 1][..i] == cs[..i];
  }

  method Permutations(s0: Shape) returns (shapes: seq<Shape>)
    requires Rectangular(s0.pattern)
    ensures shapes == Orientations(s0)
  {
    shapes := [];
    var s := s0;
    for i := 0 to 8
      invariant shapes == Dedup(Candidates(s0)[..i])
      invariant s == Before(s0, i)
    {
      Advance(s0, i, s);
      DedupNext(s0, i);
      if i == 4 {
        s := Flip(s);
      }
      shapes := Offer(shapes, s);
      s := Rotate(s);
    }
    var cs := Candidates(s0);
    assert cs[..|cs|] == cs;
  }

  // ---------------------------------------------------------------------
  // What Permutations returns
  // ---------------------------------------------------------------------

  lemma SameCellsReflexive(g: Grid)
    requires Rectangular(g)
    ensures SameCells(g, g)
  {
  }

  /** Whether a shape is seen depends only on its pattern. */
  lemma SeenPattern(d: seq<Shape>, x: Shape, y: Shape)
    requires AllRectangular(d) && Rectangular(x.pattern) && x.pattern == y.pattern
    ensures Seen(d, x) == Seen(d, y)
  {
  }

  lemma {:induction false} DedupLength(xs: seq<Shape>)
    requires AllRectangular(xs)
    ensures |Dedup(xs)| <= |xs|
    ensures |xs| >= 1 ==> 1 <= |Dedup(xs)| && Dedup(xs)[0] == xs[0]
  {
    if |xs| > 0 {
      var init := xs[..|xs| - 1];
      DedupLength(init);
      if |init| == 0 {
        assert !Seen(Dedup(init), xs[|xs| - 1]);
      } else {
        assert init[0] == xs[0];
      }
    }
  }

  lemma {:induction false} DedupFrom(xs: seq<Shape>)
    requires AllRectangular(xs)
    ensures forall k | 0 <= k < |Dedup(xs)| :: Dedup(xs)[k] in xs
  {
    if |xs| > 0 {
      var init := xs[..|xs| - 1];
      DedupFrom(init);
      forall k | 0 <= k < |Dedup(xs)|
        ensures Dedup(xs)[k] in xs
      {
        if k < |Dedup(init)| {
          assert Dedup(xs)[k] == Dedup(init)[k];
          assert Dedup(init)[k] in init;
        }
      }
    }
  }

  /** No kept shape has the cells of an earlier kept shape. */
  lemma {:induction false} DedupDistinct(xs: seq<Shape>)
    requires AllRectangular(xs)
    ensures forall i, j | 0 <= i < j < |Dedup(xs)| :: !SameCells(Dedup(xs)[i].pattern, Dedup(xs)[j].pattern)
  {
    if |xs| > 0 {
      var init := xs[..|xs| - 1];
      DedupDistinct(init);
    }
  }

  /** Every offered shape has the cells of some kept shape. */
  lemma {:induction false} DedupCovers(xs: seq<Shape>)
    requires AllRectangular(xs)
    ensures forall k | 0 <= k < |xs| :: Seen(Dedup(xs), xs[k])
  {
    if |xs| > 0 {
      var init := xs[..|xs| - 1];
      var x := xs[|xs| - 1];
      DedupCovers(init);
      var d := Dedup(init);
      forall k | 0 <= k < |xs|
        ensures Seen(Dedup(xs), xs[k])
      {
        if k < |init| {
          assert init[k] == xs[k];
          assert Seen(d, xs[k]);
          var w :| 0 <= w < |d| && SameCells(d[w].pattern, xs[k].pattern);
          assert Dedup(xs)[w] == d[w];
        } else if !Seen(d, x) {
          SameCellsReflexive(x.pattern);
          assert Dedup(xs)[|d|] == x;
        }
      }
    }
  }

  /** Distinct cells mean distinct patterns, in both orders. */
  lemma DistinctPatterns(d: seq<Shape>)
    requires AllRectangular(d)
    requires forall i, j | 0 <= i < j < |d| :: !SameCells(d[i].pattern, d[j].pattern)
    ensures forall i, j | 0 <= i < |d| && 0 <= j < |d| && i != j :: d[i].pattern != d[j].pattern
  {
    forall i, j | 0 <= i < |d| && 0 <= j < |d| && i != j
      ensures d[i].pattern != d[j].pattern
    {
      if i < j {
        SameCellsReflexive(d[i].pattern);
      } else {
        SameCellsReflexive(d[j].pattern);
      }
    }
  }

  /** Permutations returns between one and eight shapes, the input first, all with the input's id. */
  lemma OrientationsSize(s0: Shape)
    requires Rectangular(s0.pattern)
    ensures var o := Orientations(s0);
      1 <= |o| <= 8 && o[0] == s0 && SameCells(o[0].pattern, s0.pattern) &&
      forall k | 0 <= k < |o| :: o[k].id == s0.id
  {
    var cs := Candidates(s0);
    DedupLength(cs);
    DedupFrom(cs);
    SameCellsReflexive(s0.pattern);
    forall k | 0 <= k < |Dedup(cs)|
      ensures Dedup(cs)[k].id == s0.id
    {
      assert Dedup(cs)[k] in cs;
    }
  }

  /** No two shapes Permutations returns have the same cells, in either order. */
  lemma OrientationsDistinct(s0: Shape)
    requires Rectangular(s0.pattern)
    ensures var o := Orientations(s0);
      (forall i, j | 0 <= i < j < |o| :: !SameCells(o[i].pattern, o[j].pattern)) &&
      (forall i, j | 0 <= i < |o| && 0 <= j < |o| && i != j :: o[i].pattern != o[j].pattern)
  {
    var cs := Candidates(s0);
    DedupDistinct(cs);
    DistinctPatterns(Dedup(cs));
  }

  /** Each of the eight turns and flipped turns has the cells of a shape Permutations returns. */
  lemma OrientationsCover(s0: Shape)
    requires Rectangular(s0.pattern)
    ensures forall k | 0 <= k < 8 :: Seen(Orientations(s0), Candidate(s0, k))
  {
    DedupCovers(Candidates(s0));
  }

  // ---------------------------------------------------------------------
  // Closure of the orientations under rotate and flip
  // ---------------------------------------------------------------------

  /** Flipping after a quarter turn is three quarter turns after flipping. */
  lemma FlipRotate(g: Grid)
    requires Rectangular(g)
    ensures FlippedGrid(RotatedGrid(g)) == Spun(FlippedGrid(g), 3)
  {
    var f := FlippedGrid(g);
    RotateTwice(f);
    var a := FlippedGrid(RotatedGrid(g));
    var b := RotatedGrid(RotatedGrid(RotatedGrid(f)));
    assert |a| == |b|;
    forall r | 0 <= r < |a|
      ensures a[r] == b[r]
    {
      assert |a[r]| == |b[r]|;
    }
    SpunAddOne(f, 0);
    SpunAddOne(f, 1);
    SpunAddOne(f, 2);
  }

  lemma {:induction false} FlipSpun(g: Grid, k: nat)
    requires Rectangular(g)
    ensures FlippedGrid(Spun(g, k)) == Spun(FlippedGrid(g), 3 * k)
  {
    if k > 0 {
      var h := Spun(g, k - 1);
      var f := FlippedGrid(g);
      var m := 3 * (k - 1);
      FlipSpun(g, k - 1);
      assert Spun(g, k) == RotatedGrid(h);
      FlipRotate(h);
      SpunAdd(f, m, 3);
      assert m + 3 == 3 * k;
    }
  }

  /** The pattern of the k-th candidate. */
  lemma CandidatePattern(s0: Shape, k: nat)
    requires Rectangular(s0.pattern)
    ensures Candidate(s0, k).pattern ==
      if k < 4 then Spun(s0.pattern, k) else Spun(FlippedGrid(s0.pattern), k - 4)
  {
    MirrorPattern(s0);
  }

  /** A quarter turn of any of the eight candidates has the cells of a returned shape. */
  lemma RotateClosed(s0: Shape, k: nat)
    requires Rectangular(s0.pattern) && k < 8
    ensures Seen(Orientations(s0), Rotated(Candidate(s0, k)))
  {
    var g := s0.pattern;
    var base := if k < 4 then g else FlippedGrid(g);
    var m := if k < 4 then k else k - 4;
    var j := if k < 4 then (m + 1) % 4 else 4 + (m + 1) % 4;
    CandidatePattern(s0, k);
    CandidatePattern(s0, j);
    SpunAddOne(base, m);
    SpunMod(base, m + 1);
    assert Rotated(Candidate(s0, k)).pattern == Candidate(s0, j).pattern;
    OrientationsCover(s0);
    SeenPattern(Orientations(s0), Candidate(s0, j), Rotated(Candidate(s0, k)));
  }

  /** The mirror image of one of the first four candidates is one of the last four. */
  lemma FlipTurnPattern(s0: Shape, k: nat)
    requires Rectangular(s0.pattern) && k < 4
    ensures Flipped(Candidate(s0, k)).pattern == Candidate(s0, 4 + (3 * k) % 4).pattern
  {
    CandidatePattern(s0, k);
    CandidatePattern(s0, 4 + (3 * k) % 4);
    FlipSpun(s0.pattern, k);
    SpunMod(FlippedGrid(s0.pattern), 3 * k);
  }

  /** The mirror image of one of the last four candidates is one of the first four. */
  lemma FlipMirrorPattern(s0: Shape, k: nat)
    requires Rectangular(s0.pattern) && 4 <= k < 8
    ensures Flipped(Candidate(s0, k)).pattern == Candidate(s0, (3 * (k - 4)) % 4).pattern
  {
    var g := s0.pattern;
    var m := k - 4;
    var j := (3 * m) % 4;
    assert j < 4;
    MirrorPattern(s0);
    assert Candidate(s0, k).pattern == Spun(FlippedGrid(g), m);
    assert Candidate(s0, j).pattern == Spun(g, j);
    FlipMirrorGrid(g, m);
  }

  lemma FlipMirrorGrid(g: Grid, m: nat)
    requires Rectangular(g)
    ensures FlippedGrid(Spun(FlippedGrid(g), m)) == Spun(g, (3 * m) % 4)
  {
    FlippedRectangular(g);
    FlipSpun(FlippedGrid(g), m);
    FlipTwice(g);
    SpunMod(g, 3 * m);
  }

  /** The mirror image of any of the eight candidates has the cells of a returned shape. */
  lemma FlipClosed(s0: Shape, k: nat)
    requires Rectangular(s0.pattern) && k < 8
    ensures Seen(Orientations(s0), Flipped(Candidate(s0, k)))
  {
    var j := if k < 4 then 4 + (3 * k) % 4 else (3 * (k - 4)) % 4;
    if k < 4 {
      FlipTurnPattern(s0, k);
    } else {
      FlipMirrorPattern(s0, k);
    }
    OrientationsCover(s0);
    SeenPattern(Orientations(s0), Candidate(s0, j), Flipped(Candidate(s0, k)));
  }

  /**
   * The shapes Permutations returns are closed under the dihedral group:
   * rotating or flipping any of them gives the cells of one of them.
   */
  lemma OrientationsClosed(s0: Shape)
    requires Rectangular(s0.pattern)
    ensures var o := Orientations(s0);
      forall k | 0 <= k < |o| :: Seen(o, Rotated(o[k])) && Seen(o, Flipped(o[k]))
  {
    var cs := Candidates(s0);
    DedupFrom(cs);
    var o := Orientations(s0);
    forall k | 0 <= k < |o|
      ensures Seen(o, Rotated(o[k])) && Seen(o, Flipped(o[k]))
    {
      var j :| 0 <= j < 8 && cs[j] == o[k];
      RotateClosed(s0, j);
      FlipClosed(s0, j);
    }
  }

  // ---------------------------------------------------------------------
  // How many orientations a shape has
  // ---------------------------------------------------------------------

  /** A grid is the quarter turn of g when its cell (r, c) is g's cell (rows - 1 - c, r). */
  lemma RotatedIs(g: Grid, h: Grid)
    requires Rectangular(g) && |h| == |g[0]| && forall r | 0 <= r < |h| :: |h[r]| == |g|
    requires forall r, c | 0 <= r < |h| && 0 <= c < |g| :: h[r][c] == g[|g| - c - 1][r]
    ensures RotatedGrid(g) == h
  {
    forall r | 0 <= r < |h|
      ensures RotatedGrid(g)[r] == h[r]
    {
    }
  }

  /** A grid is the flip of g when its row r is g's row rows - 1 - r. */
  lemma FlippedIs(g: Grid, h: Grid)
    requires Rectangular(g) && |h| == |g|
    requires forall r | 0 <= r < |h| :: h[r] == g[|g| - r - 1]
    ensures FlippedGrid(g) == h
  {
    forall r | 0 <= r < |h|
      ensures FlippedGrid(g)[r] == h[r]
    {
    }
  }

  /** A pattern a quarter turn leaves unchanged stays unchanged under any number of turns. */
  lemma {:induction false} SpunFixed(g: Grid, k: nat)
    requires Rectangular(g) && RotatedGrid(g) == g
    ensures Spun(g, k) == g
  {
    if k > 0 {
      SpunFixed(g, k - 1);
    }
  }

  /** Each of the eight candidates of such a shape has its pattern. */
  lemma CandidatesFixed(s0: Shape, k: nat)
    requires Rectangular(s0.pattern) && RotatedGrid(s0.pattern) == s0.pattern && FlippedGrid(s0.pattern) == s0.pattern
    ensures Candidate(s0, k).pattern == s0.pattern
  {
    var g := s0.pattern;
    CandidatePattern(s0, k);
    var m := if k < 4 then k else k - 4;
    var base := if k < 4 then g else FlippedGrid(g);
    assert Candidate(s0, k).pattern == Spun(base, m);
    assert base == g;
    SpunFixed(g, m);
  }

  /** Every orientation of such a shape has its pattern. */
  lemma OrientationsFixed(s0: Shape)
    requires Rectangular(s0.pattern) && RotatedGrid(s0.pattern) == s0.pattern && FlippedGrid(s0.pattern) == s0.pattern
    ensures forall k | 0 <= k < |Orientations(s0)| :: Orientations(s0)[k].pattern == s0.pattern
  {
    var cs := Candidates(s0);
    DedupFrom(cs);
    forall k | 0 <= k < |Dedup(cs)|
      ensures Dedup(cs)[k].pattern == s0.pattern
    {
      var j :| 0 <= j < 8 && cs[j] == Dedup(cs)[k];
      CandidatesFixed(s0, j);
    }
  }

  /** A shape whose pattern the quarter turn and the flip both leave unchanged has a single orientation. */
  lemma SymmetricOne(s0: Shape)
    requires Rectangular(s0.pattern) && RotatedGrid(s0.pattern) == s0.pattern && FlippedGrid(s0.pattern) == s0.pattern
    ensures |Orientations(s0)| == 1
  {
    OrientationsFixed(s0);
    OrientationsSize(s0);
    OrientationsDistinct(s0);
    SingleOf(Orientations(s0), s0.pattern);
  }

  /** A non-empty list whose shapes all have pattern g, and pairwise different patterns, has one element. */
  lemma SingleOf(o: seq<Shape>, g: Grid)
    requires 1 <= |o| && forall k | 0 <= k < |o| :: o[k].pattern == g
    requires forall i, j | 0 <= i < |o| && 0 <= j < |o| && i != j :: o[i].pattern != o[j].pattern
    ensures |o| == 1
  {
    assert o[0].pattern == o[|o| - 1].pattern;
  }

  /** Dedup keeps every shape of a list in which no two have the same cells. */
  lemma {:induction false} DedupKeepsAll(xs: seq<Shape>)
    requires AllRectangular(xs)
    requires forall i, j | 0 <= i < j < |xs| :: !SameCells(xs[i].pattern, xs[j].pattern)
    ensures Dedup(xs) == xs
  {
    if |xs| > 0 {
      var init := xs[..|xs| - 1];
      var x := xs[|xs| - 1];
      DedupKeepsAll(init);
      forall k | 0 <= k < |init|
        ensures !SameCells(init[k].pattern, x.pattern)
      {
        assert init[k] == xs[k];
      }
      assert init + [x] == xs;
    }
  }

  /** A shape whose eight turns and flipped turns all differ has eight orientations, in the order offered. */
  lemma AsymmetricEight(s0: Shape)
    requires Rectangular(s0.pattern)
    requires forall i, j | 0 <= i < j < 8 :: !SameCells(Candidate(s0, i).pattern, Candidate(s0, j).pattern)
    ensures Orientations(s0) == Candidates(s0) && |Orientations(s0)| == 8
  {
    DedupKeepsAll(Candidates(s0));
  }

  /** The 2x2 square has one orientation. */
  lemma SquareOne(s: Shape)
    requires s.pattern == [[1, 1], [1, 1]]
    ensures |Orientations(s)| == 1
  {
    RotatedIs(s.pattern, s.pattern);
    FlippedIs(s.pattern, s.pattern);
    SymmetricOne(s);
  }

  /** The L of three cells down with a foot to the right, and its turns and flipped turns in the order Permutations offers them. */
  function LTurns(): seq<Grid>
  {
    [[[1, 0], [1, 0], [1, 1]], [[1, 1, 1], [1, 0, 0]], [[1, 1], [0, 1], [0, 1]], [[0, 0, 1], [1, 1, 1]],
     [[1, 1], [1, 0], [1, 0]], [[1, 1, 1], [0, 0, 1]], [[0, 1], [0, 1], [1, 1]], [[1, 0, 0], [1, 1, 1]]]
  }

  /** The number of rows and the three cells at the top left corner. */
  function Corner(g: Grid): (int, int, int, int)
    requires 2 <= |g| && 2 <= |g[0]| && 1 <= |g[1]|
  {
    (|g|, g[0][0], g[0][1], g[1][0])
  }

  /** Patterns with the same cells have the same corner. */
  lemma SameCellsCorner(a: Grid, b: Grid)
    requires Rectangular(a) && Rectangular(b) && 2 <= |a| && 2 <= |a[0]|
    ensures SameCells(a, b) ==> 2 <= |b| && 2 <= |b[0]| && Corner(a) == Corner(b)
  {
  }

  /** The eight turns and flipped turns of the L differ pairwise. */
  lemma LTurnsDistinct()
    ensures forall k | 0 <= k < 8 :: Rectangular(LTurns()[k])
    ensures forall i, j | 0 <= i < j < 8 :: !SameCells(LTurns()[i], LTurns()[j])
  {
    var p := LTurns();
    forall i, j | 0 <= i < j < 8
      ensures !SameCells(p[i], p[j])
    {
      SameCellsCorner(p[i], p[j]);
    }
  }

  /** Three quarter turns of a grid, each given by its rows. */
  lemma ThreeTurns(g: Grid, g1: Grid, g2: Grid, g3: Grid)
    requires Rectangular(g) && 1 <= |g| && 1 <= |g[0]|
    requires RotatedGrid(g) == g1 && RotatedGrid(g1) == g2 && RotatedGrid(g2) == g3
    ensures Spun(g, 0) == g && Spun(g, 1) == g1 && Spun(g, 2) == g2 && Spun(g, 3) == g3
  {
    SpunAddOne(g, 0);
    SpunAddOne(g, 1);
    SpunAddOne(g, 2);
  }

  /** The quarter turns of the L. */
  lemma LRotations(g: Grid)
    requires g == LTurns()[0]
    ensures Spun(g, 1) == LTurns()[1] && Spun(g, 2) == LTurns()[2] && Spun(g, 3) == LTurns()[3]
  {
    var p := LTurns();
    RotatedIs(p[0], p[1]);
    RotatedIs(p[1], p[2]);
    RotatedIs(p[2], p[3]);
    ThreeTurns(p[0], p[1], p[2], p[3]);
  }

  /** The flipped L and its quarter turns. */
  lemma LFlipRotations(g: Grid)
    requires g == LTurns()[0]
    ensures Rectangular(FlippedGrid(g)) && FlippedGrid(g) == LTurns()[4]
    ensures Spun(FlippedGrid(g), 0) == LTurns()[4] && Spun(FlippedGrid(g), 1) == LTurns()[5]
    ensures Spun(FlippedGrid(g), 2) == LTurns()[6] && Spun(FlippedGrid(g), 3) == LTurns()[7]
  {
    var p := LTurns();
    FlippedIs(p[0], p[4]);
    RotatedIs(p[4], p[5]);
    RotatedIs(p[5], p[6]);
    RotatedIs(p[6], p[7]);
    ThreeTurns(p[4], p[5], p[6], p[7]);
  }

  /** The k-th candidate of the L has the k-th pattern of LTurns. */
  lemma LCandidate(s: Shape, k: nat)
    requires s.pattern == LTurns()[0] && k < 8
    ensures Candidate(s, k).pattern == LTurns()[k]
  {
    LRotations(s.pattern);
    LFlipRotations(s.pattern);
    CandidatePattern(s, k);
  }

  /** The L has eight orientations: no turn or flipped turn of it has the cells of another. */
  lemma LShapeEight(s: Shape)
    requires s.pattern == [[1, 0], [1, 0], [1, 1]]
    ensures |Orientations(s)| == 8
  {
    LTurnsDistinct();
    forall i, j | 0 <= i < j < 8
      ensures !SameCells(Candidate(s, i).pattern, Candidate(s, j).pattern)
    {
      LCandidate(s, i);
      LCandidate(s, j);
    }
    AsymmetricEight(s);
  }
}
