/**
 * The board and the search (board/board.go): a board of at most 8x8 cells,
 * the mask of its occupied cells and the shapes placed on it; the gap
 * catalogue that rejects boards whose empty cells no shape can fill; and the
 * stages of the solver, each of which places one more shape on every board
 * the previous stage produced.  The source runs the stages as goroutines
 * joined by channels; here each stage is a sequence function and the solver
 * is their composition.
 */
module Board {
  import opened mask
  import Sh = Shape
  import opened Sweep

  datatype Board = Board(nrows: int, ncols: int, mask: Bits, placements: seq<Sh.Shape>)

  // ---------------------------------------------------------------------
  // Boards and placing shapes (board.go:60-121)
  // ---------------------------------------------------------------------

  /** The union of the masks of a list of placed shapes. */
  function Union(ps: seq<Sh.Shape>): Bits
  {
    if |ps| == 0 then 0 else Or(Union(ps[..|ps| - 1]), ps[|ps| - 1].mask)
  }

  /** The mask of a board is the union of the masks of its placements. */
  predicate Consistent(b: Board)
  {
    b.mask == Union(b.placements)
  }

  /** No two placed shapes share a cell. */
  predicate Disjoint(ps: seq<Sh.Shape>)
  {
    forall i, j | 0 <= i < j < |ps| :: And(ps[i].mask, ps[j].mask) == 0
  }

  /** An empty board: nothing placed and no cell occupied. */
  function NewBoard(nrows: int, ncols: int): (b: Board)
    ensures b.nrows == nrows && b.ncols == ncols && b.placements == []
    ensures Consistent(b) && Disjoint(b.placements)
    ensures forall i, j | InFrame(i, j) :: !Has(b.mask, i, j)
  {
    forall i, j | InFrame(i, j)
      ensures !Has(0, i, j)
    {
      BitZero(63 - (8 * i + j));
    }
    Board(nrows, ncols, 0, [])
  }

  function NumShapes(b: Board): nat
  {
    |b.placements|
  }

  function NumRows(b: Board): int
  {
    b.nrows
  }

  function NumCols(b: Board): int
  {
    b.ncols
  }

  function Mask(b: Board): Bits
  {
    b.mask
  }

  /**
   * The board with one more shape: its cells are added to the mask and it is
   * appended to the placements.  Place does not check for overlap; its callers do.
   */
  function Place(b: Board, p: Sh.Shape): (nb: Board)
    ensures nb.nrows == b.nrows && nb.ncols == b.ncols
    ensures nb.placements == b.placements + [p]
    ensures forall i, j | InFrame(i, j) :: Has(nb.mask, i, j) <==> Has(b.mask, i, j) || Has(p.mask, i, j)
    ensures Consistent(b) ==> Consistent(nb)
  {
    var placements := b.placements + [p];
    assert placements[..|placements| - 1] == b.placements;
    forall i, j | InFrame(i, j)
      ensures Has(Or(b.mask, p.mask), i, j) <==> Has(b.mask, i, j) || Has(p.mask, i, j)
    {
      HasOr(b.mask, p.mask, i, j);
    }
    Board(b.nrows, b.ncols, Or(b.mask, p.mask), placements)
  }

  /** A cell of the union belongs to one of the shapes, and each shape's cells are in the union. */
  lemma {:induction false} UnionCells(ps: seq<Sh.Shape>, i: int, j: int)
    requires InFrame(i, j)
    ensures Has(Union(ps), i, j) <==> exists k | 0 <= k < |ps| :: Has(ps[k].mask, i, j)
  {
    if |ps| == 0 {
      BitZero(63 - (8 * i + j));
    } else {
      var init := ps[..|ps| - 1];
      UnionCells(init, i, j);
      HasOr(Union(init), ps[|ps| - 1].mask, i, j);
      if Has(Union(ps), i, j) {
        if Has(Union(init), i, j) {
          var k :| 0 <= k < |init| && Has(init[k].mask, i, j);
          assert ps[k] == init[k];
        }
      } else {
        forall k | 0 <= k < |ps|
          ensures !Has(ps[k].mask, i, j)
        {
          if k < |init| {
            assert ps[k] == init[k];
          }
        }
      }
    }
  }

  /** A mask disjoint from the union is disjoint from every shape in it. */
  lemma DisjointFromUnion(ps: seq<Sh.Shape>, m: Bits, k: int)
    requires And(Union(ps), m) == 0 && 0 <= k < |ps|
    ensures And(ps[k].mask, m) == 0
  {
    forall i, j | InFrame(i, j)
      ensures !Has(And(ps[k].mask, m), i, j)
    {
      HasAnd(ps[k].mask, m, i, j);
      HasAnd(Union(ps), m, i, j);
      UnionCells(ps, i, j);
      BitZero(63 - (8 * i + j));
    }
    NoCellsZero(And(ps[k].mask, m));
  }

  /** Placing a shape that overlaps nothing on a consistent board keeps the placements disjoint. */
  lemma PlaceDisjoint(b: Board, p: Sh.Shape)
    requires Consistent(b) && Disjoint(b.placements) && And(b.mask, p.mask) == 0
    ensures Disjoint(Place(b, p).placements)
  {
    var ps := Place(b, p).placements;
    forall i, j | 0 <= i < j < |ps|
      ensures And(ps[i].mask, ps[j].mask) == 0
    {
      if j == |b.placements| {
        DisjointFromUnion(b.placements, p.mask, i);
      } else {
        assert ps[i] == b.placements[i] && ps[j] == b.placements[j];
      }
    }
  }

  // ---------------------------------------------------------------------
  // The region of the board (board.go:98-108)
  // ---------------------------------------------------------------------

  /** The first n cells of the top row. */
  function ColumnBits(n: int): Bits
  {
    if n <= 0 then 0 else Or(FirstBit(), Shr(ColumnBits(n - 1), 1))
  }

  /** n rows of the column mask cbits, stacked from the top. */
  function Rows(cbits: Bits, n: int): Bits
  {
    if n <= 0 then 0 else Or(Shr(Rows(cbits, n - 1), 8), cbits)
  }

  /** The cells of an nrows x ncols board. */
  function Region(nrows: int, ncols: int): Bits
  {
    Rows(ColumnBits(ncols), nrows)
  }

  method RegionMask(b: Board) returns (mbits: Bits)
    ensures mbits == Region(b.nrows, b.ncols)
  {
    var cbits: Bits := 0;
    var c := 0;
    while c < b.ncols
      invariant 0 <= c && (c <= b.ncols || c == 0)
      invariant cbits == ColumnBits(c)
    {
      cbits := Or(FirstBit(), Shr(cbits, 1));
      ColumnStep(c, cbits);
      c := c + 1;
    }
    ColumnsDone(c, b.ncols);
    mbits := 0;
    var r := 0;
    while r < b.nrows
      invariant 0 <= r && (r <= b.nrows || r == 0)
      invariant mbits == Rows(cbits, r)
    {
      mbits := Or(Shr(mbits, 8), cbits);
      StackStep(cbits, r, mbits);
      r := r + 1;
    }
    RowsDone(cbits, r, b.nrows);
  }

  lemma ColumnStep(c: nat, next: Bits)
    requires next == Or(FirstBit(), Shr(ColumnBits(c), 1))
    ensures next == ColumnBits(c + 1)
  {
  }

  lemma ColumnsDone(c: int, n: int)
    requires 0 <= c && (c <= n || c == 0) && !(c < n)
    ensures ColumnBits(c) == ColumnBits(n)
  {
  }

  lemma StackStep(cbits: Bits, r: nat, next: Bits)
    requires next == Or(Shr(Rows(cbits, r), 8), cbits)
    ensures next == Rows(cbits, r + 1)
  {
  }

  lemma RowsDone(cbits: Bits, r: int, n: int)
    requires 0 <= r && (r <= n || r == 0) && !(r < n)
    ensures Rows(cbits, r) == Rows(cbits, n)
  {
  }

  /** One step of the column loop adds the top left cell and moves the others one place on. */
  lemma ColumnStepAt(x: Bits, p: int)
    requires 0 <= p < 64
    ensures HasAt(Or(FirstBit(), Shr(x, 1)), p) <==> p == 0 || (p >= 1 && HasAt(x, p - 1))
  {
    OrBits(FirstBit(), Shr(x, 1), 63 - p);
    HasAtShr(x, 1, p);
    FirstBitAt(p);
  }

  /** The column mask covers exactly the first n positions of the frame. */
  lemma {:induction false} ColumnBitsAt(n: int, p: int)
    requires n <= 64 && 0 <= p < 64
    ensures HasAt(ColumnBits(n), p) <==> p < n
  {
    if n <= 0 {
      BitZero(63 - p);
    } else {
      ColumnStepAt(ColumnBits(n - 1), p);
      if p >= 1 {
        ColumnBitsAt(n - 1, p - 1);
      }
    }
  }

  /** Stacking n copies of a row mask of the first w cells covers the first n rows up to column w. */
  lemma {:induction false} RowsCells(cbits: Bits, w: int, n: int, i: int, j: int)
    requires w <= 8 && InFrame(i, j)
    requires forall p | 0 <= p < 64 :: HasAt(cbits, p) <==> p < w
    ensures Has(Rows(cbits, n), i, j) <==> i < n && j < w
  {
    if n <= 0 {
      BitZero(63 - (8 * i + j));
    } else {
      var below := Rows(cbits, n - 1);
      HasOr(Shr(below, 8), cbits, i, j);
      HasAtShr(below, 8, 8 * i + j);
      if i >= 1 {
        RowsCells(cbits, w, n - 1, i - 1, j);
      }
    }
  }

  /** The region of a board at most eight columns wide holds exactly its cells. */
  lemma RegionCells(nrows: int, ncols: int, i: int, j: int)
    requires ncols <= 8 && InFrame(i, j)
    ensures Has(Region(nrows, ncols), i, j) <==> i < nrows && j < ncols
  {
    forall p | 0 <= p < 64
      ensures HasAt(ColumnBits(ncols), p) <==> p < ncols
    {
      ColumnBitsAt(ncols, p);
    }
    RowsCells(ColumnBits(ncols), ncols, nrows, i, j);
  }

  /** The masks of a 4x4 and of an 8x8 board. */
  lemma RegionExamples(n: int)
    requires n == 4 || n == 8
    ensures n == 4 ==> Region(n, n) == 0xf0f0_f0f0_0000_0000
    ensures n == 8 ==> Region(n, n) == 0xffff_ffff_ffff_ffff
  {
    ExampleTopLeft();
    forall i, j | InFrame(i, j)
      ensures Has(Region(n, n), i, j) == Has(if n == 4 then 0xf0f0_f0f0_0000_0000 else 0xffff_ffff_ffff_ffff, i, j)
    {
      RegionCells(n, n, i, j);
      if n == 4 {
        RowBlockCells(0xf0, 4, 4, i, j);
        ExampleBytes(7 - j);
      } else {
        AllOnesCells(i, j);
      }
    }
    CellsDetermine(Region(n, n), if n == 4 then 0xf0f0_f0f0_0000_0000 else 0xffff_ffff_ffff_ffff);
  }

  // ---------------------------------------------------------------------
  // Rejecting boards (board.go:266-289)
  // ---------------------------------------------------------------------

  /**
   * A gap shape rejects a board when every cell of its outline is occupied
   * and at least one of its gap cells is empty: that empty cell is enclosed.
   */
  predicate RejectGap(b: Board, s: Sh.Shape)
  {
    var outline := Sh.OutlineMask(s);
    if And(outline, b.mask) != outline then false
    else if And(s.gaps, b.mask) == s.gaps then false
    else true
  }

  /** RejectGap in terms of cells. */
  lemma RejectGapCells(b: Board, s: Sh.Shape)
    ensures RejectGap(b, s) <==>
      (forall i, j | InFrame(i, j) && Has(Sh.OutlineMask(s), i, j) :: Has(b.mask, i, j)) &&
      (exists i, j | InFrame(i, j) && Has(s.gaps, i, j) :: !Has(b.mask, i, j))
  {
    WithinCells(Sh.OutlineMask(s), b.mask);
    WithinCells(s.gaps, b.mask);
  }

  /** A shape without gap cells rejects nothing. */
  lemma NoGapsNoReject(b: Board, s: Sh.Shape)
    requires s.gaps == 0
    ensures !RejectGap(b, s)
  {
    assert Within(s.gaps, b.mask) by {
      WithinCells(s.gaps, b.mask);
      forall i, j | InFrame(i, j)
        ensures !Has(s.gaps, i, j)
      {
        BitZero(63 - (8 * i + j));
      }
    }
  }

  /** Some gap shape of the list rejects the board. */
  predicate RejectBoard(b: Board, patterns: seq<Sh.Shape>)
  {
    exists k | 0 <= k < |patterns| :: RejectGap(b, patterns[k])
  }

  /** The first gap shape that rejects the board, or -1 when none does. */
  method SearchGap(b: Board, patterns: seq<Sh.Shape>) returns (slot: int)
    ensures -1 <= slot < |patterns|
    ensures 0 <= slot ==> RejectGap(b, patterns[slot])
    ensures forall k | 0 <= k < |patterns| && (slot < 0 || k < slot) :: !RejectGap(b, patterns[k])
    ensures 0 <= slot <==> RejectBoard(b, patterns)
  {
    for k := 0 to |patterns|
      invariant forall l | 0 <= l < k :: !RejectGap(b, patterns[l])
    {
      var outline := Sh.OutlineMask(patterns[k]);
      if And(outline, b.mask) == outline && And(patterns[k].gaps, b.mask) != patterns[k].gaps {
        return k;
      }
    }
    return -1;
  }

  /** Go's `n / 2`, which truncates toward zero. */
  function Half(n: int): int
  {
    if n >= 0 then n / 2 else -((-n) / 2)
  }

  function Min(a: int, b: int): int
  {
    if a <= b then a else b
  }

  // ---------------------------------------------------------------------
  // The gap catalogue (board.go:294-325)
  // ---------------------------------------------------------------------

  /**
   * The seven gap templates: 1 marks a wall cell, 2 a gap cell.  A single
   * cell, two and four cells in a row and two 2x2 blocks (listed twice),
   * three cells in a row, and a bent four-cell gap.
   */
  function Templates(): seq<Sh.Grid>
  {
    [[[0, 1, 0], [1, 2, 1], [0, 1, 0]],
     [[0, 1, 1, 0], [1, 2, 2, 1], [0, 1, 1, 0]],
     [[0, 1, 1, 0], [1, 2, 2, 1], [1, 2, 2, 1], [0, 1, 1, 0]],
     [[0, 1, 1, 1, 0], [1, 2, 2, 2, 1], [0, 1, 1, 1, 0]],
     [[0, 1, 1, 1, 1, 0], [1, 2, 2, 2, 2, 1], [0, 1, 1, 1, 1, 0]],
     [[0, 1, 1, 0], [1, 2, 2, 1], [1, 2, 2, 1], [0, 1, 1, 0]],
     [[0, 1, 1, 0], [1, 2, 2, 1], [0, 1, 2, 1], [0, 0, 1, 0]]]
  }

  lemma TemplatesFit()
    ensures |Templates()| == 7
    ensures forall k | 0 <= k < 7 :: Sh.Fits(Templates()[k])
    ensures AllGridsRectangular(Templates())
  {
  }

  /** Every grid of the list is rectangular. */
  predicate AllGridsRectangular(grids: seq<Sh.Grid>)
  {
    forall k | 0 <= k < |grids| :: Sh.Rectangular(grids[k])
  }

  /** The grid with index k as a new shape, numbered from 100. */
  function Template(grids: seq<Sh.Grid>, k: int): (s: Sh.Shape)
    requires 0 <= k < |grids| && Sh.Rectangular(grids[k])
    ensures s.id == k + 100 && s.pattern == grids[k] && Sh.Rectangular(s.pattern)
  {
    Sh.RectangularScannable(grids[k]);
    Sh.Initial(k + 100, grids[k])
  }

  /** The width of a pattern, 0 for an empty one. */
  function Cols(s: Sh.Shape): nat
  {
    Width(s.pattern)
  }

  /** The catalogue entry for orientation o at offset x: moved there and clipped to the region. */
  function ClipAt(region: Bits): Sh.Shape -> Offset -> seq<Sh.Shape>
  {
    (o: Sh.Shape) => (x: Offset) => [Sh.Clip(Sh.Moved(o, x.0, x.1), region)]
  }

  /** The offsets GapShapes moves an orientation to: from one row and column before the board to one beyond its far edges. */
  function GapWindow(nrows: int, ncols: int): Sh.Shape -> Window
  {
    (o: Sh.Shape) => Window(-1, nrows - Sh.NumRows(o) + 2, -1, ncols - Cols(o) + 2)
  }

  /** The entries GapShapes adds for the grid with index k: every orientation at every offset of its window. */
  function TemplateEntries(grids: seq<Sh.Grid>, k: int, nrows: int, ncols: int, region: Bits): seq<Sh.Shape>
    requires 0 <= k < |grids| && Sh.Rectangular(grids[k])
  {
    Collect(Sh.Orientations(Template(grids, k)), SweepOf(GapWindow(nrows, ncols), ClipAt(region)))
  }

  /** TemplateEntries as a function of the index, empty outside the list. */
  function EntriesOf(grids: seq<Sh.Grid>, nrows: int, ncols: int, region: Bits): int -> seq<Sh.Shape>
  {
    (k: int) => if 0 <= k < |grids| && Sh.Rectangular(grids[k]) then TemplateEntries(grids, k, nrows, ncols, region) else []
  }

  lemma EntriesAt(grids: seq<Sh.Grid>, k: int, nrows: int, ncols: int, region: Bits)
    requires 0 <= k < |grids| && Sh.Rectangular(grids[k])
    ensures EntriesOf(grids, nrows, ncols, region)(k) == TemplateEntries(grids, k, nrows, ncols, region)
  {
  }

  /** The catalogue entries of the first n grids, in the order GapShapes appends them. */
  function CatalogUpTo(grids: seq<Sh.Grid>, n: int, nrows: int, ncols: int, region: Bits): seq<Sh.Shape>
  {
    Concat(EntriesOf(grids, nrows, ncols, region), n)
  }

  /** The gap shapes of an nrows x ncols board. */
  function Catalog(nrows: int, ncols: int): seq<Sh.Shape>
  {
    CatalogUpTo(Templates(), |Templates()|, nrows, ncols, Region(nrows, ncols))
  }

  /** The loops of GapShapes over a list of grids. */
  method CatalogLoop(grids: seq<Sh.Grid>, nrows: int, ncols: int, region: Bits) returns (shapes: seq<Sh.Shape>)
    requires AllGridsRectangular(grids)
    ensures shapes == CatalogUpTo(grids, |grids|, nrows, ncols, region)
  {
    shapes := [];
    for id := 0 to |grids|
      invariant shapes == CatalogUpTo(grids, id, nrows, ncols, region)
    {
      Sh.RectangularScannable(grids[id]);
      var s := Sh.NewShape(id + 100, grids[id]);
      var perms := Sh.Permutations(s);
      shapes := SweepAll(shapes, perms, GapWindow(nrows, ncols), ClipAt(region));
      EntriesAt(grids, id, nrows, ncols, region);
    }
  }

  lemma GapWindowAt(nrows: int, ncols: int, o: Sh.Shape)
    ensures GapWindow(nrows, ncols)(o) == Window(-1, nrows - Sh.NumRows(o) + 2, -1, ncols - Cols(o) + 2)
  {
  }

  lemma ClipAtMember(region: Bits, o: Sh.Shape, r: int, c: int, g: Sh.Shape)
    ensures g in ClipAt(region)(o)((r, c)) <==> g == Sh.Clip(Sh.Moved(o, r, c), region)
  {
  }

  /** Every entry added for grid k is an orientation of it, moved and clipped. */
  lemma TemplateWitness(grids: seq<Sh.Grid>, k: int, nrows: int, ncols: int, region: Bits, g: Sh.Shape)
    returns (o: Sh.Shape, r: int, c: int)
    requires 0 <= k < |grids| && Sh.Rectangular(grids[k])
    requires g in TemplateEntries(grids, k, nrows, ncols, region)
    ensures o in Sh.Orientations(Template(grids, k))
    ensures -1 <= r <= nrows - Sh.NumRows(o) + 1 && -1 <= c <= ncols - Cols(o) + 1
    ensures g == Sh.Clip(Sh.Moved(o, r, c), region)
  {
    o, r, c := SweepWitness(Sh.Orientations(Template(grids, k)), GapWindow(nrows, ncols), ClipAt(region), g);
    GapWindowAt(nrows, ncols, o);
    ClipAtMember(region, o, r, c, g);
  }

  /**
   * Every catalogue entry is an orientation of one of the templates, moved
   * to an offset from one before the board to one beyond its far edges, and
   * clipped to the region.
   */
  lemma CatalogWitness(grids: seq<Sh.Grid>, n: int, nrows: int, ncols: int, region: Bits, g: Sh.Shape)
    returns (k: int, o: Sh.Shape, r: int, c: int)
    requires n <= |grids| && AllGridsRectangular(grids)
    requires g in CatalogUpTo(grids, n, nrows, ncols, region)
    ensures 0 <= k < n && o in Sh.Orientations(Template(grids, k))
    ensures -1 <= r <= nrows - Sh.NumRows(o) + 1 && -1 <= c <= ncols - Cols(o) + 1
    ensures g == Sh.Clip(Sh.Moved(o, r, c), region)
  {
    k := ConcatWitness(EntriesOf(grids, nrows, ncols, region), n, g);
    EntriesAt(grids, k, nrows, ncols, region);
    o, r, c := TemplateWitness(grids, k, nrows, ncols, region, g);
  }

  /** Conversely, every orientation of grid k, moved to any offset of its window and clipped, is added for it. */
  lemma TemplateHit(grids: seq<Sh.Grid>, k: int, nrows: int, ncols: int, region: Bits, o: Sh.Shape, r: int, c: int)
    requires 0 <= k < |grids| && Sh.Rectangular(grids[k])
    requires o in Sh.Orientations(Template(grids, k))
    requires -1 <= r <= nrows - Sh.NumRows(o) + 1 && -1 <= c <= ncols - Cols(o) + 1
    ensures Sh.Clip(Sh.Moved(o, r, c), region) in TemplateEntries(grids, k, nrows, ncols, region)
  {
    var g := Sh.Clip(Sh.Moved(o, r, c), region);
    GapWindowAt(nrows, ncols, o);
    ClipAtMember(region, o, r, c, g);
    SweepHit(Sh.Orientations(Template(grids, k)), GapWindow(nrows, ncols), ClipAt(region), o, r, c, g);
  }

  /** Every orientation of one of the first n grids, at every offset of its window, is in the catalogue, clipped. */
  lemma CatalogHit(grids: seq<Sh.Grid>, n: int, nrows: int, ncols: int, region: Bits, k: int, o: Sh.Shape, r: int, c: int)
    requires n <= |grids| && AllGridsRectangular(grids) && 0 <= k < n
    requires o in Sh.Orientations(Template(grids, k))
    requires -1 <= r <= nrows - Sh.NumRows(o) + 1 && -1 <= c <= ncols - Cols(o) + 1
    ensures Sh.Clip(Sh.Moved(o, r, c), region) in CatalogUpTo(grids, n, nrows, ncols, region)
  {
    TemplateHit(grids, k, nrows, ncols, region, o, r, c);
    EntriesAt(grids, k, nrows, ncols, region);
    ConcatHit(EntriesOf(grids, nrows, ncols, region), n, k, Sh.Clip(Sh.Moved(o, r, c), region));
  }

  /** Every gap shape of a board lies inside the board's region, outline and gaps alike. */
  lemma CatalogInRegion(nrows: int, ncols: int, g: Sh.Shape)
    requires g in Catalog(nrows, ncols)
    ensures Within(g.mask, Region(nrows, ncols)) && Within(g.gaps, Region(nrows, ncols))
  {
    TemplatesFit();
    var k, o, r, c := CatalogWitness(Templates(), |Templates()|, nrows, ncols, Region(nrows, ncols), g);
  }

  /** Every orientation of each of the seven templates, at every offset from -1 to one beyond the far edges, clipped, is a gap shape. */
  lemma CatalogCovers(nrows: int, ncols: int, k: int, o: Sh.Shape, r: int, c: int)
    requires 0 <= k < 7 && Sh.Rectangular(Templates()[k])
    requires o in Sh.Orientations(Template(Templates(), k))
    requires -1 <= r <= nrows - Sh.NumRows(o) + 1 && -1 <= c <= ncols - Cols(o) + 1
    ensures Sh.Clip(Sh.Moved(o, r, c), Region(nrows, ncols)) in Catalog(nrows, ncols)
  {
    TemplatesFit();
    CatalogHit(Templates(), |Templates()|, nrows, ncols, Region(nrows, ncols), k, o, r, c);
  }

  method GapShapes(b: Board) returns (shapes: seq<Sh.Shape>)
    ensures shapes == Catalog(b.nrows, b.ncols)
  {
    TemplatesFit();
    var region := RegionMask(b);
    shapes := CatalogLoop(Templates(), b.nrows, b.ncols, region);
  }

  // ---------------------------------------------------------------------
  // First placements (board.go:155-183)
  // ---------------------------------------------------------------------

  /** The board, unless the catalogue rejects it. */
  function Unrejected(nb: Board, rejects: seq<Sh.Shape>): seq<Board>
  {
    if RejectBoard(nb, rejects) then [] else [nb]
  }

  /** The first shape goes in the top left quadrant: rows and columns up to half the board, and inside it. */
  function FirstWindow(b: Board): Sh.Shape -> Window
  {
    (o: Sh.Shape) => Window(0, Min(Half(b.nrows), b.nrows - Sh.NumRows(o)) + 1, 0, Min(Half(b.ncols), b.ncols - Cols(o)) + 1)
  }

  /** The board with orientation o placed at offset x, unless rejected. */
  function FirstAt(b: Board, rejects: seq<Sh.Shape>): Sh.Shape -> Offset -> seq<Board>
  {
    (o: Sh.Shape) => (x: Offset) => Unrejected(Place(b, Sh.Moved(o, x.0, x.1)), rejects)
  }

  /** The boards FirstPlacements sends, in order, for the gap shapes rejects. */
  function FirstStage(s: Sh.Shape, b: Board, rejects: seq<Sh.Shape>): seq<Board>
    requires Sh.Rectangular(s.pattern)
  {
    Collect(Sh.Orientations(s), SweepOf(FirstWindow(b), FirstAt(b, rejects)))
  }

  /** The channel of the source is the returned list. */
  method FirstPlacements(s: Sh.Shape, b: Board) returns (boards: seq<Board>)
    requires Sh.Rectangular(s.pattern)
    ensures boards == FirstStage(s, b, Catalog(b.nrows, b.ncols))
  {
    var rejects := GapShapes(b);
    var perms := Sh.Permutations(s);
    boards := SweepAll([], perms, FirstWindow(b), FirstAt(b, rejects));
    assert boards == Collect(perms, SweepOf(FirstWindow(b), FirstAt(b, rejects)));
  }

  // ---------------------------------------------------------------------
  // Next placements (board.go:189-230)
  // ---------------------------------------------------------------------

  /** Every offset at which an orientation lies inside the board. */
  function NextWindow(base: Board): Sh.Shape -> Window
  {
    (o: Sh.Shape) => Window(0, base.nrows - Sh.NumRows(o) + 1, 0, base.ncols - Cols(o) + 1)
  }

  /** Orientation o moved to x, unless the catalogue rejects it alone on the base board. */
  function PrepareAt(base: Board, rejects: seq<Sh.Shape>): Sh.Shape -> Offset -> seq<Sh.Shape>
  {
    (o: Sh.Shape) => (x: Offset) =>
      var place := Sh.Moved(o, x.0, x.1);
      if RejectBoard(Place(base, place), rejects) then [] else [place]
  }

  /** The placements NextPlacements prepares for shape s. */
  function Prepared(s: Sh.Shape, base: Board, rejects: seq<Sh.Shape>): seq<Sh.Shape>
    requires Sh.Rectangular(s.pattern)
  {
    Collect(Sh.Orientations(s), SweepOf(NextWindow(base), PrepareAt(base, rejects)))
  }

  /** Board bd with the placement added, when it overlaps nothing and is not rejected. */
  function ExtendAt(rejects: seq<Sh.Shape>): Board -> Sh.Shape -> seq<Board>
  {
    (bd: Board) => (place: Sh.Shape) =>
      if And(bd.mask, place.mask) == 0 then Unrejected(Place(bd, place), rejects) else []
  }

  /** The boards NextPlacements sends for the boards it receives, in order. */
  function NextStage(s: Sh.Shape, base: Board, boards: seq<Board>, rejects: seq<Sh.Shape>): seq<Board>
    requires Sh.Rectangular(s.pattern)
  {
    Collect(boards, Pairs(Prepared(s, base, rejects), ExtendAt(rejects)))
  }

  /** The first half of NextPlacements: every orientation at every offset inside the board that is not rejected on its own. */
  method Prepare(s: Sh.Shape, base: Board, rejects: seq<Sh.Shape>) returns (placements: seq<Sh.Shape>)
    requires Sh.Rectangular(s.pattern)
    ensures placements == Prepared(s, base, rejects)
  {
    var perms := Sh.Permutations(s);
    placements := SweepAll([], perms, NextWindow(base), PrepareAt(base, rejects));
  }

  method NextPlacements(s: Sh.Shape, base: Board, boards: seq<Board>) returns (moves: seq<Board>)
    requires Sh.Rectangular(s.pattern)
    ensures moves == NextStage(s, base, boards, Catalog(base.nrows, base.ncols))
  {
    var rejects := GapShapes(base);
    var placements := Prepare(s, base, rejects);
    moves := EachPair([], boards, placements, ExtendAt(rejects));
    assert moves == Collect(boards, Pairs(placements, ExtendAt(rejects)));
  }

  // ---------------------------------------------------------------------
  // The solver (board.go:239-261)
  // ---------------------------------------------------------------------

  /** The boards of stage n: the first n shapes placed. */
  function Stages(shapes: seq<Sh.Shape>, b: Board, rejects: seq<Sh.Shape>, n: int): seq<Board>
    requires 1 <= n <= |shapes| && Sh.AllRectangular(shapes)
  {
    if n == 1 then FirstStage(shapes[0], b, rejects) else NextStage(shapes[n - 1], b, Stages(shapes, b, rejects, n - 1), rejects)
  }

  /** The stages run one after another; the list of the last is what the solver returns. */
  method Solve(b: Board, shapes: seq<Sh.Shape>) returns (boards: seq<Board>)
    requires 1 <= |shapes| && Sh.AllRectangular(shapes)
    ensures boards == Stages(shapes, b, Catalog(b.nrows, b.ncols), |shapes|)
  {
    boards := FirstPlacements(shapes[0], b);
    for i := 1 to |shapes|
      invariant boards == Stages(shapes, b, Catalog(b.nrows, b.ncols), i)
    {
      boards := NextPlacements(shapes[i], b, boards);
    }
  }

  // ---------------------------------------------------------------------
  // What each stage produces
  // ---------------------------------------------------------------------

  lemma FirstWindowAt(b: Board, o: Sh.Shape)
    ensures FirstWindow(b)(o) == Window(0, Min(Half(b.nrows), b.nrows - Sh.NumRows(o)) + 1, 0, Min(Half(b.ncols), b.ncols - Cols(o)) + 1)
  {
  }

  lemma NextWindowAt(base: Board, o: Sh.Shape)
    ensures NextWindow(base)(o) == Window(0, base.nrows - Sh.NumRows(o) + 1, 0, base.ncols - Cols(o) + 1)
  {
  }

  lemma UnrejectedMember(nb: Board, x: Board, rejects: seq<Sh.Shape>)
    ensures nb in Unrejected(x, rejects) <==> nb == x && !RejectBoard(x, rejects)
  {
  }

  /** The first stage's step at one offset. */
  lemma FirstAtMember(b: Board, rejects: seq<Sh.Shape>, o: Sh.Shape, r: int, c: int, nb: Board)
    ensures nb in FirstAt(b, rejects)(o)((r, c)) <==> nb == Place(b, Sh.Moved(o, r, c)) && !RejectBoard(nb, rejects)
  {
    assert FirstAt(b, rejects)(o)((r, c)) == Unrejected(Place(b, Sh.Moved(o, r, c)), rejects);
    UnrejectedMember(nb, Place(b, Sh.Moved(o, r, c)), rejects);
  }

  /** The preparation step at one offset. */
  lemma PrepareAtMember(base: Board, rejects: seq<Sh.Shape>, o: Sh.Shape, r: int, c: int, p: Sh.Shape)
    ensures p in PrepareAt(base, rejects)(o)((r, c)) <==> p == Sh.Moved(o, r, c) && !RejectBoard(Place(base, p), rejects)
  {
    var place := Sh.Moved(o, r, c);
    assert PrepareAt(base, rejects)(o)((r, c)) == if RejectBoard(Place(base, place), rejects) then [] else [place];
  }

  /** The extension step for one board and one placement. */
  lemma ExtendAtMember(rejects: seq<Sh.Shape>, bd: Board, p: Sh.Shape, nb: Board)
    ensures nb in ExtendAt(rejects)(bd)(p) <==> And(bd.mask, p.mask) == 0 && nb == Place(bd, p) && !RejectBoard(nb, rejects)
  {
    assert ExtendAt(rejects)(bd)(p) == if And(bd.mask, p.mask) == 0 then Unrejected(Place(bd, p), rejects) else [];
    UnrejectedMember(nb, Place(bd, p), rejects);
  }

  /**
   * Every board of the first stage places one orientation of s in the top
   * left quadrant, inside the board, and the catalogue does not reject it.
   */
  lemma FirstStageWitness(s: Sh.Shape, b: Board, rejects: seq<Sh.Shape>, nb: Board) returns (o: Sh.Shape, r: int, c: int)
    requires Sh.Rectangular(s.pattern)
    requires nb in FirstStage(s, b, rejects)
    ensures o in Sh.Orientations(s)
    ensures 0 <= r <= Min(Half(b.nrows), b.nrows - Sh.NumRows(o)) && 0 <= c <= Min(Half(b.ncols), b.ncols - Cols(o))
    ensures nb == Place(b, Sh.Moved(o, r, c)) && !RejectBoard(nb, rejects)
  {
    o, r, c := SweepWitness(Sh.Orientations(s), FirstWindow(b), FirstAt(b, rejects), nb);
    FirstWindowAt(b, o);
    FirstAtMember(b, rejects, o, r, c, nb);
  }

  /** Conversely, every such placement that the catalogue does not reject is in the first stage. */
  lemma FirstStageHit(s: Sh.Shape, b: Board, rejects: seq<Sh.Shape>, o: Sh.Shape, r: int, c: int)
    requires Sh.Rectangular(s.pattern)
    requires o in Sh.Orientations(s)
    requires 0 <= r <= Min(Half(b.nrows), b.nrows - Sh.NumRows(o)) && 0 <= c <= Min(Half(b.ncols), b.ncols - Cols(o))
    requires !RejectBoard(Place(b, Sh.Moved(o, r, c)), rejects)
    ensures Place(b, Sh.Moved(o, r, c)) in FirstStage(s, b, rejects)
  {
    var nb := Place(b, Sh.Moved(o, r, c));
    FirstWindowAt(b, o);
    FirstAtMember(b, rejects, o, r, c, nb);
    SweepHit(Sh.Orientations(s), FirstWindow(b), FirstAt(b, rejects), o, r, c, nb);
  }

  /**
   * Every placement NextPlacements prepares is an orientation of s moved to
   * an offset inside the board that the catalogue does not reject alone on
   * the base board.
   */
  lemma PreparedWitness(s: Sh.Shape, base: Board, rejects: seq<Sh.Shape>, p: Sh.Shape) returns (o: Sh.Shape, r: int, c: int)
    requires Sh.Rectangular(s.pattern)
    requires p in Prepared(s, base, rejects)
    ensures o in Sh.Orientations(s)
    ensures 0 <= r <= base.nrows - Sh.NumRows(o) && 0 <= c <= base.ncols - Cols(o)
    ensures p == Sh.Moved(o, r, c) && !RejectBoard(Place(base, p), rejects)
  {
    o, r, c := SweepWitness(Sh.Orientations(s), NextWindow(base), PrepareAt(base, rejects), p);
    NextWindowAt(base, o);
    PrepareAtMember(base, rejects, o, r, c, p);
  }

  /** Conversely, every such placement is prepared. */
  lemma PreparedHit(s: Sh.Shape, base: Board, rejects: seq<Sh.Shape>, o: Sh.Shape, r: int, c: int)
    requires Sh.Rectangular(s.pattern)
    requires o in Sh.Orientations(s)
    requires 0 <= r <= base.nrows - Sh.NumRows(o) && 0 <= c <= base.ncols - Cols(o)
    requires !RejectBoard(Place(base, Sh.Moved(o, r, c)), rejects)
    ensures Sh.Moved(o, r, c) in Prepared(s, base, rejects)
  {
    var p := Sh.Moved(o, r, c);
    NextWindowAt(base, o);
    PrepareAtMember(base, rejects, o, r, c, p);
    SweepHit(Sh.Orientations(s), NextWindow(base), PrepareAt(base, rejects), o, r, c, p);
  }

  /**
   * Every board of a later stage adds a prepared placement of s to an
   * incoming board it does not overlap, and the catalogue does not reject
   * the result.
   */
  lemma NextStageWitness(s: Sh.Shape, base: Board, boards: seq<Board>, rejects: seq<Sh.Shape>, nb: Board) returns (bd: Board, p: Sh.Shape)
    requires Sh.Rectangular(s.pattern)
    requires nb in NextStage(s, base, boards, rejects)
    ensures bd in boards && p in Prepared(s, base, rejects)
    ensures And(bd.mask, p.mask) == 0 && nb == Place(bd, p) && !RejectBoard(nb, rejects)
  {
    bd, p := PairsWitness(boards, Prepared(s, base, rejects), ExtendAt(rejects), nb);
    ExtendAtMember(rejects, bd, p, nb);
  }

  /** Conversely, every such extension is in the stage. */
  lemma NextStageHit(s: Sh.Shape, base: Board, boards: seq<Board>, rejects: seq<Sh.Shape>, bd: Board, p: Sh.Shape)
    requires Sh.Rectangular(s.pattern)
    requires bd in boards && p in Prepared(s, base, rejects)
    requires And(bd.mask, p.mask) == 0 && !RejectBoard(Place(bd, p), rejects)
    ensures Place(bd, p) in NextStage(s, base, boards, rejects)
  {
    var nb := Place(bd, p);
    ExtendAtMember(rejects, bd, p, nb);
    PairsHit(boards, Prepared(s, base, rejects), ExtendAt(rejects), bd, p, nb);
  }

  // ---------------------------------------------------------------------
  // What the solver returns
  // ---------------------------------------------------------------------

  /** p is an orientation of s moved to an offset where it lies inside an nrows x ncols board. */
  predicate Fitted(p: Sh.Shape, s: Sh.Shape, nrows: int, ncols: int)
    requires Sh.Rectangular(s.pattern)
  {
    exists o, r, c | o in Sh.Orientations(s) && 0 <= r <= nrows - Sh.NumRows(o) && 0 <= c <= ncols - Cols(o) ::
      p == Sh.Moved(o, r, c)
  }

  /**
   * nb solves the first n shapes on b: it keeps b's dimensions, holds n
   * placements whose union is its mask, no two of which overlap, the k-th of
   * which is the k-th shape fitted inside the board, and the gap catalogue
   * does not reject it.
   */
  predicate Solves(nb: Board, b: Board, shapes: seq<Sh.Shape>, rejects: seq<Sh.Shape>, n: int)
    requires 0 <= n <= |shapes| && Sh.AllRectangular(shapes)
  {
    nb.nrows == b.nrows && nb.ncols == b.ncols && |nb.placements| == n &&
    Consistent(nb) && Disjoint(nb.placements) && !RejectBoard(nb, rejects) &&
    forall k | 0 <= k < n :: Fitted(nb.placements[k], shapes[k], b.nrows, b.ncols)
  }

  /** An empty board: no placements and no occupied cell. */
  predicate Empty(b: Board)
  {
    b.mask == 0 && b.placements == []
  }

  lemma MinLeft(a: int, b: int)
    ensures Min(a, b) <= b
  {
  }

  /** Placing the first shape, fitted, on an empty board solves the first shape. */
  lemma FirstSound(shapes: seq<Sh.Shape>, b: Board, rejects: seq<Sh.Shape>, p: Sh.Shape, nb: Board)
    requires 1 <= |shapes| && Sh.AllRectangular(shapes) && Empty(b)
    requires Fitted(p, shapes[0], b.nrows, b.ncols)
    requires nb == Place(b, p) && !RejectBoard(nb, rejects)
    ensures Solves(nb, b, shapes, rejects, 1)
  {
    assert Consistent(b);
    assert nb.placements == [p];
  }

  /** Every board of the first stage, on an empty board, solves the first shape. */
  lemma FirstStageSound(shapes: seq<Sh.Shape>, b: Board, rejects: seq<Sh.Shape>, nb: Board)
    requires 1 <= |shapes| && Sh.AllRectangular(shapes) && Empty(b)
    requires nb in FirstStage(shapes[0], b, rejects)
    ensures Solves(nb, b, shapes, rejects, 1)
  {
    var o, r, c := FirstStageWitness(shapes[0], b, rejects, nb);
    MinLeft(Half(b.nrows), b.nrows - Sh.NumRows(o));
    MinLeft(Half(b.ncols), b.ncols - Cols(o));
    var p := Sh.Moved(o, r, c);
    assert Fitted(p, shapes[0], b.nrows, b.ncols);
    FirstSound(shapes, b, rejects, p, nb);
  }

  /** Adding the n-th shape, fitted and clear of a board that solves the first n - 1 shapes, solves the first n. */
  lemma ExtendSound(shapes: seq<Sh.Shape>, b: Board, rejects: seq<Sh.Shape>, n: int, bd: Board, p: Sh.Shape, nb: Board)
    requires 2 <= n <= |shapes| && Sh.AllRectangular(shapes)
    requires Solves(bd, b, shapes, rejects, n - 1)
    requires Fitted(p, shapes[n - 1], b.nrows, b.ncols)
    requires And(bd.mask, p.mask) == 0 && nb == Place(bd, p) && !RejectBoard(nb, rejects)
    ensures Solves(nb, b, shapes, rejects, n)
  {
    PlaceDisjoint(bd, p);
    forall k | 0 <= k < n
      ensures Fitted(nb.placements[k], shapes[k], b.nrows, b.ncols)
    {
      if k < n - 1 {
        assert nb.placements[k] == bd.placements[k];
      }
    }
  }

  /** The stage after n - 1 is NextStage of the boards of stage n - 1. */
  lemma StagesStep(shapes: seq<Sh.Shape>, b: Board, rejects: seq<Sh.Shape>, n: int)
    requires 2 <= n <= |shapes| && Sh.AllRectangular(shapes)
    ensures Stages(shapes, b, rejects, n) == NextStage(shapes[n - 1], b, Stages(shapes, b, rejects, n - 1), rejects)
  {
  }

  /** Every board of stage n > 1 is a board of stage n - 1 with one more placement. */
  lemma StageParent(shapes: seq<Sh.Shape>, b: Board, rejects: seq<Sh.Shape>, n: int, nb: Board) returns (bd: Board, p: Sh.Shape)
    requires 2 <= n <= |shapes| && Sh.AllRectangular(shapes)
    requires nb in Stages(shapes, b, rejects, n)
    ensures bd in Stages(shapes, b, rejects, n - 1) && nb == Place(bd, p)
  {
    StagesStep(shapes, b, rejects, n);
    bd, p := NextStageWitness(shapes[n - 1], b, Stages(shapes, b, rejects, n - 1), rejects, nb);
  }

  /** Every board of stage n > 1 extends a board of stage n - 1, and solves n shapes when that board solves n - 1. */
  lemma StageOrigin(shapes: seq<Sh.Shape>, b: Board, rejects: seq<Sh.Shape>, n: int, nb: Board) returns (bd: Board)
    requires 2 <= n <= |shapes| && Sh.AllRectangular(shapes)
    requires nb in Stages(shapes, b, rejects, n)
    ensures bd in Stages(shapes, b, rejects, n - 1)
    ensures Solves(bd, b, shapes, rejects, n - 1) ==> Solves(nb, b, shapes, rejects, n)
  {
    StagesStep(shapes, b, rejects, n);
    var p;
    bd, p := NextStageWitness(shapes[n - 1], b, Stages(shapes, b, rejects, n - 1), rejects, nb);
    var o, r, c := PreparedWitness(shapes[n - 1], b, rejects, p);
    assert Fitted(p, shapes[n - 1], b.nrows, b.ncols);
    if Solves(bd, b, shapes, rejects, n - 1) {
      ExtendSound(shapes, b, rejects, n, bd, p, nb);
    }
  }

  /** Every board of stage n, on an empty board, solves the first n shapes. */
  lemma {:induction false} StagesSound(shapes: seq<Sh.Shape>, b: Board, rejects: seq<Sh.Shape>, n: int, nb: Board)
    requires 1 <= n <= |shapes| && Sh.AllRectangular(shapes) && Empty(b)
    requires nb in Stages(shapes, b, rejects, n)
    ensures Solves(nb, b, shapes, rejects, n)
    decreases n, 1
  {
    if n == 1 {
      FirstStageSound(shapes, b, rejects, nb);
    } else {
      LaterSound(shapes, b, rejects, n, nb);
    }
  }

  /** The inductive step of StagesSound, for stages after the first. */
  lemma {:induction false} LaterSound(shapes: seq<Sh.Shape>, b: Board, rejects: seq<Sh.Shape>, n: int, nb: Board)
    requires 2 <= n <= |shapes| && Sh.AllRectangular(shapes) && Empty(b)
    requires nb in Stages(shapes, b, rejects, n)
    ensures Solves(nb, b, shapes, rejects, n)
    decreases n, 0
  {
    var bd := StageOrigin(shapes, b, rejects, n, nb);
    StagesSound(shapes, b, rejects, n - 1, bd);
  }

  /**
   * nb is b with n more placements after b's own, on a board of the same
   * size, and its mask is still the union of its placements when b's is.
   */
  predicate Extends(nb: Board, b: Board, n: int)
  {
    nb.nrows == b.nrows && nb.ncols == b.ncols &&
    |nb.placements| == |b.placements| + n && b.placements <= nb.placements &&
    (Consistent(b) ==> Consistent(nb))
  }

  /** Placing one more shape on an extension of b adds one to the count. */
  lemma PlaceExtends(b: Board, bd: Board, p: Sh.Shape, n: int)
    requires Extends(bd, b, n - 1)
    ensures Extends(Place(bd, p), b, n)
  {
  }

  /** Every board of the first stage is the start board with one more placement. */
  lemma FirstExtends(s: Sh.Shape, b: Board, rejects: seq<Sh.Shape>, nb: Board)
    requires Sh.Rectangular(s.pattern)
    requires nb in FirstStage(s, b, rejects)
    ensures Extends(nb, b, 1)
  {
    var o, r, c := FirstStageWitness(s, b, rejects, nb);
  }

  /**
   * On any start board, empty or not, every board of stage n keeps the start
   * board's placements in front, has n more after them, and its mask stays
   * the union of its placements when the start board's is.
   */
  lemma {:induction false} StagesKeep(shapes: seq<Sh.Shape>, b: Board, rejects: seq<Sh.Shape>, n: int, nb: Board)
    requires 1 <= n <= |shapes| && Sh.AllRectangular(shapes)
    requires nb in Stages(shapes, b, rejects, n)
    ensures Extends(nb, b, n)
    decreases n, 1
  {
    if n == 1 {
      FirstExtends(shapes[0], b, rejects, nb);
    } else {
      LaterKeep(shapes, b, rejects, n, nb);
    }
  }

  /** The inductive step of StagesKeep, for stages after the first. */
  lemma {:induction false} LaterKeep(shapes: seq<Sh.Shape>, b: Board, rejects: seq<Sh.Shape>, n: int, nb: Board)
    requires 2 <= n <= |shapes| && Sh.AllRectangular(shapes)
    requires nb in Stages(shapes, b, rejects, n)
    ensures Extends(nb, b, n)
    decreases n, 0
  {
    var bd, p := StageParent(shapes, b, rejects, n, nb);
    StagesKeep(shapes, b, rejects, n - 1, bd);
    PlaceExtends(b, bd, p, n);
  }

  /**
   * Conversely, stage n keeps every board of stage n - 1 extended by an
   * orientation of the n-th shape anywhere inside the board, provided the
   * placement overlaps nothing and the catalogue rejects neither the
   * placement alone on the base board nor the extended board.
   */
  lemma StageComplete(shapes: seq<Sh.Shape>, b: Board, rejects: seq<Sh.Shape>, n: int, bd: Board, o: Sh.Shape, r: int, c: int)
    requires 2 <= n <= |shapes| && Sh.AllRectangular(shapes)
    requires bd in Stages(shapes, b, rejects, n - 1)
    requires o in Sh.Orientations(shapes[n - 1])
    requires 0 <= r <= b.nrows - Sh.NumRows(o) && 0 <= c <= b.ncols - Cols(o)
    requires !RejectBoard(Place(b, Sh.Moved(o, r, c)), rejects)
    requires And(bd.mask, Sh.Moved(o, r, c).mask) == 0 && !RejectBoard(Place(bd, Sh.Moved(o, r, c)), rejects)
    ensures Place(bd, Sh.Moved(o, r, c)) in Stages(shapes, b, rejects, n)
  {
    PreparedHit(shapes[n - 1], b, rejects, o, r, c);
    StagesStep(shapes, b, rejects, n);
    NextStageHit(shapes[n - 1], b, Stages(shapes, b, rejects, n - 1), rejects, bd, Sh.Moved(o, r, c));
  }
}
