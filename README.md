# shapepuzzle, the bit-grid search engine

shapepuzzle solves polyomino packing puzzles. It places a list of shapes on a
board of at most 8x8 cells so that no two shapes overlap. This project models
the engine's three layers, made sequential:

- `mask.dfy` (module `mask`, named after its Go package, from `mask/mask.go`) is the 64-bit grid `Bits`.
  It has one byte per row, and cell (r, c) is the bit `8r + c` counted from the
  most significant end. It also has `ComputeMask`, which turns a 0/1/2 pattern
  into an occupancy mask and a gap mask, and `Translate`, which moves a mask by
  rows and columns and truncates whatever crosses an edge.
- `shape.dfy` (module `Shape`, from `shape/shape.go`) is a shape: an id, a
  pattern grid, its two masks and the offset they have been moved by. It has
  clipping, the outline mask, translation, the quarter turn and the flip,
  cell-by-cell equality and `Permutations`, the distinct orientations of a shape.
- `board.dfy` (module `Board`, from `board/board.go`) is the board: placing
  shapes, the region mask, the dead-gap test, the gap catalogue, and the stages
  of the solver.
- `sweep.dfy` (module `Sweep`) holds the nested "append while sweeping" loops
  of `board/board.go`. They are written once with the step as a function
  argument, and proved equal to the folds that specify them.

Go's `uint64` is the subtype `Bits` of the integers below 2^64. Its operators
are written out: bitwise `|` and `&`, `^`, `<<` as multiplication modulo 2^64,
`>>` as repeated halving, and `+` modulo 2^64. A shift by 64 or more therefore
gives 0, as in Go. A Go `Shape` or `Board` is a value that its methods copy, so
each is a datatype. The loops of the source are methods, each proved equal to a
function, and the lemmas are stated over those functions.

The source runs the solver as a chain of goroutines joined by channels. Here
each stage is a function from the boards of the previous stage to a sequence of
boards. Each goroutine is a single sequential loop, so the sequence is in the
channel's order: orientation, then row, then column, and for later stages the
incoming board, then the prepared placement. `Solve` is the left fold of the
stages over the shapes.

The accessors `NumShapes`, `NumRows`, `NumCols`, `ID`, `Mask` and `GapMask`
are plain field reads and carry no contract.

## Model

| member | source | states |
|---|---|---|
| mask.ShiftOut | mask/mask.go:63-83 | A shift of a uint64 by 64 or more places, left or right, gives 0. |
| mask.FirstBitCells | mask/mask.go:19-21 | FirstBit has exactly one cell set, the top left cell (0, 0). |
| mask.ComputeMask | mask/mask.go:36-53 | The nested scan returns the occupancy mask and the gap mask of the grid, row by row and column by column. |
| mask.MaskCells | mask/mask.go:36-53 | For a grid of at most 8x8, cell (i, j) is in the occupancy mask iff it is inside the grid and nonzero there, and in the gap mask iff it is inside the grid and equal to 2. No cell outside the grid is set. |
| mask.GapsWithinOccupancy | mask/mask.go:43-48 | Every gap cell is an occupied cell. |
| mask.Translate | mask/mask.go:60-86 | The shifts and the 8-pass loop that builds the column mask compute Translated(mask, row, col). |
| mask.TranslatedCells | mask/mask.go:60-86 | Cell (i, j) of the translated mask is set iff (i - row, j - col) is on the grid and set in the original. Nothing wraps into another row or column. |
| mask.TranslateZero | mask/mask_test.go:37-40 | Translating by (0, 0) gives back the mask. |
| mask.TranslateOffFrame | mask/mask_test.go:57-60 | Translating by 8 or more rows or columns, in either direction, gives 0. |
| mask.TranslateWithin | mask/mask.go:60-86 | Translation keeps the inclusion of one mask in another. |
| mask.FirstBitTranslate | board/board.go:135 | For a cell (r, c) of the grid, FirstBit translated by (r, c) is the single bit of that cell. |
| mask.TranslateExampleUpLeft | mask/mask_test.go:42-45 | All ones translated by (-2, -1) is 0xfefefefefefe0000. |
| mask.TranslateExampleDownRight | mask/mask_test.go:47-55 | 0xf0f0f0f000000000 translated by (4, 4) is 0x0f0f0f0f, and translated by (4, 5) is 0x07070707. |
| Shape.ComputeMask | shape/shape.go:81-85 | The shape gets the two masks of its pattern, and the returned value is its new occupancy mask. |
| Shape.Initial | shape/shape.go:25-29 | A new shape has the given id and pattern at offset (0, 0). |
| Shape.NewShape | shape/shape.go:25-29 | NewShape builds Initial(id, grid): the masks come from ComputeMask. |
| Shape.InitialGapsWithin | shape/shape.go:25-29 | The gap mask of a new shape lies inside its mask. |
| Shape.InitialCells | shape/shape.go:25-29 | The masks of a new shape mark exactly its nonzero and its gap cells. |
| Shape.MakeShapes | shape/shape.go:44-51 | There is one new shape per grid, in order, numbered from 1. |
| Shape.Clip | shape/shape.go:88-92 | Each new mask holds exactly the cells of the old mask that lie inside the region: it is inside both, and it keeps every cell of their AND. Id, pattern and offset are unchanged. Gaps stay inside the mask. |
| Shape.ClipCells | shape/shape.go:88-92 | A clipped mask covers cell (i, j) iff the old mask and the region both cover it, for the mask and for the gaps. |
| Shape.OutlineMask | shape/shape.go:102-104 | The outline is disjoint from the gaps and inside the mask. When the gaps lie inside the mask, outline and gaps together make up the mask. |
| Shape.Moved | shape/shape.go:106-112 | Id and pattern are unchanged, the offset grows by (r, c), and gaps stay inside the mask. |
| Shape.Translate | shape/shape.go:106-112 | Translate moves both masks by mask.Translate and adds (r, c) to the offset. |
| Shape.MovedCells | shape/shape.go:106-112 | The moved masks cover (i, j) iff the unmoved masks cover (i - r, j - c). |
| Shape.Rotate | shape/shape.go:114-126 | The nested loops fill the turned grid, and the result is a new shape with the same id built from it. |
| Shape.RotateDimensions | shape/shape.go:114-126 | A quarter turn swaps the dimensions and takes cell (r, c) from cell (rows - 1 - c, r). |
| Shape.RotatedCells | shape/shape.go:114-126 | The masks of a turned shape are recomputed from the turned pattern. |
| Shape.RotateFourTimes | shape/shape.go:114-126 | Four quarter turns give back the pattern. |
| Shape.Flip | shape/shape.go:143-154 | The nested loops fill the flipped grid, and the result is a new shape with the same id built from it. |
| Shape.FlipDimensions | shape/shape.go:143-154 | A flip keeps the dimensions and reverses the order of the rows. |
| Shape.FlipTwice | shape/shape.go:143-154 | Flipping twice gives back the pattern. |
| Shape.Equals | shape/shape.go:128-141 | The result is true iff both dimensions match and every cell matches. Ids, masks and offsets play no part. |
| Shape.SameCellsIsEquality | shape/shape.go:128-141 | On rectangular patterns, the cell-by-cell comparison is equality of the patterns. |
| Shape.EqualsExamples | shape/shape_test.go:442-447 | The cross equals itself and not the bracket. The bracket equals itself and its flip, but not its quarter turn. |
| Shape.SearchShapes | shape/shape.go:156-163 | Found iff some shape satisfies the predicate. The index is then the first such shape, and (false, 0) otherwise. |
| Shape.Offer | shape/shape.go:171-174 | Offering a shape appends it unless a kept shape has the same cells. |
| Shape.Permutations | shape/shape.go:165-178 | The loop returns Orientations(s): the eight turns and flipped turns, with those equal to an earlier one dropped. |
| Shape.OrientationsSize | shape/shape.go:165-178 | Between one and eight shapes are returned. The first is the input, and all keep the input's id. |
| Shape.OrientationsDistinct | shape/shape.go:165-178 | No two returned shapes have the same cells. |
| Shape.OrientationsCover | shape/shape.go:165-178 | Each of the eight turns and flipped turns has the cells of a returned shape. |
| Shape.OrientationsClosed | shape/shape.go:165-178 | Turning or flipping a returned shape gives the cells of a returned shape: the result is closed under the symmetries of the square. |
| Shape.SquareOne | shape/shape.go:165-178 | The 2x2 square has exactly one orientation: every turn and flip of it has the same cells. |
| Shape.LShapeEight | shape/shape.go:165-178 | The L of three cells with a foot has exactly eight orientations: no two of its turns and flipped turns have the same cells. |
| Board.NewBoard | board/board.go:68-72 | A new board has the given size, no placements and no occupied cell. Its mask is the union of its placements. |
| Board.Place | board/board.go:113-121 | The placements get p appended, the dimensions stay, and the cells are the old ones plus those of p. A board whose mask is the union of its placements keeps that property. |
| Board.PlaceDisjoint | board/board.go:113-121 | Placing a shape whose mask ANDs to 0 with the board's keeps the placements pairwise disjoint. |
| Board.UnionCells | board/board.go:119 | A cell is in the union of the placement masks iff one of the placements covers it. |
| Board.RegionMask | board/board.go:98-108 | The two loops compute Region(rows, cols). |
| Board.RegionCells | board/board.go:98-108 | For a board at most 8 columns wide, cell (i, j) of the region is set iff i < rows and j < cols. |
| Board.RegionExamples | board/board_test.go:12-20 | The region of a 4x4 board is 0xf0f0f0f000000000, and that of an 8x8 board is all ones. |
| Board.RejectGapCells | board/board.go:266-276 | A gap shape rejects a board iff every outline cell is occupied and some gap cell is empty. |
| Board.NoGapsNoReject | board/board.go:266-276 | A gap shape without gap cells rejects no board. |
| Board.SearchGap | board/board.go:278-289 | SearchGap returns the least index of a rejecting gap shape, or -1. It is nonnegative iff RejectBoard holds. |
| Board.CatalogLoop | board/board.go:310-323 | The four nested loops append, in order, every orientation of every grid at every offset of its window, moved and clipped to the region. |
| Board.GapShapes | board/board.go:294-325 | GapShapes returns the catalogue of the seven templates for the board's size: an entry is there iff it is an orientation of a template moved within its window and clipped (Board.CatalogWitness one way, Board.CatalogCovers the other). |
| Board.TemplateWitness | board/board.go:313-321 | Every entry added for a template is one of its orientations, moved by r in [-1, rows - h + 1] and c in [-1, cols - w + 1], and clipped to the region. |
| Board.CatalogWitness | board/board.go:310-323 | Every catalogue entry comes from some template in the same way. |
| Board.TemplateHit | board/board.go:313-321 | Conversely, every orientation of a template, moved by any r in [-1, rows - h + 1] and c in [-1, cols - w + 1] and clipped, is an entry for it. |
| Board.CatalogHit | board/board.go:310-323 | Every orientation of every template at every offset of its window, clipped, is in the catalogue. |
| Board.CatalogCovers | board/board.go:294-325 | Every orientation of each of the seven templates of GapShapes, at every offset from -1 to one beyond the far edges, clipped to the region, is a gap shape of the board. |
| Board.CatalogInRegion | board/board.go:308-321 | Every catalogue entry has its mask and its gaps inside the board's region. |
| Board.FirstPlacements | board/board.go:155-183 | The boards sent are the first stage, with the catalogue for the board's size. |
| Board.FirstStageWitness | board/board.go:160-177 | Every first-stage board is the input plus one orientation of the shape at (r, c), with 0 <= r <= min(rows/2, rows - h) and 0 <= c <= min(cols/2, cols - w). The catalogue does not reject it. |
| Board.FirstStageHit | board/board.go:160-177 | Every such placement that the catalogue does not reject is in the first stage. |
| Board.Prepare | board/board.go:193-215 | The preparation loops give the prepared placements. |
| Board.PreparedWitness | board/board.go:196-214 | Every prepared placement is an orientation moved inside the board. The catalogue does not reject it alone on the base board. |
| Board.PreparedHit | board/board.go:196-214 | Every such placement is prepared. |
| Board.NextPlacements | board/board.go:189-230 | The boards sent are the next stage of the incoming boards. |
| Board.NextStageWitness | board/board.go:218-228 | Every board sent is an incoming board plus a prepared placement whose mask ANDs to 0 with the board's. The catalogue does not reject it. |
| Board.NextStageHit | board/board.go:218-228 | Every such extension is sent. |
| Board.Solve | board/board.go:239-261 | The last stage of the chain is the fold of the stages over the shapes. |
| Board.FirstStageSound | board/board.go:155-183 | On an empty board, every first-stage board solves the first shape. |
| Board.ExtendSound | board/board.go:218-228 | Adding a fitted, non-overlapping placement to a board that solves n - 1 shapes gives a board that solves n, if the catalogue does not reject it. |
| Board.StageOrigin | board/board.go:253-255 | Every board of stage n extends a board of stage n - 1, and solves n shapes when that board solves n - 1. |
| Board.StagesSound | board/board.go:251-255 | On an empty board, every board of stage n solves the first n shapes. Its mask is the union of n pairwise-disjoint placements, the k-th an orientation of shape k inside the board, and the catalogue does not reject it. |
| Board.StagesKeep | board/board.go:251-255 | On any start board, every board of stage n has the start board's placements in front and n more after them, the same size, and its mask stays the union of its placements when the start board's is. |
| Board.StageComplete | board/board.go:196-228 | Stage n keeps every board of stage n - 1 extended by a non-overlapping orientation of shape n inside the board, unless the catalogue rejects the placement alone or the extended board. |
| Sweep.SweepAll | board/board.go:160-178 | The loop over orientations with two nested counting loops appends the fold of the step over every offset of each orientation's window. |
| Sweep.EachPair | board/board.go:218-228 | The loop over boards, nested over placements, appends the fold of the step over every pair. |
| Sweep.SweepWitness | board/board.go:160-178 | Everything a sweep appends comes from an orientation at an offset of its window. |
| Sweep.SweepHit | board/board.go:160-178 | Everything the step yields at such an offset is appended. |
| Sweep.PairsWitness | board/board.go:218-228 | Everything the pair loop appends comes from a board and a placement. |
| Sweep.PairsHit | board/board.go:218-228 | Everything the step yields for such a pair is appended. |
| Sweep.ConcatWitness | board/board.go:310 | Every element appended by a counting loop over the grids comes from one grid. |
| Sweep.ConcatHit | board/board.go:310 | Conversely, every element the loop appends for one grid is in the whole list. |

## Left out

- The goroutines, channels, their buffers, `close` and backpressure in `Solve`, `FirstPlacements` and `NextPlacements` (board/board.go:150, 170, 182, 224, 229, 244-255). Each stage is a sequence of boards in channel order, and `Solve` returns the last one instead of a channel.
- `log.Printf` and the `ngen`/`nrej` counters (board/board.go:159, 168-181, 210-211, 223). They are diagnostics with no effect on the result.
- The `String` methods (mask/mask.go:26-28, shape/shape.go:72-78, board/board.go:123-147). They are text formatting. The cell lookup `FirstBit().Translate(r, c)` that `Board.String` uses is covered by `mask.FirstBitTranslate`.
- shapepuzzle.go is not part of this model. It is the command-line driver.
- Go's `int` is unbounded here. Overflow of `-row * 8`, `r * 8` or a board size is not modelled; the `uint64` arithmetic, including wrap-around and shifts of 64 or more, is.
- Preconditions replace the source's panics and its assumptions: patterns are non-empty and rectangular (`NumCols` reads row 0), and at most 8x8 wherever cell-level facts are stated. `Solve` is given at least one shape; Go panics on `shapes[0]`. Board sizes are at most 8 where the region is described cell by cell.
- Board.StagesSound: stated for a solver started on an empty board, which is how the driver calls it. On a non-empty start board whose mask is the union of its placements, every stage board keeps that property (Board.StagesKeep), but two things fail: a stage-n board has n placements more than the start board rather than n, and the first stage does not test its placement against the start board's mask (board/board.go:160-177), so the first placement may overlap it.
- Board.StageComplete: completeness is per stage, not for the whole chain. The first stage keeps the first shape in the top-left quarter of the board, so the chain finds solutions only up to the symmetries of the board.
- The loop bodies of `FirstPlacements`, `NextPlacements` and `GapShapes` are passed to the generic loops of `Sweep` as functions. The order and the contents of what is appended are those of the source.
- `Rotate` and `Flip` fill fresh arrays as the source fills fresh slices; the arrays are not shared, so aliasing plays no part.
