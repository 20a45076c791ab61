module mask {
  /** 2^64: masks are the integers below it, the values of a Go uint64. */
  const TWO64: int := 0x1_0000_0000_0000_0000

  /** mask.Bits: a 64-bit unsigned integer. */
  type Bits = x: int | 0 <= x < TWO64

  function Pow2(n: nat): (p: nat)
    ensures p >= 1
  {
    if n == 0 then 1 else 2 * Pow2(n - 1)
  }

  lemma {:induction false} Pow2Add(a: nat, b: nat)
    ensures Pow2(a + b) == Pow2(a) * Pow2(b)
    decreases a
  {
    if a > 0 {
      Pow2Add(a - 1, b);
      assert Pow2(a) * Pow2(b) == 2 * (Pow2(a - 1) * Pow2(b));
    }
  }

  lemma Pow2Byte()
    ensures Pow2(8) == 256
  {
  }

  lemma {:induction false} Pow2Monotone(a: nat, b: nat)
    requires a <= b
    ensures Pow2(a) <= Pow2(b)
    decreases b
  {
    if a < b {
      Pow2Monotone(a, b - 1);
    }
  }

  lemma Pow2Within64(n: nat)
    requires n <= 64
    ensures Pow2(n) <= TWO64
  {
    Pow2Values();
    Pow2Monotone(n, 64);
  }

  lemma Pow2Values()
    ensures Pow2(16) == 0x1_0000 && Pow2(32) == 0x1_0000_0000
    ensures Pow2(63) == 0x8000_0000_0000_0000
    ensures Pow2(64) == TWO64
  {
    Pow2Short();
    Pow2Add(32, 32);
    assert Pow2(64) == 2 * Pow2(63);
  }

  lemma Pow2Short()
    ensures Pow2(16) == 0x1_0000 && Pow2(32) == 0x1_0000_0000
  {
    Pow2Sixteen();
    Pow2Add(16, 16);
  }

  lemma Pow2Sixteen()
    ensures Pow2(16) == 0x1_0000
  {
    Pow2Byte();
    Pow2Add(8, 8);
  }

  /** Bit i of m, counted from the least significant end. */
  predicate Bit(m: nat, i: nat)
    decreases i
  {
    if i == 0 then m % 2 == 1 else Bit(m / 2, i - 1)
  }

  lemma {:induction false} BitZero(i: nat)
    ensures !Bit(0, i)
    decreases i
  {
    if i > 0 {
      BitZero(i - 1);
    }
  }

  /** The bits of 2^k * t + b, for b below 2^k: those of b below position k, those of t from there on. */
  lemma {:induction false} BitSplit(t: nat, b: nat, k: nat, i: nat)
    requires b < Pow2(k)
    ensures Bit(Pow2(k) * t + b, i) <==> if i < k then Bit(b, i) else Bit(t, i - k)
    decreases k
  {
    if k > 0 {
      var u := Pow2(k - 1) * t;
      assert Pow2(k) * t == 2 * u;
      var x := u + b / 2;
      assert Pow2(k) * t + b == 2 * x + b % 2;
      if i > 0 {
        assert b / 2 < Pow2(k - 1);
        BitSplit(t, b / 2, k - 1, i - 1);
      }
    }
  }

  /** A number below 2^k has no bit at position k or above. */
  lemma BitHigh(m: nat, k: nat, i: nat)
    requires m < Pow2(k) && i >= k
    ensures !Bit(m, i)
  {
    BitSplit(0, m, k, i);
    BitZero(i - k);
  }

  /** Numbers with the same bits are equal. */
  lemma {:induction false} BitsDetermine(a: nat, b: nat)
    requires forall i: nat :: Bit(a, i) == Bit(b, i)
    ensures a == b
    decreases a + b
  {
    if a != 0 || b != 0 {
      assert Bit(a, 0) == Bit(b, 0);
      forall i: nat
        ensures Bit(a / 2, i) == Bit(b / 2, i)
      {
        assert Bit(a, i + 1) == Bit(b, i + 1);
      }
      BitsDetermine(a / 2, b / 2);
    }
  }

  function BitwiseOr(a: nat, b: nat): nat
    decreases a + b
  {
    if a == 0 && b == 0 then 0
    else 2 * BitwiseOr(a / 2, b / 2) + (if a % 2 == 1 || b % 2 == 1 then 1 else 0)
  }

  function BitwiseAnd(a: nat, b: nat): nat
    decreases a + b
  {
    if a == 0 || b == 0 then 0
    else 2 * BitwiseAnd(a / 2, b / 2) + (if a % 2 == 1 && b % 2 == 1 then 1 else 0)
  }

  /** The bits of 2h + e for a last bit e: e at position 0, those of h above it. */
  lemma AppendBit(h: nat, e: nat, i: nat)
    requires e < 2
    ensures Bit(2 * h + e, i) <==> if i == 0 then e == 1 else Bit(h, i - 1)
  {
    assert (2 * h + e) % 2 == e && (2 * h + e) / 2 == h;
  }

  lemma {:induction false} BitwiseOrBits(a: nat, b: nat, i: nat)
    ensures Bit(BitwiseOr(a, b), i) <==> Bit(a, i) || Bit(b, i)
    decreases a + b
  {
    if a == 0 && b == 0 {
      BitZero(i);
    } else {
      var e := if a % 2 == 1 || b % 2 == 1 then 1 else 0;
      AppendBit(BitwiseOr(a / 2, b / 2), e, i);
      if i > 0 {
        BitwiseOrBits(a / 2, b / 2, i - 1);
      }
    }
  }

  lemma {:induction false} BitwiseAndBits(a: nat, b: nat, i: nat)
    ensures Bit(BitwiseAnd(a, b), i) <==> Bit(a, i) && Bit(b, i)
    decreases a + b
  {
    if a == 0 || b == 0 {
      BitZero(i);
    } else {
      var e := if a % 2 == 1 && b % 2 == 1 then 1 else 0;
      AppendBit(BitwiseAnd(a / 2, b / 2), e, i);
      if i > 0 {
        BitwiseAndBits(a / 2, b / 2, i - 1);
      }
    }
  }

  lemma {:induction false} BitwiseOrBelow(a: nat, b: nat, k: nat)
    requires a < Pow2(k) && b < Pow2(k)
    ensures BitwiseOr(a, b) < Pow2(k)
    decreases k
  {
    if k > 0 && (a != 0 || b != 0) {
      BitwiseOrBelow(a / 2, b / 2, k - 1);
    }
  }

  lemma {:induction false} BitwiseAndBelow(a: nat, b: nat)
    ensures BitwiseAnd(a, b) <= a && BitwiseAnd(a, b) <= b
    decreases a + b
  {
    if a != 0 && b != 0 {
      BitwiseAndBelow(a / 2, b / 2);
    }
  }

  /** The complement of a below 2^k within k bits. */
  lemma {:induction false} ComplementBits(a: nat, k: nat, i: nat)
    requires a < Pow2(k)
    ensures Bit(Pow2(k) - 1 - a, i) <==> i < k && !Bit(a, i)
    decreases k
  {
    if k == 0 {
      BitZero(i);
    } else if i > 0 {
      var x := Pow2(k - 1) - 1 - a / 2;
      assert Pow2(k) - 1 - a == 2 * x + (1 - a % 2);
      ComplementBits(a / 2, k - 1, i - 1);
    }
  }

  lemma OrBelow64(a: Bits, b: Bits)
    ensures BitwiseOr(a, b) < TWO64
  {
    Pow2Values();
    BitwiseOrBelow(a, b, 64);
  }

  lemma AndBelow64(a: Bits, b: Bits)
    ensures BitwiseAnd(a, b) < TWO64
  {
    BitwiseAndBelow(a, b);
  }

  /** Go's `a | b` on uint64. */
  function Or(a: Bits, b: Bits): Bits
  {
    OrBelow64(a, b);
    BitwiseOr(a, b)
  }

  /** Go's `a & b` on uint64. */
  function And(a: Bits, b: Bits): Bits
  {
    AndBelow64(a, b);
    BitwiseAnd(a, b)
  }

  /** Go's `^a` on uint64. */
  function Not(a: Bits): Bits
  {
    TWO64 - 1 - a
  }

  /** Go's `m << n` on uint64: the bits pushed past the top are lost, so n >= 64 gives 0. */
  function Shl(m: Bits, n: nat): Bits
  {
    (m * Pow2(n)) % TWO64
  }

  /** Go's `m >> n` on uint64, n halvings: the bits pushed past the bottom are lost, so n >= 64 gives 0. */
  function Shr(m: Bits, n: nat): Bits
  {
    if n == 0 then m else Shr(m / 2, n - 1)
  }

  lemma OrBits(a: Bits, b: Bits, i: nat)
    ensures Bit(Or(a, b), i) <==> Bit(a, i) || Bit(b, i)
  {
    BitwiseOrBits(a, b, i);
  }

  lemma AndBits(a: Bits, b: Bits, i: nat)
    ensures Bit(And(a, b), i) <==> Bit(a, i) && Bit(b, i)
  {
    BitwiseAndBits(a, b, i);
  }

  lemma NotBits(a: Bits, i: nat)
    ensures Bit(Not(a), i) <==> i < 64 && !Bit(a, i)
  {
    Pow2Values();
    ComplementBits(a, 64, i);
  }

  lemma {:induction false} ShrBits(m: Bits, n: nat, i: nat)
    ensures Bit(Shr(m, n), i) <==> Bit(m, i + n)
    decreases n
  {
    if n > 0 {
      ShrBits(m / 2, n - 1, i);
      assert Bit(m, i + n) == Bit(m / 2, i + n - 1);
    }
  }

  lemma {:induction false} ShrLe(m: Bits, n: nat)
    ensures Shr(m, n) <= m
    decreases n
  {
    if n > 0 {
      ShrLe(m / 2, n - 1);
    }
  }

  /** Quotient and remainder of m by a positive d. */
  lemma DivMod(m: nat, d: nat) returns (q: nat, r: nat)
    requires d >= 1
    ensures q == m / d && r == m % d && r < d && m == d * q + r
  {
    q, r := m / d, m % d;
  }

  /** Reducing modulo 2^64 keeps exactly the bits below position 64. */
  lemma ModBits(x: nat, i: nat)
    ensures Bit(x % TWO64, i) <==> i < 64 && Bit(x, i)
  {
    Pow2Values();
    var q, r := DivMod(x, Pow2(64));
    BitSplit(q, r, 64, i);
    if i >= 64 {
      BitHigh(r, 64, i);
    }
  }

  /** Multiplying by 2^n moves every bit n places up. */
  lemma MulPow2Bits(m: nat, n: nat, i: nat)
    ensures Bit(m * Pow2(n), i) <==> i >= n && Bit(m, i - n)
  {
    assert m * Pow2(n) == Pow2(n) * m + 0;
    BitSplit(m, 0, n, i);
    if i < n {
      BitZero(i);
    }
  }

  lemma ShlBits(m: Bits, n: nat, i: nat)
    ensures Bit(Shl(m, n), i) <==> i < 64 && i >= n && Bit(m, i - n)
  {
    ModBits(m * Pow2(n), i);
    MulPow2Bits(m, n, i);
  }

  /** Bits have no bit at position 64 or above. */
  lemma BitsBelow64(m: Bits, i: nat)
    requires i >= 64
    ensures !Bit(m, i)
  {
    Pow2Values();
    BitHigh(m, 64, i);
  }

  lemma ShiftOut(m: Bits, n: nat)
    requires n >= 64
    ensures Shl(m, n) == 0 && Shr(m, n) == 0
  {
    forall i: nat
      ensures !Bit(Shl(m, n), i) && !Bit(Shr(m, n), i) && !Bit(0, i)
    {
      ShlBits(m, n, i);
      ShrBits(m, n, i);
      BitsBelow64(m, i + n);
      BitZero(i);
    }
    BitsDetermine(Shl(m, n), 0);
    BitsDetermine(Shr(m, n), 0);
  }

  // ---------------------------------------------------------------------
  // Cells
  // ---------------------------------------------------------------------

  predicate InFrame(r: int, c: int) {
    0 <= r < 8 && 0 <= c < 8
  }

  predicate HasAt(m: Bits, p: int)
    requires 0 <= p < 64
  {
    Bit(m, 63 - p)
  }

  predicate Has(m: Bits, r: int, c: int)
    requires InFrame(r, c)
  {
    HasAt(m, 8 * r + c)
  }

  lemma HasOr(x: Bits, y: Bits, r: int, c: int)
    requires InFrame(r, c)
    ensures Has(Or(x, y), r, c) <==> Has(x, r, c) || Has(y, r, c)
  {
    OrBits(x, y, 63 - (8 * r + c));
  }

  lemma HasAnd(x: Bits, y: Bits, r: int, c: int)
    requires InFrame(r, c)
    ensures Has(And(x, y), r, c) <==> Has(x, r, c) && Has(y, r, c)
  {
    AndBits(x, y, 63 - (8 * r + c));
  }

  lemma HasNot(x: Bits, r: int, c: int)
    requires InFrame(r, c)
    ensures Has(Not(x), r, c) <==> !Has(x, r, c)
  {
    NotBits(x, 63 - (8 * r + c));
  }

  lemma HasAtShr(m: Bits, n: nat, p: int)
    requires 0 <= p < 64
    ensures HasAt(Shr(m, n), p) <==> p >= n && HasAt(m, p - n)
  {
    ShrBits(m, n, 63 - p);
    if p < n {
      BitsBelow64(m, 63 - p + n);
    }
  }

  lemma HasAtShl(m: Bits, n: nat, p: int)
    requires 0 <= p < 64
    ensures HasAt(Shl(m, n), p) <==> p + n < 64 && HasAt(m, p + n)
  {
    ShlBits(m, n, 63 - p);
  }

  lemma CellsDetermine(x: Bits, y: Bits)
    requires forall r, c | InFrame(r, c) :: Has(x, r, c) == Has(y, r, c)
    ensures x == y
  {
    forall i: nat
      ensures Bit(x, i) == Bit(y, i)
    {
      if i < 64 {
        var p := 63 - i;
        var r, c := p / 8, p % 8;
        assert Has(x, r, c) == Has(y, r, c);
      } else {
        BitsBelow64(x, i);
        BitsBelow64(y, i);
      }
    }
    BitsDetermine(x, y);
  }

  lemma NoCellsZero(x: Bits)
    requires forall r, c | InFrame(r, c) :: !Has(x, r, c)
    ensures x == 0
  {
    forall r, c | InFrame(r, c)
      ensures Has(x, r, c) == Has(0, r, c)
    {
      BitZero(63 - (8 * r + c));
    }
    CellsDetermine(x, 0);
  }

  function FirstBit(): Bits
  {
    0x8000_0000_0000_0000
  }

  /** The only bit of 2^k is bit k. */
  lemma {:induction false} PowerBit(k: nat, i: nat)
    ensures Bit(Pow2(k), i) <==> i == k
    decreases k
  {
    if k == 0 {
      if i > 0 {
        BitZero(i - 1);
      }
    } else if i > 0 {
      PowerBit(k - 1, i - 1);
    }
  }

  /** FirstBit is the top left cell. */
  lemma FirstBitAt(p: int)
    requires 0 <= p < 64
    ensures HasAt(FirstBit(), p) <==> p == 0
  {
    Pow2Values();
    PowerBit(63, 63 - p);
  }

  lemma FirstBitCells(r: int, c: int)
    requires InFrame(r, c)
    ensures Has(FirstBit(), r, c) <==> r == 0 && c == 0
  {
    FirstBitAt(8 * r + c);
  }

  function CellBit(p: nat): Bits
  {
    Shr(FirstBit(), p)
  }

  lemma CellBitCells(p: nat, r: int, c: int)
    requires InFrame(r, c)
    ensures Has(CellBit(p), r, c) <==> p == 8 * r + c
  {
    var q := 8 * r + c;
    HasAtShr(FirstBit(), p, q);
    if q >= p {
      var d := q - p;
      assert d / 8 == 0 <==> d < 8;
      FirstBitCells(d / 8, d % 8);
    }
  }

  lemma ShrOnceMore(m: Bits, n: nat)
    ensures Shr(Shr(m, n), 1) == Shr(m, n + 1)
  {
    forall i: nat
      ensures Bit(Shr(Shr(m, n), 1), i) == Bit(Shr(m, n + 1), i)
    {
      ShrBits(Shr(m, n), 1, i);
      ShrBits(m, n, i + 1);
      ShrBits(m, n + 1, i);
    }
    BitsDetermine(Shr(Shr(m, n), 1), Shr(m, n + 1));
  }

  lemma OrZero(x: Bits)
    ensures Or(x, 0) == x
  {
    forall i: nat
      ensures Bit(Or(x, 0), i) == Bit(x, i)
    {
      OrBits(x, 0, i);
      BitZero(i);
    }
    BitsDetermine(Or(x, 0), x);
  }

  lemma OrAssoc(x: Bits, y: Bits, z: Bits)
    ensures Or(Or(x, y), z) == Or(x, Or(y, z))
  {
    forall i: nat
      ensures Bit(Or(Or(x, y), z), i) == Bit(Or(x, Or(y, z)), i)
    {
      OrBits(Or(x, y), z, i);
      OrBits(x, y, i);
      OrBits(x, Or(y, z), i);
      OrBits(y, z, i);
    }
    BitsDetermine(Or(Or(x, y), z), Or(x, Or(y, z)));
  }

  /** One step of the column scan: OR-ing the cell's bit into the running mask extends the row's bits by that cell. */
  lemma ScanStep(acc: Bits, done: Bits, row: Bits, picked: bool, bit: Bits)
    requires acc == Or(done, row)
    ensures (if picked then Or(acc, bit) else acc) == Or(done, Or(row, if picked then bit else 0))
  {
    OrAssoc(done, row, bit);
    OrZero(row);
  }

  function Width(grid: seq<seq<int>>): nat
  {
    if |grid| == 0 then 0 else |grid[0]|
  }

  predicate Scannable(grid: seq<seq<int>>)
  {
    forall r | 0 <= r < |grid| :: Width(grid) <= |grid[r]|
  }

  predicate Picks(v: int, gaps: bool)
  {
    if gaps then v == 2 else v != 0
  }

  function RowBits(row: seq<int>, r: nat, n: nat, gaps: bool): Bits
    requires n <= |row|
  {
    if n == 0 then 0
    else Or(RowBits(row, r, n - 1, gaps), if Picks(row[n - 1], gaps) then CellBit(8 * r + n - 1) else 0)
  }

  function GridBits(grid: seq<seq<int>>, n: nat, gaps: bool): Bits
    requires Scannable(grid) && n <= |grid|
  {
    if n == 0 then 0
    else Or(GridBits(grid, n - 1, gaps), RowBits(grid[n - 1], n - 1, Width(grid), gaps))
  }

  function Occupancy(grid: seq<seq<int>>): Bits
    requires Scannable(grid)
  {
    GridBits(grid, |grid|, false)
  }

  function GapCells(grid: seq<seq<int>>): Bits
    requires Scannable(grid)
  {
    GridBits(grid, |grid|, true)
  }

  method ComputeMask(grid: seq<seq<int>>) returns (mbits: Bits, gapbits: Bits)
    requires Scannable(grid)
    ensures mbits == Occupancy(grid) && gapbits == GapCells(grid)
  {
    mbits := 0;
    gapbits := 0;
    var r := 0;
    while r < |grid|
      invariant 0 <= r <= |grid|
      invariant mbits == GridBits(grid, r, false) && gapbits == GridBits(grid, r, true)
    {
      var bit := Shr(FirstBit(), r * 8);
      var c := 0;
      OrZero(mbits);
      OrZero(gapbits);
      while c < |grid[0]|
        invariant 0 <= c <= Width(grid)
        invariant bit == CellBit(8 * r + c)
        invariant mbits == Or(GridBits(grid, r, false), RowBits(grid[r], r, c, false))
        invariant gapbits == Or(GridBits(grid, r, true), RowBits(grid[r], r, c, true))
      {
        ScanStep(mbits, GridBits(grid, r, false), RowBits(grid[r], r, c, false), Picks(grid[r][c], false), bit);
        ScanStep(gapbits, GridBits(grid, r, true), RowBits(grid[r], r, c, true), Picks(grid[r][c], true), bit);
        if grid[r][c] != 0 {
          mbits := Or(mbits, bit);
        }
        if grid[r][c] == 2 {
          gapbits := Or(gapbits, bit);
        }
        ShrOnceMore(FirstBit(), 8 * r + c);
        bit := Shr(bit, 1);
        c := c + 1;
      }
      r := r + 1;
    }
  }

  /** `x & y == x`, the source's test that every cell of x is a cell of y. */
  predicate Within(x: Bits, y: Bits)
  {
    And(x, y) == x
  }

  lemma WithinIntro(x: Bits, y: Bits)
    requires forall i: nat :: Bit(x, i) ==> Bit(y, i)
    ensures Within(x, y)
  {
    forall i: nat
      ensures Bit(And(x, y), i) == Bit(x, i)
    {
      AndBits(x, y, i);
    }
    BitsDetermine(And(x, y), x);
  }

  lemma WithinElim(x: Bits, y: Bits, i: nat)
    requires Within(x, y) && Bit(x, i)
    ensures Bit(y, i)
  {
    AndBits(x, y, i);
  }

  /** `x & y == x` holds exactly when every cell of x is a cell of y. */
  lemma WithinCells(x: Bits, y: Bits)
    ensures Within(x, y) <==> forall r, c | InFrame(r, c) :: Has(x, r, c) ==> Has(y, r, c)
  {
    if forall r, c | InFrame(r, c) :: Has(x, r, c) ==> Has(y, r, c) {
      forall i: nat | Bit(x, i)
        ensures Bit(y, i)
      {
        if i < 64 {
          var p := 63 - i;
          assert Has(x, p / 8, p % 8);
        } else {
          BitsBelow64(x, i);
        }
      }
      WithinIntro(x, y);
    }
    if Within(x, y) {
      forall r, c | InFrame(r, c) && Has(x, r, c)
        ensures Has(y, r, c)
      {
        WithinElim(x, y, 63 - (8 * r + c));
      }
    }
  }

  lemma OrWithin(a: Bits, b: Bits, c: Bits, d: Bits)
    requires Within(a, b) && Within(c, d)
    ensures Within(Or(a, c), Or(b, d))
  {
    forall i: nat | Bit(Or(a, c), i)
      ensures Bit(Or(b, d), i)
    {
      OrBits(a, c, i);
      OrBits(b, d, i);
      if Bit(a, i) {
        WithinElim(a, b, i);
      } else {
        WithinElim(c, d, i);
      }
    }
    WithinIntro(Or(a, c), Or(b, d));
  }

  lemma WithinSelf(x: Bits)
    ensures Within(x, x)
  {
    WithinIntro(x, x);
  }

  /** Masking with `&` keeps only cells of both operands. */
  lemma AndWithin(x: Bits, y: Bits)
    ensures Within(And(x, y), x) && Within(And(x, y), y)
  {
    forall r, c | InFrame(r, c)
      ensures Has(And(x, y), r, c) ==> Has(x, r, c) && Has(y, r, c)
    {
      HasAnd(x, y, r, c);
    }
    WithinCells(And(x, y), x);
    WithinCells(And(x, y), y);
  }

  /** Masking both sides of an inclusion by the same region keeps the inclusion. */
  lemma AndKeepsWithin(x: Bits, y: Bits, region: Bits)
    ensures Within(x, y) ==> Within(And(x, region), And(y, region))
  {
    if Within(x, y) {
      WithinCells(x, y);
      forall r, c | InFrame(r, c) && Has(And(x, region), r, c)
        ensures Has(And(y, region), r, c)
      {
        HasAnd(x, region, r, c);
        HasAnd(y, region, r, c);
      }
      WithinCells(And(x, region), And(y, region));
    }
  }

  /** `m &^ g` and `g` share no cell, and together they rebuild `m` when `g` lies within `m`. */
  lemma ComplementSplit(m: Bits, g: Bits)
    ensures And(And(m, Not(g)), g) == 0
    ensures Within(g, m) ==> Or(And(m, Not(g)), g) == m
  {
    forall r, c | InFrame(r, c)
      ensures !Has(And(And(m, Not(g)), g), r, c)
    {
      HasAnd(And(m, Not(g)), g, r, c);
      HasAnd(m, Not(g), r, c);
      HasNot(g, r, c);
    }
    NoCellsZero(And(And(m, Not(g)), g));
    if Within(g, m) {
      WithinCells(g, m);
      forall r, c | InFrame(r, c)
        ensures Has(Or(And(m, Not(g)), g), r, c) == Has(m, r, c)
      {
        HasOr(And(m, Not(g)), g, r, c);
        HasAnd(m, Not(g), r, c);
        HasNot(g, r, c);
      }
      CellsDetermine(Or(And(m, Not(g)), g), m);
    }
  }

  lemma {:induction false} RowGapsWithin(row: seq<int>, r: nat, n: nat)
    requires n <= |row|
    ensures Within(RowBits(row, r, n, true), RowBits(row, r, n, false))
  {
    if n == 0 {
      WithinSelf(0);
    } else {
      RowGapsWithin(row, r, n - 1);
      var cell := CellBit(8 * r + n - 1);
      WithinSelf(cell);
      WithinSelf(0);
      OrWithin(RowBits(row, r, n - 1, true), RowBits(row, r, n - 1, false),
               if Picks(row[n - 1], true) then cell else 0, if Picks(row[n - 1], false) then cell else 0);
    }
  }

  lemma {:induction false} GridGapsWithin(grid: seq<seq<int>>, n: nat)
    requires Scannable(grid) && n <= |grid|
    ensures Within(GridBits(grid, n, true), GridBits(grid, n, false))
  {
    if n == 0 {
      WithinSelf(0);
    } else {
      GridGapsWithin(grid, n - 1);
      RowGapsWithin(grid[n - 1], n - 1, Width(grid));
      OrWithin(GridBits(grid, n - 1, true), GridBits(grid, n - 1, false),
               RowBits(grid[n - 1], n - 1, Width(grid), true), RowBits(grid[n - 1], n - 1, Width(grid), false));
    }
  }

  lemma GapsWithinOccupancy(grid: seq<seq<int>>)
    requires Scannable(grid)
    ensures Within(GapCells(grid), Occupancy(grid))
  {
    GridGapsWithin(grid, |grid|);
  }

  lemma {:induction false} RowBitsCells(row: seq<int>, r: nat, n: nat, gaps: bool, i: int, j: int)
    requires n <= |row| && n <= 8 && r < 8 && InFrame(i, j)
    ensures Has(RowBits(row, r, n, gaps), i, j) <==> i == r && j < n && Picks(row[j], gaps)
  {
    BitZero(63 - (8 * i + j));
    if n > 0 {
      RowBitsCells(row, r, n - 1, gaps, i, j);
      var last := if Picks(row[n - 1], gaps) then CellBit(8 * r + n - 1) else 0;
      HasOr(RowBits(row, r, n - 1, gaps), last, i, j);
      CellBitCells(8 * r + n - 1, i, j);
    }
  }

  lemma {:induction false} GridBitsCells(grid: seq<seq<int>>, n: nat, gaps: bool, i: int, j: int)
    requires Scannable(grid) && n <= |grid| && n <= 8 && Width(grid) <= 8 && InFrame(i, j)
    ensures Has(GridBits(grid, n, gaps), i, j) <==> i < n && j < Width(grid) && Picks(grid[i][j], gaps)
  {
    if n > 0 {
      GridBitsCells(grid, n - 1, gaps, i, j);
      HasOr(GridBits(grid, n - 1, gaps), RowBits(grid[n - 1], n - 1, Width(grid), gaps), i, j);
      RowBitsCells(grid[n - 1], n - 1, Width(grid), gaps, i, j);
    } else {
      BitZero(63 - (8 * i + j));
    }
  }

  lemma MaskCells(grid: seq<seq<int>>, i: int, j: int)
    requires Scannable(grid) && |grid| <= 8 && Width(grid) <= 8 && InFrame(i, j)
    ensures Has(Occupancy(grid), i, j) <==> i < |grid| && j < Width(grid) && grid[i][j] != 0
    ensures Has(GapCells(grid), i, j) <==> i < |grid| && j < Width(grid) && grid[i][j] == 2
  {
    GridBitsCells(grid, |grid|, false, i, j);
    GridBitsCells(grid, |grid|, true, i, j);
  }

  // ---------------------------------------------------------------------
  // Translate (mask.go:60-86)
  // ---------------------------------------------------------------------

  /** Go's `a + b` on uint64, which wraps around. */
  function Add(a: Bits, b: Bits): Bits
  {
    (a + b) % TWO64
  }

  function KeepByte(col: int): Bits
  {
    if col < 0 then Shr(0xff, -col) else And(Shl(0xff, col), 0xff)
  }

  function Repeat(b: Bits, n: nat): Bits
  {
    if n == 0 then 0 else Add(Shl(Repeat(b, n - 1), 8), b)
  }

  function ShiftRows(m: Bits, row: int): Bits
  {
    if row < 0 then Shl(m, -row * 8) else Shr(m, row * 8)
  }

  function Translated(m: Bits, row: int, col: int): Bits
  {
    var kept := And(ShiftRows(m, row), Repeat(KeepByte(col), 8));
    if col < 0 then Shl(kept, -col) else Shr(kept, col)
  }

  method Translate(mask: Bits, row: int, col: int) returns (result: Bits)
    ensures result == Translated(mask, row, col)
  {
    result := mask;
    if row < 0 {
      result := Shl(result, -row * 8);
    } else {
      result := Shr(result, row * 8);
    }
    var blank: Bits := 0;
    if col < 0 {
      for i := 0 to 8
        invariant blank == Repeat(KeepByte(col), i)
      {
        blank := Add(Shl(blank, 8), Shr(0xff, -col));
      }
      result := And(result, blank);
      result := Shl(result, -col);
    } else {
      for i := 0 to 8
        invariant blank == Repeat(KeepByte(col), i)
      {
        blank := Add(Shl(blank, 8), And(Shl(0xff, col), 0xff));
      }
      result := And(result, blank);
      result := Shr(result, col);
    }
  }

  lemma ByteOnes(i: nat)
    ensures Bit(0xff, i) <==> i < 8
  {
    Pow2Byte();
    ComplementBits(0, 8, i);
  }

  lemma KeepByteBits(col: int, i: nat)
    ensures KeepByte(col) < 256
    ensures Bit(KeepByte(col), i) <==> i < 8 && (if col < 0 then i - col < 8 else i >= col)
  {
    ByteOnes(i);
    if col < 0 {
      ShrLe(0xff, -col);
      ShrBits(0xff, -col, i);
      ByteOnes(i - col);
    } else {
      BitwiseAndBelow(Shl(0xff, col), 0xff);
      AndBits(Shl(0xff, col), 0xff, i);
      ShlBits(0xff, col, i);
      if i >= col {
        ByteOnes(i - col);
      }
    }
  }

  /** Each step of the `blank` loop shifts the bytes so far one row up and adds the byte in the last row. */
  lemma ShlExact(x: Bits, k: nat)
    requires x * Pow2(k) < TWO64
    ensures Shl(x, k) == x * Pow2(k)
  {
  }

  lemma AddExact(a: Bits, b: Bits)
    requires a + b < TWO64
    ensures Add(a, b) == a + b
  {
  }

  lemma {:induction false} RepeatValue(b: Bits, n: nat)
    requires b < 256 && n <= 8
    ensures Repeat(b, n) < Pow2(8 * n)
    ensures n > 0 ==> Repeat(b, n) == 256 * Repeat(b, n - 1) + b
  {
    if n > 0 {
      RepeatValue(b, n - 1);
      var x := Repeat(b, n - 1);
      var p := Pow2(8 * (n - 1));
      Pow2Byte();
      Pow2Add(8 * (n - 1), 8);
      assert 8 * (n - 1) + 8 == 8 * n;
      assert Pow2(8 * n) == 256 * p;
      Pow2Within64(8 * n);
      assert 256 * x + b < 256 * p;
      assert Shl(x, 8) == 256 * x by {
        ShlExact(x, 8);
      }
      AddExact(256 * x, b);
    }
  }

  lemma RepeatStep(b: Bits, n: nat)
    requires b < 256 && 0 < n <= 8
    ensures Repeat(b, n) == 256 * Repeat(b, n - 1) + b
  {
    RepeatValue(b, n);
  }

  /** The bits of 256 * x + b for a byte b: b in the low byte, x above it. */
  lemma ByteSplit(x: nat, b: nat, i: nat)
    requires b < 256
    ensures Bit(256 * x + b, i) <==> if i < 8 then Bit(b, i) else Bit(x, i - 8)
  {
    Pow2Byte();
    BitSplit(x, b, 8, i);
  }

  /** Bit t of byte q of n copies of b: present for the n low bytes. */
  lemma {:induction false} RepeatBits(b: Bits, n: nat, q: nat, t: nat)
    requires b < 256 && n <= 8 && t < 8
    ensures Bit(Repeat(b, n), 8 * q + t) <==> q < n && Bit(b, t)
  {
    if n == 0 {
      BitZero(8 * q + t);
    } else {
      RepeatStep(b, n);
      ByteSplit(Repeat(b, n - 1), b, 8 * q + t);
      if q > 0 {
        RepeatBits(b, n - 1, q - 1, t);
        assert 8 * q + t - 8 == 8 * (q - 1) + t;
      }
    }
  }

  /** A mask made of n copies of a byte holds that byte's columns in each of the last n rows. */
  lemma RepeatCells(b: Bits, n: nat, i: int, j: int)
    requires b < 256 && n <= 8 && InFrame(i, j)
    ensures Has(Repeat(b, n), i, j) <==> i >= 8 - n && Bit(b, 7 - j)
  {
    RepeatBits(b, n, 7 - i, 7 - j);
    assert 63 - (8 * i + j) == 8 * (7 - i) + (7 - j);
  }

  lemma BlankCells(col: int, i: int, j: int)
    requires InFrame(i, j)
    ensures Has(Repeat(KeepByte(col), 8), i, j) <==> 0 <= j + col < 8
  {
    KeepByteBits(col, 7 - j);
    RepeatCells(KeepByte(col), 8, i, j);
  }

  lemma ShiftRowsCells(m: Bits, row: int, i: int, j: int)
    requires InFrame(i, j)
    ensures Has(ShiftRows(m, row), i, j) <==> InFrame(i - row, j) && Has(m, i - row, j)
  {
    var p := 8 * i + j;
    if row < 0 {
      HasAtShl(m, -row * 8, p);
    } else {
      HasAtShr(m, row * 8, p);
    }
  }

  /** Keeping the columns of the blank mask keeps the cells whose column stays on the board after the shift. */
  lemma KeptCells(y: Bits, col: int, a: int, b: int)
    requires InFrame(a, b)
    ensures Has(And(y, Repeat(KeepByte(col), 8)), a, b) <==> Has(y, a, b) && 0 <= b + col < 8
  {
    HasAnd(y, Repeat(KeepByte(col), 8), a, b);
    BlankCells(col, a, b);
  }

  /** Position 8i + j - col holds a kept cell exactly when column j - col is on the board, and then it is cell (i, j - col). */
  lemma ColumnIndex(i: int, j: int, col: int)
    requires InFrame(i, j)
    ensures var q := 8 * i + j - col;
      (0 <= q < 64 && 0 <= q % 8 + col < 8) <==> 0 <= j - col < 8
    ensures var q := 8 * i + j - col;
      0 <= j - col < 8 ==> q / 8 == i && q % 8 == j - col
  {
    var q := 8 * i + j - col;
    var u, t := q / 8, q % 8;
    assert q == 8 * u + t && 0 <= t < 8;
    if 0 <= q < 64 && 0 <= t + col < 8 {
      assert j - (t + col) == 8 * (u - i);
    }
  }

  /** Shifting the kept cells sideways by col moves each of them col columns on. */
  lemma ShiftKept(kept: Bits, y: Bits, col: int, i: int, j: int)
    requires InFrame(i, j)
    requires forall a, b | InFrame(a, b) :: Has(kept, a, b) <==> Has(y, a, b) && 0 <= b + col < 8
    ensures Has(if col < 0 then Shl(kept, -col) else Shr(kept, col), i, j)
            <==> InFrame(i, j - col) && Has(y, i, j - col)
  {
    var q := 8 * i + j - col;
    if col < 0 {
      HasAtShl(kept, -col, 8 * i + j);
    } else {
      HasAtShr(kept, col, 8 * i + j);
    }
    if 0 <= j - col < 8 {
      assert Has(kept, i, j - col) <==> Has(y, i, j - col);
    } else if 0 <= q < 64 {
      ColumnIndex(i, j, col);
      var u, t := q / 8, q % 8;
      assert q == 8 * u + t;
      assert Has(kept, u, t) ==> 0 <= t + col < 8;
    }
  }

  lemma ShiftColumnsCells(y: Bits, col: int, i: int, j: int)
    requires InFrame(i, j)
    ensures var kept := And(y, Repeat(KeepByte(col), 8));
            Has(if col < 0 then Shl(kept, -col) else Shr(kept, col), i, j)
            <==> InFrame(i, j - col) && Has(y, i, j - col)
  {
    var kept := And(y, Repeat(KeepByte(col), 8));
    forall a, b | InFrame(a, b)
      ensures Has(kept, a, b) <==> Has(y, a, b) && 0 <= b + col < 8
    {
      KeptCells(y, col, a, b);
    }
    ShiftKept(kept, y, col, i, j);
  }

  lemma TranslatedCells(m: Bits, row: int, col: int, i: int, j: int)
    requires InFrame(i, j)
    ensures Has(Translated(m, row, col), i, j) <==> InFrame(i - row, j - col) && Has(m, i - row, j - col)
  {
    ShiftColumnsCells(ShiftRows(m, row), col, i, j);
    if 0 <= j - col < 8 {
      ShiftRowsCells(m, row, i, j - col);
    }
  }

  lemma TranslateZero(m: Bits)
    ensures Translated(m, 0, 0) == m
  {
    forall r, c | InFrame(r, c)
      ensures Has(Translated(m, 0, 0), r, c) == Has(m, r, c)
    {
      TranslatedCells(m, 0, 0, r, c);
    }
    CellsDetermine(Translated(m, 0, 0), m);
  }

  lemma TranslateOffFrame(m: Bits, row: int, col: int)
    requires row >= 8 || row <= -8 || col >= 8 || col <= -8
    ensures Translated(m, row, col) == 0
  {
    forall r, c | InFrame(r, c)
      ensures !Has(Translated(m, row, col), r, c)
    {
      TranslatedCells(m, row, col, r, c);
    }
    NoCellsZero(Translated(m, row, col));
  }

  lemma TranslateAnd(x: Bits, y: Bits, row: int, col: int)
    ensures Translated(And(x, y), row, col) == And(Translated(x, row, col), Translated(y, row, col))
  {
    forall r, c | InFrame(r, c)
      ensures Has(Translated(And(x, y), row, col), r, c) == Has(And(Translated(x, row, col), Translated(y, row, col)), r, c)
    {
      TranslatedCells(And(x, y), row, col, r, c);
      TranslatedCells(x, row, col, r, c);
      TranslatedCells(y, row, col, r, c);
      HasAnd(Translated(x, row, col), Translated(y, row, col), r, c);
      if InFrame(r - row, c - col) {
        HasAnd(x, y, r - row, c - col);
      }
    }
    CellsDetermine(Translated(And(x, y), row, col), And(Translated(x, row, col), Translated(y, row, col)));
  }

  lemma TranslateWithin(x: Bits, y: Bits, row: int, col: int)
    ensures Within(x, y) ==> Within(Translated(x, row, col), Translated(y, row, col))
  {
    TranslateAnd(x, y, row, col);
  }

  /** The first bit moved to (r, c) has exactly one cell set: (r, c). */
  lemma FirstBitTranslateAt(r: int, c: int, i: int, j: int)
    requires InFrame(r, c) && InFrame(i, j)
    ensures Has(Translated(FirstBit(), r, c), i, j) <==> i == r && j == c
  {
    TranslatedCells(FirstBit(), r, c, i, j);
    if InFrame(i - r, j - c) {
      FirstBitCells(i - r, j - c);
    }
  }

  /** A mask whose only cell is (r, c) is the bit of that cell. */
  lemma SingleCell(m: Bits, r: int, c: int)
    requires InFrame(r, c)
    requires forall i, j | InFrame(i, j) :: Has(m, i, j) <==> i == r && j == c
    ensures m == CellBit(8 * r + c)
  {
    forall i, j | InFrame(i, j)
      ensures Has(m, i, j) == Has(CellBit(8 * r + c), i, j)
    {
      CellBitCells(8 * r + c, i, j);
    }
    CellsDetermine(m, CellBit(8 * r + c));
  }

  lemma FirstBitTranslate(r: int, c: int)
    requires InFrame(r, c)
    ensures Translated(FirstBit(), r, c) == CellBit(8 * r + c)
    ensures forall i, j | InFrame(i, j) :: Has(Translated(FirstBit(), r, c), i, j) <==> i == r && j == c
  {
    var t := Translated(FirstBit(), r, c);
    forall i, j | InFrame(i, j)
      ensures Has(t, i, j) <==> i == r && j == c
    {
      FirstBitTranslateAt(r, c, i, j);
    }
    SingleCell(t, r, c);
  }

  // ---------------------------------------------------------------------
  // The translations of mask_test.go:42-55
  // ---------------------------------------------------------------------

  /** The bits of k ones shifted up by a places. */
  lemma OnesBits(a: nat, k: nat, i: nat)
    ensures Bit(Pow2(a) * (Pow2(k) - 1), i) <==> a <= i < a + k
  {
    BitSplit(Pow2(k) - 1, 0, a, i);
    if i < a {
      BitZero(i);
    } else {
      ComplementBits(0, k, i - a);
      BitZero(i - a);
    }
  }

  /** The cells of n copies of the byte b, moved up by u rows. */
  lemma RowBlockCells(b: Bits, n: nat, u: int, i: int, j: int)
    requires b < 256 && n <= 8 && u >= 0 && InFrame(i, j)
    ensures Has(ShiftRows(Repeat(b, n), -u), i, j) <==> i + u < 8 && i + u >= 8 - n && Bit(b, 7 - j)
  {
    ShiftRowsCells(Repeat(b, n), -u, i, j);
    if i + u < 8 {
      RepeatCells(b, n, i + u, j);
    }
  }

  lemma ExampleUpLeft()
    ensures ShiftRows(Repeat(0xfe, 6), -2) == 0xfefe_fefe_fefe_0000
  {
    RepeatStep(0xfe, 1); RepeatStep(0xfe, 2); RepeatStep(0xfe, 3);
    RepeatStep(0xfe, 4); RepeatStep(0xfe, 5); RepeatStep(0xfe, 6);
    assert Pow2(16) == 0x1_0000 by {
      Pow2Values();
    }
  }

  lemma ExampleTopLeft()
    ensures ShiftRows(Repeat(0xf0, 4), -4) == 0xf0f0_f0f0_0000_0000
  {
    RepeatStep(0xf0, 1); RepeatStep(0xf0, 2); RepeatStep(0xf0, 3); RepeatStep(0xf0, 4);
    assert Pow2(32) == 0x1_0000_0000 by {
      Pow2Values();
    }
  }

  lemma ExampleBottomRight()
    ensures Repeat(0x0f, 4) == 0x0f0f_0f0f
    ensures Repeat(0x07, 4) == 0x0707_0707
  {
    RepeatStep(0x0f, 1); RepeatStep(0x0f, 2); RepeatStep(0x0f, 3); RepeatStep(0x0f, 4);
    RepeatStep(0x07, 1); RepeatStep(0x07, 2); RepeatStep(0x07, 3); RepeatStep(0x07, 4);
  }

  lemma NotZero()
    ensures Not(0) == 0xffff_ffff_ffff_ffff
  {
  }

  lemma ExampleBytes(k: nat)
    requires k < 8
    ensures Bit(0xfe, k) <==> k >= 1
    ensures Bit(0xf0, k) <==> k >= 4
    ensures Bit(0x0f, k) <==> k < 4
    ensures Bit(0x07, k) <==> k < 3
  {
    assert Pow2(1) == 2 && Pow2(3) == 8 && Pow2(4) == 16 && Pow2(7) == 128;
    OnesBits(1, 7, k);
    OnesBits(4, 4, k);
    OnesBits(0, 4, k);
    OnesBits(0, 3, k);
  }

  lemma AllOnesCells(i: int, j: int)
    requires InFrame(i, j)
    ensures Has(0xffff_ffff_ffff_ffff, i, j)
  {
    NotZero();
    HasNot(0, i, j);
    BitZero(63 - (8 * i + j));
  }

  /** All ones translated by (-2, -1) (mask_test.go:42-45). */
  lemma TranslateExampleUpLeft()
    ensures Translated(0xffff_ffff_ffff_ffff, -2, -1) == 0xfefe_fefe_fefe_0000
  {
    ExampleUpLeft();
    forall i, j | InFrame(i, j)
      ensures Has(Translated(0xffff_ffff_ffff_ffff, -2, -1), i, j) == Has(0xfefe_fefe_fefe_0000, i, j)
    {
      TranslatedCells(0xffff_ffff_ffff_ffff, -2, -1, i, j);
      if InFrame(i + 2, j + 1) {
        AllOnesCells(i + 2, j + 1);
      }
      RowBlockCells(0xfe, 6, 2, i, j);
      ExampleBytes(7 - j);
    }
    CellsDetermine(Translated(0xffff_ffff_ffff_ffff, -2, -1), 0xfefe_fefe_fefe_0000);
  }

  /** The upper left 4x4 block translated by (4, 4) and by (4, 5) (mask_test.go:47-55). */
  lemma TranslateExampleDownRight(col: int)
    requires col == 4 || col == 5
    ensures Translated(0xf0f0_f0f0_0000_0000, 4, col) == if col == 4 then 0x0000_0000_0f0f_0f0f else 0x0000_0000_0707_0707
  {
    ExampleTopLeft();
    ExampleBottomRight();
    var b := if col == 4 then 0x0f else 0x07;
    forall i, j | InFrame(i, j)
      ensures Has(Translated(0xf0f0_f0f0_0000_0000, 4, col), i, j) == Has(Repeat(b, 4), i, j)
    {
      TranslatedCells(0xf0f0_f0f0_0000_0000, 4, col, i, j);
      if InFrame(i - 4, j - col) {
        RowBlockCells(0xf0, 4, 4, i - 4, j - col);
        ExampleBytes(7 - (j - col));
      }
      RepeatCells(b, 4, i, j);
      ExampleBytes(7 - j);
    }
    CellsDetermine(Translated(0xf0f0_f0f0_0000_0000, 4, col), Repeat(b, 4));
  }
}
