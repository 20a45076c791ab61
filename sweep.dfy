/**
 * The loops of the board code that append to a list while sweeping a range:
 * a left fold of list-valued steps, the offsets of two nested counting
 * loops, and the loops themselves, proved equal to the folds.  The step a
 * loop performs at each element is a function argument, so each loop is
 * proved once for the three sweeps of board/board.go.
 */
module Sweep {
  /** The lists f gives for the elements of xs, joined in order: what a loop over xs appends. */
  function Collect<X, Y>(xs: seq<X>, f: X -> seq<Y>): seq<Y>
  {
    if |xs| == 0 then [] else Collect(xs[..|xs| - 1], f) + f(xs[|xs| - 1])
  }

  lemma {:induction false} CollectAppend<X, Y>(xs: seq<X>, ys: seq<X>, f: X -> seq<Y>)
    ensures Collect(xs + ys, f) == Collect(xs, f) + Collect(ys, f)
    decreases |ys|
  {
    if |ys| == 0 {
      assert xs + ys == xs;
    } else {
      var init := ys[..|ys| - 1];
      assert (xs + ys)[..|xs + ys| - 1] == xs + init;
      CollectAppend(xs, init, f);
    }
  }

  /** One more pass of a loop over xs that appends to acc. */
  lemma CollectStep<X, Y>(acc: seq<Y>, xs: seq<X>, i: int, f: X -> seq<Y>)
    requires 0 <= i < |xs|
    ensures acc + Collect(xs[..i + 1], f) == (acc + Collect(xs[..i], f)) + f(xs[i])
  {
    assert xs[..i + 1][..i] == xs[..i];
  }

  lemma CollectAll<X, Y>(xs: seq<X>, f: X -> seq<Y>)
    ensures Collect(xs[..|xs|], f) == Collect(xs, f)
  {
    assert xs[..|xs|] == xs;
  }

  lemma {:induction false} CollectMember<X, Y>(xs: seq<X>, f: X -> seq<Y>, y: Y)
    ensures y in Collect(xs, f) <==> exists i | 0 <= i < |xs| :: y in f(xs[i])
    decreases |xs|
  {
    if |xs| > 0 {
      var init := xs[..|xs| - 1];
      CollectMember(init, f, y);
      if y in Collect(init, f) {
        var i :| 0 <= i < |init| && y in f(init[i]);
        assert xs[i] == init[i];
      }
      if exists i | 0 <= i < |xs| :: y in f(xs[i]) {
        var i :| 0 <= i < |xs| && y in f(xs[i]);
        if i < |init| {
          assert init[i] == xs[i];
        }
      }
    }
  }

  /** The lists parts gives for 0, 1, ..., n - 1, joined in order: what a counting loop appends. */
  function Concat<Y>(parts: int -> seq<Y>, n: int): seq<Y>
    decreases n
  {
    if n <= 0 then [] else Concat(parts, n - 1) + parts(n - 1)
  }

  /** Every element of the joined lists comes from one of them. */
  lemma {:induction false} ConcatWitness<Y>(parts: int -> seq<Y>, n: int, y: Y) returns (k: int)
    requires y in Concat(parts, n)
    ensures 0 <= k < n && y in parts(k)
    decreases n
  {
    if y in Concat(parts, n - 1) {
      k := ConcatWitness(parts, n - 1, y);
    } else {
      k := n - 1;
    }
  }

  /** Every element of one of the lists is in the joined list. */
  lemma {:induction false} ConcatHit<Y>(parts: int -> seq<Y>, n: int, k: int, y: Y)
    requires 0 <= k < n && y in parts(k)
    ensures y in Concat(parts, n)
    decreases n
  {
    if k < n - 1 {
      ConcatHit(parts, n - 1, k, y);
    }
  }

  /** A (row, column) offset a shape is moved by. */
  type Offset = (int, int)

  /** Row r, columns lo to hi - 1, in order. */
  function RowSpan(r: int, lo: int, hi: int): seq<Offset>
    decreases hi - lo
  {
    if hi <= lo then [] else RowSpan(r, lo, hi - 1) + [(r, hi - 1)]
  }

  /** Rows rlo to rhi - 1, each with columns clo to chi - 1, row by row: the offsets two nested counting loops visit. */
  function Span(rlo: int, rhi: int, clo: int, chi: int): seq<Offset>
    decreases rhi - rlo
  {
    if rhi <= rlo then [] else Span(rlo, rhi - 1, clo, chi) + RowSpan(rhi - 1, clo, chi)
  }

  /** One more pass of a column loop that appends to acc. */
  lemma RowStep<Y>(acc: seq<Y>, r: int, lo: int, c: int, f: Offset -> seq<Y>)
    requires lo <= c
    ensures acc + Collect(RowSpan(r, lo, c + 1), f) == (acc + Collect(RowSpan(r, lo, c), f)) + f((r, c))
  {
    CollectAppend(RowSpan(r, lo, c), [(r, c)], f);
    assert Collect([(r, c)], f) == f((r, c));
  }

  /** One more pass of a row loop that appends to acc. */
  lemma RowsStep<Y>(acc: seq<Y>, rlo: int, r: int, clo: int, chi: int, f: Offset -> seq<Y>)
    requires rlo <= r
    ensures acc + Collect(Span(rlo, r + 1, clo, chi), f) == (acc + Collect(Span(rlo, r, clo, chi), f)) + Collect(RowSpan(r, clo, chi), f)
  {
    CollectAppend(Span(rlo, r, clo, chi), RowSpan(r, clo, chi), f);
  }

  lemma {:induction false} RowSpanMembers(r: int, lo: int, hi: int)
    decreases hi - lo
    ensures |RowSpan(r, lo, hi)| == if hi <= lo then 0 else hi - lo
    ensures forall k | 0 <= k < |RowSpan(r, lo, hi)| :: RowSpan(r, lo, hi)[k] == (r, lo + k)
  {
    if lo < hi {
      RowSpanMembers(r, lo, hi - 1);
    }
  }

  /** An offset is visited exactly when both its row and its column are in range. */
  lemma {:induction false} SpanMembers(rlo: int, rhi: int, clo: int, chi: int, x: Offset)
    ensures x in Span(rlo, rhi, clo, chi) <==> rlo <= x.0 < rhi && clo <= x.1 < chi
    decreases rhi - rlo
  {
    if rlo < rhi {
      SpanMembers(rlo, rhi - 1, clo, chi, x);
      RowSpanMembers(rhi - 1, clo, chi);
      if x.0 == rhi - 1 && clo <= x.1 < chi {
        assert RowSpan(rhi - 1, clo, chi)[x.1 - clo] == x;
      }
    }
  }

  // ---------------------------------------------------------------------
  // The loops
  // ---------------------------------------------------------------------

  /** `for c := lo; c < hi; c++ { out = append(out, f((r, c))...) }`. */
  method SweepRow<Y>(acc: seq<Y>, f: Offset -> seq<Y>, r: int, lo: int, hi: int) returns (out: seq<Y>)
    ensures out == acc + Collect(RowSpan(r, lo, hi), f)
  {
    out := acc;
    var c := lo;
    while c < hi
      invariant lo <= c && (c <= hi || c == lo)
      invariant out == acc + Collect(RowSpan(r, lo, c), f)
    {
      RowStep(acc, r, lo, c, f);
      out := out + f((r, c));
      c := c + 1;
    }
  }

  /** The same column loop nested in `for r := rlo; r < rhi; r++`. */
  method SweepRows<Y>(acc: seq<Y>, f: Offset -> seq<Y>, rlo: int, rhi: int, clo: int, chi: int) returns (out: seq<Y>)
    ensures out == acc + Collect(Span(rlo, rhi, clo, chi), f)
  {
    out := acc;
    var r := rlo;
    while r < rhi
      invariant rlo <= r && (r <= rhi || r == rlo)
      invariant out == acc + Collect(Span(rlo, r, clo, chi), f)
    {
      RowsStep(acc, rlo, r, clo, chi, f);
      out := SweepRow(out, f, r, clo, chi);
      r := r + 1;
    }
  }

  /** `for _, x := range xs { out = append(out, f(x)...) }`. */
  method Each<X, Y>(acc: seq<Y>, xs: seq<X>, f: X -> seq<Y>) returns (out: seq<Y>)
    ensures out == acc + Collect(xs, f)
  {
    out := acc;
    for i := 0 to |xs|
      invariant out == acc + Collect(xs[..i], f)
    {
      CollectStep(acc, xs, i, f);
      out := out + f(xs[i]);
    }
    CollectAll(xs, f);
  }

  // ---------------------------------------------------------------------
  // Sweeping each shape of a list over its own window
  // ---------------------------------------------------------------------

  /** The rows rlo to rhi - 1 and columns clo to chi - 1 a shape is moved over. */
  datatype Window = Window(rlo: int, rhi: int, clo: int, chi: int)

  function Cells(w: Window): seq<Offset>
  {
    Span(w.rlo, w.rhi, w.clo, w.chi)
  }

  /** What the two counting loops append for x: f(x) at every offset of x's window. */
  function SweepOf<X, Y>(window: X -> Window, f: X -> Offset -> seq<Y>): X -> seq<Y>
  {
    (x: X) => Collect(Cells(window(x)), f(x))
  }

  /** What a loop over zs nested in a loop over xs appends for x. */
  function Pairs<X, Z, Y>(zs: seq<Z>, f: X -> Z -> seq<Y>): X -> seq<Y>
  {
    (x: X) => Collect(zs, f(x))
  }

  /** `for _, x := range xs { for r ... { for c ... { out = append(out, f(x)((r, c))...) } } }`. */
  method SweepAll<X, Y>(acc: seq<Y>, xs: seq<X>, window: X -> Window, f: X -> Offset -> seq<Y>) returns (out: seq<Y>)
    ensures out == acc + Collect(xs, SweepOf(window, f))
  {
    out := acc;
    for i := 0 to |xs|
      invariant out == acc + Collect(xs[..i], SweepOf(window, f))
    {
      CollectStep(acc, xs, i, SweepOf(window, f));
      var w := window(xs[i]);
      out := SweepRows(out, f(xs[i]), w.rlo, w.rhi, w.clo, w.chi);
    }
    CollectAll(xs, SweepOf(window, f));
  }

  /** `for _, x := range xs { for _, z := range zs { out = append(out, f(x)(z)...) } }`. */
  method EachPair<X, Z, Y>(acc: seq<Y>, xs: seq<X>, zs: seq<Z>, f: X -> Z -> seq<Y>) returns (out: seq<Y>)
    ensures out == acc + Collect(xs, Pairs(zs, f))
  {
    out := acc;
    for i := 0 to |xs|
      invariant out == acc + Collect(xs[..i], Pairs(zs, f))
    {
      CollectStep(acc, xs, i, Pairs(zs, f));
      out := Each(out, zs, f(xs[i]));
    }
    CollectAll(xs, Pairs(zs, f));
  }

  // ---------------------------------------------------------------------
  // What the sweeps contain
  // ---------------------------------------------------------------------

  /** An element swept for x comes from f(x) at some offset of x's window. */
  lemma WindowWitness<X, Y>(window: X -> Window, f: X -> Offset -> seq<Y>, x: X, y: Y) returns (r: int, c: int)
    requires y in SweepOf(window, f)(x)
    ensures window(x).rlo <= r < window(x).rhi && window(x).clo <= c < window(x).chi && y in f(x)((r, c))
  {
    var w := window(x);
    var g := f(x);
    assert SweepOf(window, f)(x) == Collect(Cells(w), g);
    CollectMember(Cells(w), g, y);
    var k :| 0 <= k < |Cells(w)| && y in g(Cells(w)[k]);
    SpanMembers(w.rlo, w.rhi, w.clo, w.chi, Cells(w)[k]);
    r, c := Cells(w)[k].0, Cells(w)[k].1;
  }

  /** Whatever f(x) yields at an offset of x's window is swept for x. */
  lemma WindowHit<X, Y>(window: X -> Window, f: X -> Offset -> seq<Y>, x: X, r: int, c: int, y: Y)
    requires window(x).rlo <= r < window(x).rhi && window(x).clo <= c < window(x).chi && y in f(x)((r, c))
    ensures y in SweepOf(window, f)(x)
  {
    var w := window(x);
    var g := f(x);
    assert SweepOf(window, f)(x) == Collect(Cells(w), g);
    SpanMembers(w.rlo, w.rhi, w.clo, w.chi, (r, c));
    CollectMember(Cells(w), g, y);
    var k :| 0 <= k < |Cells(w)| && Cells(w)[k] == (r, c);
  }

  /** An element swept comes from some x of xs at some offset of its window. */
  lemma SweepWitness<X, Y>(xs: seq<X>, window: X -> Window, f: X -> Offset -> seq<Y>, y: Y) returns (x: X, r: int, c: int)
    requires y in Collect(xs, SweepOf(window, f))
    ensures x in xs && window(x).rlo <= r < window(x).rhi && window(x).clo <= c < window(x).chi && y in f(x)((r, c))
  {
    CollectMember(xs, SweepOf(window, f), y);
    var i :| 0 <= i < |xs| && y in SweepOf(window, f)(xs[i]);
    x := xs[i];
    r, c := WindowWitness(window, f, x, y);
  }

  /** Whatever f yields for an x of xs at an offset of its window is swept. */
  lemma SweepHit<X, Y>(xs: seq<X>, window: X -> Window, f: X -> Offset -> seq<Y>, x: X, r: int, c: int, y: Y)
    requires x in xs && window(x).rlo <= r < window(x).rhi && window(x).clo <= c < window(x).chi && y in f(x)((r, c))
    ensures y in Collect(xs, SweepOf(window, f))
  {
    WindowHit(window, f, x, r, c, y);
    CollectMember(xs, SweepOf(window, f), y);
    var i :| 0 <= i < |xs| && xs[i] == x;
  }

  /** y is collected exactly when it comes from some pair of an x of xs and a z of zs. */
  lemma PairsMember<X, Z, Y>(xs: seq<X>, zs: seq<Z>, f: X -> Z -> seq<Y>, y: Y)
    ensures y in Collect(xs, Pairs(zs, f)) <==> exists i, j | 0 <= i < |xs| && 0 <= j < |zs| :: y in f(xs[i])(zs[j])
  {
    CollectMember(xs, Pairs(zs, f), y);
    forall i | 0 <= i < |xs|
      ensures y in Pairs(zs, f)(xs[i]) <==> exists j | 0 <= j < |zs| :: y in f(xs[i])(zs[j])
    {
      CollectMember(zs, f(xs[i]), y);
    }
  }

  /** An element collected over pairs comes from some x of xs and z of zs. */
  lemma PairsWitness<X, Z, Y>(xs: seq<X>, zs: seq<Z>, f: X -> Z -> seq<Y>, y: Y) returns (x: X, z: Z)
    requires y in Collect(xs, Pairs(zs, f))
    ensures x in xs && z in zs && y in f(x)(z)
  {
    PairsMember(xs, zs, f, y);
    var i, j :| 0 <= i < |xs| && 0 <= j < |zs| && y in f(xs[i])(zs[j]);
    x, z := xs[i], zs[j];
  }

  /** Whatever f yields for an x of xs and a z of zs is collected. */
  lemma PairsHit<X, Z, Y>(xs: seq<X>, zs: seq<Z>, f: X -> Z -> seq<Y>, x: X, z: Z, y: Y)
    requires x in xs && z in zs && y in f(x)(z)
    ensures y in Collect(xs, Pairs(zs, f))
  {
    PairsMember(xs, zs, f, y);
    var i :| 0 <= i < |xs| && xs[i] == x;
    var j :| 0 <= j < |zs| && zs[j] == z;
  }
}
