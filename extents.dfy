/** Extents as the source handles them: dictionaries with the keys `xmin`,
    `ymin`, `xmax`, `ymax` and `spatialReference`. `_new_extent` copies one
    and overwrites the coordinates it is given; the fan-out pairs every x-span
    with every y-span, in `itertools.product` order. */
module Extents {
  import opened Common
  import opened Partition

  type Extent = map<string, Value>

  /** The coordinate keys, in the order `_new_extent` declares its parameters. */
  const COORD_KEYS: seq<string> := ["xmin", "ymin", "xmax", "ymax"]

  /** One step of `_new_extent`'s loop: a coordinate that is not `None`
      replaces (or adds) that key. */
  function Override(ext: Extent, key: string, v: Option<real>): Extent {
    if v.Some? then ext[key := Num(v.value)] else ext
  }

  /** The loop applied to a prefix of its `(key, argument)` pairs. */
  function OverrideAll(ext: Extent, args: seq<(string, Option<real>)>): Extent {
    if args == [] then ext
    else Override(OverrideAll(ext, args[..|args| - 1]), args[|args| - 1].0, args[|args| - 1].1)
  }

  function CoordArgs(xmin: Option<real>, ymin: Option<real>, xmax: Option<real>, ymax: Option<real>): seq<(string, Option<real>)> {
    [(COORD_KEYS[0], xmin), (COORD_KEYS[1], ymin), (COORD_KEYS[2], xmax), (COORD_KEYS[3], ymax)]
  }

  /** The extent `_new_extent(ext, xmin, ymin, xmax, ymax)` returns: only the
      coordinates that are given change; every other key (the spatial
      reference among them) keeps its value, and no key disappears. */
  function WithCoords(ext: Extent, xmin: Option<real>, ymin: Option<real>, xmax: Option<real>, ymax: Option<real>): (r: Extent)
    ensures Overridden(ext, r, "xmin", xmin)
    ensures Overridden(ext, r, "ymin", ymin)
    ensures Overridden(ext, r, "xmax", xmax)
    ensures Overridden(ext, r, "ymax", ymax)
    ensures ext.Keys <= r.Keys
    ensures forall k :: k in r && k !in COORD_KEYS ==> k in ext && r[k] == ext[k]
  {
    var args := CoordArgs(xmin, ymin, xmax, ymax);
    FoldCoordArgs(ext, xmin, ymin, xmax, ymax);
    CoordKeysDistinct();
    OverrideAll(ext, args)
  }

  /** What the key `key` holds after overriding with argument `v`. */
  predicate Overridden(ext: Extent, r: Extent, key: string, v: Option<real>) {
    if v.Some? then key in r && r[key] == Num(v.value)
    else (key in r <==> key in ext) && (key in ext ==> r[key] == ext[key])
  }

  /** The loop's four steps, one per coordinate key in parameter order. */
  lemma FoldCoordArgs(ext: Extent, xmin: Option<real>, ymin: Option<real>, xmax: Option<real>, ymax: Option<real>)
    ensures OverrideAll(ext, CoordArgs(xmin, ymin, xmax, ymax))
      == Override(Override(Override(Override(ext, "xmin", xmin), "ymin", ymin), "xmax", xmax), "ymax", ymax)
  {
    var args := CoordArgs(xmin, ymin, xmax, ymax);
    var m1 := Override(ext, "xmin", xmin);
    var m2 := Override(m1, "ymin", ymin);
    var m3 := Override(m2, "xmax", xmax);
    assert args[..1][..0] == [];
    assert OverrideAll(ext, args[..1]) == m1;
    assert args[..2][..1] == args[..1];
    assert OverrideAll(ext, args[..2]) == m2;
    assert args[..3][..2] == args[..2];
    assert OverrideAll(ext, args[..3]) == m3;
    assert args[..3] == args[..|args| - 1];
  }

  lemma CoordKeysDistinct()
    ensures "xmin" != "ymin" && "xmin" != "xmax" && "xmin" != "ymax"
    ensures "ymin" != "xmax" && "ymin" != "ymax" && "xmax" != "ymax"
  {
    assert "xmin"[0] != "ymin"[0] && "xmin"[2] != "xmax"[2] && "xmin"[0] != "ymax"[0];
    assert "ymin"[0] != "xmax"[0] && "ymin"[2] != "ymax"[2] && "xmax"[0] != "ymax"[0];
  }

  /** `_new_extent`: copy the extent, then overwrite each coordinate key whose
      argument is not `None`, in parameter order. The copy is a fresh value, so
      the caller's extent is never changed. */
  method NewExtent(ext: Extent, xmin: Option<real>, ymin: Option<real>, xmax: Option<real>, ymax: Option<real>)
    returns (newExt: Extent)
    ensures newExt == WithCoords(ext, xmin, ymin, xmax, ymax)
  {
    var args := CoordArgs(xmin, ymin, xmax, ymax);
    newExt := ext;
    var i := 0;
    while i < |args|
      invariant 0 <= i <= |args|
      invariant newExt == OverrideAll(ext, args[..i])
    {
      var (key, v) := args[i];
      if v.Some? {
        newExt := newExt[key := Num(v.value)];
      }
      assert args[..i + 1][..i] == args[..i];
      i := i + 1;
    }
    assert args[..|args|] == args;
  }

  /** `itertools.product(xs, ys)`: the first factor varies slowest. */
  function Product<A, B>(xs: seq<A>, ys: seq<B>): (r: seq<(A, B)>)
    ensures forall p :: p in r ==> p.0 in xs && p.1 in ys
  {
    if xs == [] then []
    else seq(|ys|, j requires 0 <= j < |ys| => (xs[0], ys[j])) + Product(xs[1..], ys)
  }

  /** The product has `|xs| * |ys|` entries and pair `(i, j)` sits at
      `i * |ys| + j`, so every pair of positions appears exactly once. */
  lemma {:induction false} ProductAt<A, B>(xs: seq<A>, ys: seq<B>, i: nat, j: nat)
    requires i < |xs| && j < |ys|
    ensures |Product(xs, ys)| == |xs| * |ys|
    ensures i * |ys| + j < |xs| * |ys|
    ensures Product(xs, ys)[i * |ys| + j] == (xs[i], ys[j])
  {
    if i == 0 {
      ProductLength(xs, ys);
    } else {
      ProductAt(xs[1..], ys, i - 1, j);
      ProductLength(xs, ys);
      assert i * |ys| + j == |ys| + ((i - 1) * |ys| + j);
    }
  }

  lemma {:induction false} ProductLength<A, B>(xs: seq<A>, ys: seq<B>)
    ensures |Product(xs, ys)| == |xs| * |ys|
  {
    if xs != [] {
      ProductLength(xs[1..], ys);
      assert |xs| * |ys| == |ys| + (|xs| - 1) * |ys|;
    }
  }

  /** Conversely, entry `k` of the product is the pair of positions
      `(k / |ys|, k % |ys|)`. */
  lemma ProductIndex<A, B>(xs: seq<A>, ys: seq<B>, k: nat)
    requires k < |Product(xs, ys)|
    ensures |ys| > 0 && k / |ys| < |xs|
    ensures Product(xs, ys)[k] == (xs[k / |ys|], ys[k % |ys|])
  {
    ProductLength(xs, ys);
    var n := |ys|;
    assert n > 0 by {
      MulZero(|xs|, n);
    }
    DivModBounds(k, n, |xs|);
    ProductAt(xs, ys, k / n, k % n);
  }

  /** `k = (k / n) * n + k % n` with both parts in range when `k < m * n`. */
  lemma DivModBounds(k: nat, n: nat, m: nat)
    requires n > 0 && k < m * n
    ensures k == (k / n) * n + k % n
    ensures 0 <= k / n < m && 0 <= k % n < n
  {
    var i := k / n;
    if i >= m {
      MulMonotone(m, i, n);
    }
  }

  lemma MulZero(a: nat, n: nat)
    ensures n == 0 ==> a * n == 0
  {
  }

  lemma MulMonotone(a: nat, b: nat, n: nat)
    requires a <= b
    ensures a * n <= b * n
  {
  }

  /** The extent the fan-out builds for one pair of spans:
      `_new_extent(extent, x[0], y[0], x[1], y[1])`. It takes its four
      coordinates from its two spans and keeps every other key of the extent. */
  function Cell(ext: Extent, x: Span, y: Span): (c: Extent)
    ensures "xmin" in c && "ymin" in c && "xmax" in c && "ymax" in c
    ensures c["xmin"] == Num(x.start) && c["xmax"] == Num(x.end)
    ensures c["ymin"] == Num(y.start) && c["ymax"] == Num(y.end)
    ensures ext.Keys <= c.Keys
    ensures forall k :: k in c && k !in COORD_KEYS ==> k in ext && c[k] == ext[k]
  {
    WithCoords(ext, Some(x.start), Some(y.start), Some(x.end), Some(y.end))
  }

  /** The list comprehension over `itertools.product(x_slc, y_slc)`. */
  function Subextents(ext: Extent, xs: seq<Span>, ys: seq<Span>): (r: seq<Extent>)
    ensures |r| == |xs| * |ys|
  {
    ProductLength(xs, ys);
    var pairs := Product(xs, ys);
    seq(|pairs|, k requires 0 <= k < |pairs| => Cell(ext, pairs[k].0, pairs[k].1))
  }

  /** The sub-extents for the slices of `[xlo, xhi]` and `[ylo, yhi]` into
      `f` spans each. */
  function Grid(ext: Extent, xlo: real, xhi: real, ylo: real, yhi: real, f: nat): (r: seq<Extent>)
    requires f >= 1
    ensures |r| == f * f
  {
    Subextents(ext, SliceAxis(xlo, xhi, f).value, SliceAxis(ylo, yhi, f).value)
  }

  /** The grid has `f * f` cells; the cell at `i * f + j` takes its x-span from
      slice `i` and its y-span from slice `j`. */
  lemma GridCell(ext: Extent, xlo: real, xhi: real, ylo: real, yhi: real, f: nat, i: nat, j: nat)
    requires f >= 1 && i < f && j < f
    ensures |Grid(ext, xlo, xhi, ylo, yhi, f)| == f * f
    ensures i * f + j < f * f
    ensures Grid(ext, xlo, xhi, ylo, yhi, f)[i * f + j]
      == Cell(ext, SliceAxis(xlo, xhi, f).value[i], SliceAxis(ylo, yhi, f).value[j])
  {
    ProductAt(SliceAxis(xlo, xhi, f).value, SliceAxis(ylo, yhi, f).value, i, j);
  }

  /** `(x, y)` lies within the coordinates of the extent `c`. */
  predicate InCell(c: Extent, x: real, y: real) {
    && "xmin" in c && "xmax" in c && "ymin" in c && "ymax" in c
    && c["xmin"].Num? && c["xmax"].Num? && c["ymin"].Num? && c["ymax"].Num?
    && c["xmin"].n <= x <= c["xmax"].n && c["ymin"].n <= y <= c["ymax"].n
  }

  /** The cells cover the whole rectangle: every point of it lies in some cell. */
  lemma GridCovers(ext: Extent, xlo: real, xhi: real, ylo: real, yhi: real, f: nat, x: real, y: real)
    requires f >= 1 && xlo <= x <= xhi && ylo <= y <= yhi
    ensures exists k :: 0 <= k < |Grid(ext, xlo, xhi, ylo, yhi, f)| && InCell(Grid(ext, xlo, xhi, ylo, yhi, f)[k], x, y)
  {
    var xs := SliceAxis(xlo, xhi, f).value;
    var ys := SliceAxis(ylo, yhi, f).value;
    SliceCovers(xlo, xhi, f, x);
    SliceCovers(ylo, yhi, f, y);
    var i :| 0 <= i < f && InSpan(xs[i], x);
    var j :| 0 <= j < f && InSpan(ys[j], y);
    GridCell(ext, xlo, xhi, ylo, yhi, f, i, j);
    assert InCell(Grid(ext, xlo, xhi, ylo, yhi, f)[i * f + j], x, y);
  }

  /** When both axes have positive length no two cells are equal: each
      (x-span, y-span) pair occurs exactly once. */
  lemma GridDistinct(ext: Extent, xlo: real, xhi: real, ylo: real, yhi: real, f: nat, k1: nat, k2: nat)
    requires f >= 1 && xlo < xhi && ylo < yhi
    requires k1 < k2 < |Grid(ext, xlo, xhi, ylo, yhi, f)|
    ensures Grid(ext, xlo, xhi, ylo, yhi, f)[k1] != Grid(ext, xlo, xhi, ylo, yhi, f)[k2]
  {
    var xs := SliceAxis(xlo, xhi, f).value;
    var ys := SliceAxis(ylo, yhi, f).value;
    var i1, j1 := GridPosition(ext, xlo, xhi, ylo, yhi, f, k1);
    var i2, j2 := GridPosition(ext, xlo, xhi, ylo, yhi, f, k2);
    CellStarts(ext, xs[i1], ys[j1], xs[i2], ys[j2]);
    if i1 != i2 {
      SliceStartsDiffer(xlo, xhi, f, i1, i2);
    } else {
      SliceStartsDiffer(ylo, yhi, f, j1, j2);
    }
  }

  /** Cell `k` of the grid is at row `i`, column `j` with `k == i * f + j`. */
  lemma GridPosition(ext: Extent, xlo: real, xhi: real, ylo: real, yhi: real, f: nat, k: nat) returns (i: nat, j: nat)
    requires f >= 1 && k < |Grid(ext, xlo, xhi, ylo, yhi, f)|
    ensures i < f && j < f && k == i * f + j
    ensures Grid(ext, xlo, xhi, ylo, yhi, f)[k] == Cell(ext, SliceAxis(xlo, xhi, f).value[i], SliceAxis(ylo, yhi, f).value[j])
  {
    var xs := SliceAxis(xlo, xhi, f).value;
    var ys := SliceAxis(ylo, yhi, f).value;
    ProductIndex(xs, ys, k);
    ProductLength(xs, ys);
    DivModBounds(k, f, f);
    i, j := k / f, k % f;
  }

  /** Equal cells have equal spans' start points. */
  lemma CellStarts(ext: Extent, x1: Span, y1: Span, x2: Span, y2: Span)
    ensures Cell(ext, x1, y1) == Cell(ext, x2, y2) ==> x1.start == x2.start && y1.start == y2.start
  {
  }
}
