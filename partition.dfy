/** The extent partitioner of `vtpk_export`: one axis `[lo, hi]` of an
    extent is cut into `fctr` equal, contiguous spans. Coordinates are exact
    reals here, so contiguity and coverage hold exactly. */
module Partition {
  import opened Common

  /** One interval of an axis, the pair `(start, end)` the source builds. */
  datatype Span = Span(start: real, end: real)

  predicate InSpan(sp: Span, x: real) {
    sp.start <= x <= sp.end
  }

  /** Each span ends where the next one starts. */
  predicate Contiguous(spans: seq<Span>) {
    forall i :: 0 <= i < |spans| - 1 ==> spans[i].end == spans[i + 1].start
  }

  predicate Ascending(spans: seq<Span>) {
    forall i :: 0 <= i < |spans| ==> spans[i].start <= spans[i].end
  }

  /** `_slice_extent_axis(lo, hi, fctr)`: span `i` runs from `lo + i * stride`
      to `hi - (fctr - i - 1) * stride`, with `stride = (hi - lo) / fctr`.
      A zero factor makes the stride a division by zero. */
  function SliceAxis(lo: real, hi: real, fctr: nat): (r: Result<seq<Span>>)
    ensures r.Failure? <==> fctr == 0
    ensures r.Failure? ==> r.error == ZeroDivision
    ensures r.Success? ==> |r.value| == fctr && r.value[0].start == lo && r.value[fctr - 1].end == hi
  {
    if fctr == 0 then Failure(ZeroDivision)
    else
      var stride := (hi - lo) / fctr as real;
      Success(seq(fctr, i requires 0 <= i < fctr => Span(lo + i as real * stride, hi - (fctr - i - 1) as real * stride)))
  }

  /** Span `i` is `[lo + i * w, lo + (i + 1) * w]` with `w = (hi - lo) / fctr`:
      the source's end formula, written from `hi`, agrees with the one written
      from `lo`. */
  lemma SpanAt(lo: real, hi: real, fctr: nat, i: nat)
    requires i < fctr
    ensures var w := (hi - lo) / fctr as real;
      && SliceAxis(lo, hi, fctr).value[i].start == lo + i as real * w
      && SliceAxis(lo, hi, fctr).value[i].end == lo + (i + 1) as real * w
  {
    var f := fctr as real;
    var w := (hi - lo) / f;
    assert f * w == hi - lo;
    calc {
      hi - (fctr - i - 1) as real * w;
      hi - (f - i as real - 1.0) * w;
      hi - f * w + (i as real + 1.0) * w;
      lo + (i + 1) as real * w;
    }
  }

  /** The end of span `i` is the start of span `i + 1`, whatever the order of
      `lo` and `hi`. */
  lemma SliceContiguous(lo: real, hi: real, fctr: nat)
    requires fctr >= 1
    ensures Contiguous(SliceAxis(lo, hi, fctr).value)
  {
    var spans := SliceAxis(lo, hi, fctr).value;
    forall i | 0 <= i < fctr - 1
      ensures spans[i].end == spans[i + 1].start
    {
      SpanAt(lo, hi, fctr, i);
      SpanAt(lo, hi, fctr, i + 1);
    }
  }

  /** Every span has width `(hi - lo) / fctr`, so it is non-empty and
      increasing exactly when `lo < hi`. */
  lemma SliceWidth(lo: real, hi: real, fctr: nat, i: nat)
    requires i < fctr
    ensures var sp := SliceAxis(lo, hi, fctr).value[i];
      && sp.end - sp.start == (hi - lo) / fctr as real
      && (sp.start < sp.end <==> lo < hi)
  {
    SpanAt(lo, hi, fctr, i);
    var f := fctr as real;
    var w := (hi - lo) / f;
    assert (i + 1) as real * w - i as real * w == w;
    assert w > 0.0 <==> hi - lo > 0.0 by {
      assert f * w == hi - lo;
    }
  }

  /** For `lo <= hi` the spans are ordered and meet only at shared end points:
      a span ends no later than any later span starts. */
  lemma SliceNoOverlap(lo: real, hi: real, fctr: nat, i: nat, j: nat)
    requires lo <= hi && i < j < fctr
    ensures SliceAxis(lo, hi, fctr).value[i].end <= SliceAxis(lo, hi, fctr).value[j].start
  {
    SpanAt(lo, hi, fctr, i);
    SpanAt(lo, hi, fctr, j);
    var w := (hi - lo) / fctr as real;
    assert w >= 0.0;
    assert ((j - (i + 1)) as real) * w >= 0.0;
  }

  /** A contiguous chain of ascending spans covers every point between its
      first start and its last end. */
  lemma {:induction false} ChainCovers(spans: seq<Span>, x: real)
    requires |spans| > 0 && Contiguous(spans) && Ascending(spans)
    requires spans[0].start <= x <= spans[|spans| - 1].end
    ensures exists i :: 0 <= i < |spans| && InSpan(spans[i], x)
  {
    if x <= spans[0].end {
      assert InSpan(spans[0], x);
    } else {
      var rest := spans[1..];
      assert rest[0].start == spans[0].end;
      ChainCovers(rest, x);
      var i :| 0 <= i < |rest| && InSpan(rest[i], x);
      assert InSpan(spans[i + 1], x);
    }
  }

  /** For `lo <= hi` every point of `[lo, hi]` lies in some span: the slicing
      leaves no gap. */
  lemma SliceCovers(lo: real, hi: real, fctr: nat, x: real)
    requires fctr >= 1 && lo <= x <= hi
    ensures exists i :: 0 <= i < fctr && InSpan(SliceAxis(lo, hi, fctr).value[i], x)
  {
    var spans := SliceAxis(lo, hi, fctr).value;
    SliceContiguous(lo, hi, fctr);
    forall i | 0 <= i < fctr
      ensures spans[i].start <= spans[i].end
    {
      SliceWidth(lo, hi, fctr, i);
    }
    ChainCovers(spans, x);
  }

  /** On an axis of positive length, distinct spans start at distinct points. */
  lemma SliceStartsDiffer(lo: real, hi: real, fctr: nat, i: nat, j: nat)
    requires lo < hi && i < fctr && j < fctr && i != j
    ensures SliceAxis(lo, hi, fctr).value[i].start != SliceAxis(lo, hi, fctr).value[j].start
  {
    var w := (hi - lo) / fctr as real;
    assert w > 0.0;
    MulDistinct(i as real, j as real, w);
  }

  lemma MulDistinct(a: real, b: real, w: real)
    requires a != b && w != 0.0
    ensures a * w != b * w
  {
    assert (a - b) * w == a * w - b * w;
    assert (a - b) * w != 0.0;
  }
}
