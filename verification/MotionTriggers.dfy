/** From motion samples to trigger windows. */
module MotionTriggers {
  import opened Statuses
  import opened Arith
  import opened Orders

  datatype Sample = Sample(ts: int, score: real)

  /** A span of time with the highest score seen in it. */
  datatype Span = Span(start: int, end: int, peak: real)

  predicate Within(s: Span, t: int) {
    s.start <= t < s.end
  }

  predicate EarlierOrSame(a: Sample, b: Sample) {
    a.ts <= b.ts
  }

  ghost predicate Increasing(o: seq<Sample>) {
    forall i, j :: 0 <= i < j < |o| ==> o[i].ts < o[j].ts
  }

  predicate Hot(o: seq<Sample>, threshold: real, j: nat)
    requires j < |o|
  {
    o[j].score >= threshold
  }

  /** The gaps between consecutive samples. */
  function Diffs(o: seq<Sample>): seq<int> {
    if |o| < 2 then [] else Diffs(o[..|o| - 1]) + [o[|o| - 1].ts - o[|o| - 2].ts]
  }

  /** `_median_step`: at least one millisecond. */
  function MedianStep(o: seq<Sample>): (step: int)
    ensures step >= 1
  {
    if |o| < 2 then 1
    else
      var diffs := SortBy(Diffs(o), IntLe);
      if |diffs| == 0 then 1 else Max(1, diffs[|diffs| / 2])
  }

  lemma {:induction false} DiffsMeaning(o: seq<Sample>)
    ensures |Diffs(o)| == if |o| < 2 then 0 else |o| - 1
    ensures forall i :: 0 <= i < |Diffs(o)| ==> Diffs(o)[i] == o[i + 1].ts - o[i].ts
  {
    if |o| >= 2 {
      DiffsMeaning(o[..|o| - 1]);
    }
  }

  /** The step is the median gap between neighbouring samples, the upper one of two, and at
      least one millisecond. */
  ghost predicate IsMedianStep(o: seq<Sample>, step: int) {
    if |o| < 2 then step == 1
    else exists gaps: seq<int> ::
           && multiset(gaps) == multiset(Diffs(o)) && |gaps| == |o| - 1
           && (forall i, j :: 0 <= i < j < |gaps| ==> gaps[i] <= gaps[j])
           && step == Max(1, gaps[|gaps| / 2])
  }

  predicate IntLe(a: int, b: int) { a <= b }

  lemma MedianStepIsMedian(o: seq<Sample>)
    ensures IsMedianStep(o, MedianStep(o))
  {
    if |o| >= 2 {
      DiffsMeaning(o);
      var gaps := SortBy(Diffs(o), IntLe);
      SortBySorts(Diffs(o), IntLe);
      assert forall i, j :: 0 <= i < j < |gaps| ==> IntLe(gaps[i], gaps[j]);
    }
  }

  function SampleEnd(o: seq<Sample>, step: int, i: nat): int
    requires i < |o|
  {
    if i + 1 < |o| then o[i + 1].ts else o[i].ts + step
  }

  // ---- runs of samples above the threshold ---------------------------------------------

  /** A stretch of samples, by index; both ends are above the threshold. */
  datatype Range = Range(first: nat, last: nat)

  predicate RangeOk(o: seq<Sample>, threshold: real, r: Range) {
    r.first <= r.last < |o| && Hot(o, threshold, r.first) && Hot(o, threshold, r.last)
  }

  predicate Holds(r: Range, j: nat) {
    r.first <= j <= r.last
  }

  ghost predicate InSome(rs: seq<Range>, j: nat) {
    exists k :: 0 <= k < |rs| && Holds(rs[k], j)
  }

  /** Separate stretches, in order, with at least one sample between neighbours. */
  ghost predicate Stretches(o: seq<Sample>, threshold: real, rs: seq<Range>) {
    && (forall k :: 0 <= k < |rs| ==> RangeOk(o, threshold, rs[k]))
    && (forall k, l :: 0 <= k < l < |rs| ==> rs[k].last + 1 < rs[l].first)
  }

  /** Exactly the samples above the threshold among the first `n` lie in the runs. */
  ghost predicate ExactlyHot(o: seq<Sample>, threshold: real, n: nat, rs: seq<Range>)
    requires n <= |o|
  {
    forall j: nat :: j < n ==> HeldIffHot(o, threshold, rs, j)
  }

  ghost predicate HeldIffHot(o: seq<Sample>, threshold: real, rs: seq<Range>, j: nat)
    requires j < |o|
  {
    Hot(o, threshold, j) <==> InSome(rs, j)
  }

  /** The highest score above the threshold from `a` to `b`. */
  function PeakOf(o: seq<Sample>, threshold: real, a: nat, b: nat): real
    requires a <= b < |o|
    decreases b
  {
    if a == b then o[a].score
    else
      var p := PeakOf(o, threshold, a, b - 1);
      if Hot(o, threshold, b) then MaxR(p, o[b].score) else p
  }

  /** The peak is attained, and by no sample above the threshold exceeded. */
  lemma {:induction false} PeakIsMaximum(o: seq<Sample>, threshold: real, a: nat, b: nat)
    requires a <= b < |o| && Hot(o, threshold, a)
    ensures exists j :: a <= j <= b && Hot(o, threshold, j) && o[j].score == PeakOf(o, threshold, a, b)
    ensures forall j :: a <= j <= b && Hot(o, threshold, j) ==> o[j].score <= PeakOf(o, threshold, a, b)
    decreases b
  {
    if a < b {
      PeakIsMaximum(o, threshold, a, b - 1);
      var j :| a <= j <= b - 1 && Hot(o, threshold, j) && o[j].score == PeakOf(o, threshold, a, b - 1);
    }
  }

  lemma {:induction false} PeakSplits(o: seq<Sample>, threshold: real, a: nat, b: nat, c: nat, d: nat)
    requires a <= b < c <= d < |o| && Hot(o, threshold, c)
    requires forall j :: b < j < c ==> !Hot(o, threshold, j)
    ensures PeakOf(o, threshold, a, d) == MaxR(PeakOf(o, threshold, a, b), PeakOf(o, threshold, c, d))
    decreases d
  {
    if c < d {
      PeakSplits(o, threshold, a, b, c, d - 1);
    } else {
      PeakOverGap(o, threshold, a, b, c - 1);
    }
  }

  lemma {:induction false} PeakOverGap(o: seq<Sample>, threshold: real, a: nat, b: nat, d: nat)
    requires a <= b <= d < |o|
    requires forall j :: b < j <= d ==> !Hot(o, threshold, j)
    ensures PeakOf(o, threshold, a, d) == PeakOf(o, threshold, a, b)
    decreases d
  {
    if b < d {
      PeakOverGap(o, threshold, a, b, d - 1);
    }
  }

  function SpanOf(o: seq<Sample>, threshold: real, step: int, r: Range): Span
    requires RangeOk(o, threshold, r)
  {
    Span(o[r.first].ts, SampleEnd(o, step, r.last), PeakOf(o, threshold, r.first, r.last))
  }

  ghost predicate SpansOf(o: seq<Sample>, threshold: real, step: int, rs: seq<Range>, spans: seq<Span>)
    requires Stretches(o, threshold, rs)
  {
    |spans| == |rs| && forall k :: 0 <= k < |rs| ==> spans[k] == SpanOf(o, threshold, step, rs[k])
  }

  lemma CloseRun(o: seq<Sample>, threshold: real, rs: seq<Range>, first: nat, i: nat)
    requires first < i <= |o| && Stretches(o, threshold, rs) && ExactlyHot(o, threshold, first, rs)
    requires forall j :: first <= j < i ==> Hot(o, threshold, j)
    requires forall k :: 0 <= k < |rs| ==> rs[k].last + 1 < first
    ensures Stretches(o, threshold, rs + [Range(first, i - 1)])
    ensures ExactlyHot(o, threshold, i, rs + [Range(first, i - 1)])
  {
    var longer := rs + [Range(first, i - 1)];
    forall j: nat | j < i
      ensures HeldIffHot(o, threshold, longer, j)
    {
      if j < first { assert HeldIffHot(o, threshold, rs, j); }
      if j < first {
        if InSome(rs, j) {
          var k :| 0 <= k < |rs| && Holds(rs[k], j);
          assert longer[k] == rs[k];
        }
      } else {
        assert Holds(longer[|rs|], j);
      }
    }
  }

  lemma ColdSample(o: seq<Sample>, threshold: real, rs: seq<Range>, i: nat)
    requires i < |o| && ExactlyHot(o, threshold, i, rs) && !Hot(o, threshold, i)
    requires forall k :: 0 <= k < |rs| ==> rs[k].last < i
    ensures ExactlyHot(o, threshold, i + 1, rs)
  {
    assert !InSome(rs, i);
  }

  /** The runs within the first `n` samples. */
  function RunsUpTo(o: seq<Sample>, threshold: real, step: int, n: nat): seq<Span>
    requires n <= |o|
  {
    if n == 0 then []
    else
      var before := RunsUpTo(o, threshold, step, n - 1);
      var s := o[n - 1];
      if s.score < threshold then before
      else if n >= 2 && before != [] && o[n - 2].score >= threshold then
        var open := before[|before| - 1];
        before[..|before| - 1] + [Span(open.start, SampleEnd(o, step, n - 1), MaxR(open.peak, s.score))]
      else before + [Span(s.ts, SampleEnd(o, step, n - 1), s.score)]
  }

  /** `raw` and the run still open, if any, are the runs within the first `i` samples. */
  ghost predicate ScannedTo(o: seq<Sample>, threshold: real, step: int, i: nat, raw: seq<Span>, open: bool, start: int, peak: real) {
    && i <= |o| && (open ==> i > 0)
    && (i > 0 ==> (open <==> Hot(o, threshold, i - 1)))
    && RunsUpTo(o, threshold, step, i) == if open then raw + [Span(start, SampleEnd(o, step, i - 1), peak)] else raw
  }

  lemma ScanHot(o: seq<Sample>, threshold: real, step: int, i: nat, raw: seq<Span>, open: bool, start: int, peak: real)
    requires ScannedTo(o, threshold, step, i, raw, open, start, peak) && i < |o| && Hot(o, threshold, i)
    ensures if open then ScannedTo(o, threshold, step, i + 1, raw, true, start, MaxR(peak, o[i].score))
            else ScannedTo(o, threshold, step, i + 1, raw, true, o[i].ts, o[i].score)
  {
    if open {
      assert (raw + [Span(start, SampleEnd(o, step, i - 1), peak)])[..|raw|] == raw;
    }
  }

  lemma ScanCold(o: seq<Sample>, threshold: real, step: int, i: nat, raw: seq<Span>, open: bool, start: int, peak: real)
    requires ScannedTo(o, threshold, step, i, raw, open, start, peak) && i < |o| && !Hot(o, threshold, i)
    ensures ScannedTo(o, threshold, step, i + 1, if open then raw + [Span(start, SampleEnd(o, step, i - 1), peak)] else raw, false, start, peak)
  {
  }

  /** The loop that collects runs of consecutive samples above the threshold. */
  method BuildRuns(o: seq<Sample>, threshold: real, step: int) returns (raw: seq<Span>)
    ensures raw == RunsUpTo(o, threshold, step, |o|)
  {
    raw := [];
    var open := false;
    var runStart, runPeak := 0, 0.0;
    for i := 0 to |o|
      invariant ScannedTo(o, threshold, step, i, raw, open, runStart, runPeak)
    {
      if o[i].score >= threshold {
        ScanHot(o, threshold, step, i, raw, open, runStart, runPeak);
        if !open {
          open, runStart, runPeak := true, o[i].ts, o[i].score;
        } else {
          runPeak := MaxR(runPeak, o[i].score);
        }
      } else {
        ScanCold(o, threshold, step, i, raw, open, runStart, runPeak);
        if open {
          raw := raw + [Span(runStart, SampleEnd(o, step, i - 1), runPeak)];
          open := false;
        }
      }
    }
    if open {
      raw := raw + [Span(runStart, SampleEnd(o, step, |o| - 1), runPeak)];
    }
  }

  /** `rs` are the runs among the first `n` samples, the last one possibly still growing. */
  ghost predicate RunsAre(o: seq<Sample>, threshold: real, step: int, n: nat, rs: seq<Range>) {
    && n <= |o| && Stretches(o, threshold, rs) && ExactlyHot(o, threshold, n, rs)
    && (forall k :: 0 <= k < |rs| ==> rs[k].last < n)
    && (n > 0 && Hot(o, threshold, n - 1) ==> rs != [] && rs[|rs| - 1].last == n - 1)
    && SpansOf(o, threshold, step, rs, RunsUpTo(o, threshold, step, n))
  }

  lemma GrowRun(o: seq<Sample>, threshold: real, rs: seq<Range>, n: nat, g: Range)
    requires 0 < n < |o| && Stretches(o, threshold, rs) && ExactlyHot(o, threshold, n, rs) && Hot(o, threshold, n)
    requires rs != [] && rs[|rs| - 1].last == n - 1 && g == Range(rs[|rs| - 1].first, n)
    ensures Stretches(o, threshold, rs[..|rs| - 1] + [g]) && ExactlyHot(o, threshold, n + 1, rs[..|rs| - 1] + [g])
  {
    var m := |rs| - 1;
    var grown := rs[..m] + [g];
    assert RangeOk(o, threshold, rs[m]) && grown[m] == g;
    forall j: nat | j < n + 1
      ensures HeldIffHot(o, threshold, grown, j)
    {
      if j == n {
        assert Holds(grown[m], j);
      } else {
        assert HeldIffHot(o, threshold, rs, j);
        if InSome(rs, j) {
          var k :| 0 <= k < |rs| && Holds(rs[k], j);
          assert Holds(grown[k], j);
        }
      }
    }
  }

  lemma SpanGrows(o: seq<Sample>, threshold: real, step: int, r: Range, n: nat, x: Span)
    requires 0 < n < |o| && RangeOk(o, threshold, r) && r.last == n - 1 && Hot(o, threshold, n) && x == SpanOf(o, threshold, step, r)
    ensures RangeOk(o, threshold, Range(r.first, n))
    ensures Span(x.start, SampleEnd(o, step, n), MaxR(x.peak, o[n].score)) == SpanOf(o, threshold, step, Range(r.first, n))
  {
  }

  lemma SpansAfterGrowing(o: seq<Sample>, threshold: real, step: int, rs: seq<Range>, raw: seq<Span>, g: Range, x: Span)
    requires rs != [] && Stretches(o, threshold, rs) && SpansOf(o, threshold, step, rs, raw)
    requires RangeOk(o, threshold, g) && x == SpanOf(o, threshold, step, g) && Stretches(o, threshold, rs[..|rs| - 1] + [g])
    ensures SpansOf(o, threshold, step, rs[..|rs| - 1] + [g], raw[..|rs| - 1] + [x])
  {
  }

  lemma GrowSpans(o: seq<Sample>, threshold: real, step: int, rs: seq<Range>, n: nat, g: Range)
    requires 0 < n < |o| && Hot(o, threshold, n - 1) && Hot(o, threshold, n) && Stretches(o, threshold, rs)
    requires rs != [] && rs[|rs| - 1].last == n - 1 && SpansOf(o, threshold, step, rs, RunsUpTo(o, threshold, step, n))
    requires g == Range(rs[|rs| - 1].first, n) && Stretches(o, threshold, rs[..|rs| - 1] + [g])
    ensures SpansOf(o, threshold, step, rs[..|rs| - 1] + [g], RunsUpTo(o, threshold, step, n + 1))
  {
    var m, raw := |rs| - 1, RunsUpTo(o, threshold, step, n);
    assert RangeOk(o, threshold, rs[m]) && raw[m] == SpanOf(o, threshold, step, rs[m]);
    SpanGrows(o, threshold, step, rs[m], n, raw[m]);
    SpansAfterGrowing(o, threshold, step, rs, raw, g, SpanOf(o, threshold, step, g));
  }

  /** Every sample above the threshold is in exactly one run, and neighbouring runs have a
      sample below the threshold between them. */
  lemma {:induction false} RunsFound(o: seq<Sample>, threshold: real, step: int, n: nat) returns (rs: seq<Range>)
    requires n <= |o|
    ensures RunsAre(o, threshold, step, n, rs)
  {
    rs := [];
    if n > 0 {
      rs := RunsFound(o, threshold, step, n - 1);
      rs := OneMoreSample(o, threshold, step, n - 1, rs);
    }
  }

  lemma OneMoreSample(o: seq<Sample>, threshold: real, step: int, n: nat, before: seq<Range>) returns (rs: seq<Range>)
    requires n < |o| && RunsAre(o, threshold, step, n, before)
    ensures RunsAre(o, threshold, step, n + 1, rs)
  {
    if !Hot(o, threshold, n) {
      rs := before;
      ColdSample(o, threshold, before, n);
    } else if n > 0 && Hot(o, threshold, n - 1) {
      var m := |before| - 1;
      var g := Range(before[m].first, n);
      rs := before[..m] + [g];
      GrowRun(o, threshold, before, n, g);
      GrowSpans(o, threshold, step, before, n, g);
    } else {
      rs := before + [Range(n, n)];
      forall k | 0 <= k < |before|
        ensures before[k].last + 1 < n
      {
        assert RangeOk(o, threshold, before[k]);
      }
      CloseRun(o, threshold, before, n, n + 1);
      assert rs[|before|] == Range(n, n);
    }
  }

  // ---- merging close runs ------------------------------------------------------------------

  /** The pause between two stretches. */
  function PauseBetween(o: seq<Sample>, step: int, a: Range, b: Range): int
    requires a.last < |o| && b.first < |o|
  {
    o[b.first].ts - SampleEnd(o, step, a.last)
  }

  predicate InBounds(o: seq<Sample>, rs: seq<Range>) {
    forall k :: 0 <= k < |rs| ==> rs[k].last < |o| && rs[k].first < |o|
  }

  predicate FarAt(o: seq<Sample>, step: int, gap: int, gs: seq<Range>, k: nat)
    requires InBounds(o, gs)
  {
    k + 1 < |gs| ==> PauseBetween(o, step, gs[k], gs[k + 1]) > gap
  }

  /** Neighbouring stretches are more than the gap apart. */
  ghost predicate FarApart(o: seq<Sample>, step: int, gap: int, gs: seq<Range>)
    requires InBounds(o, gs)
  {
    forall k: nat :: FarAt(o, step, gap, gs, k)
  }

  ghost predicate AbsorbedAt(rs: seq<Range>, gs: seq<Range>, j: nat)
    requires j < |rs|
  {
    exists k :: 0 <= k < |gs| && Swallows(gs[k], rs[j])
  }

  predicate Swallows(g: Range, r: Range) {
    g.first <= r.first && r.last <= g.last
  }

  /** Every run lies in a merged stretch. */
  ghost predicate Absorbed(rs: seq<Range>, n: nat, gs: seq<Range>)
    requires n <= |rs|
  {
    forall j: nat :: j < n ==> AbsorbedAt(rs, gs, j)
  }

  predicate BridgedAt(o: seq<Sample>, step: int, gap: int, rs: seq<Range>, g: Range, j: nat)
    requires InBounds(o, rs)
  {
    j + 1 < |rs| && Swallows(g, rs[j]) && Swallows(g, rs[j + 1]) ==> PauseBetween(o, step, rs[j], rs[j + 1]) <= gap
  }

  /** Merging bridged a pause only where it was small: every pause between consecutive runs
      of one merged stretch is at most the gap. */
  ghost predicate BridgedSmall(o: seq<Sample>, step: int, gap: int, rs: seq<Range>, gs: seq<Range>)
    requires InBounds(o, rs)
  {
    forall j: nat, k: nat :: k < |gs| ==> BridgedAt(o, step, gap, rs, gs[k], j)
  }

  /** The last merged stretch ends with run `n - 1` and begins no later than it. */
  ghost predicate EndsWith(rs: seq<Range>, n: nat, gs: seq<Range>)
    requires n <= |rs|
  {
    if n == 0 then gs == []
    else gs != [] && gs[|gs| - 1].last == rs[n - 1].last && gs[|gs| - 1].first <= rs[n - 1].first
  }

  /** The merged stretches over the first `n` runs. */
  ghost predicate Merged(o: seq<Sample>, threshold: real, step: int, gap: int, rs: seq<Range>, n: nat, gs: seq<Range>)
    requires n <= |rs| && Stretches(o, threshold, rs)
  {
    && Stretches(o, threshold, gs) && EndsWith(rs, n, gs)
    && FarApart(o, step, gap, gs) && Absorbed(rs, n, gs) && BridgedSmall(o, step, gap, rs, gs)
  }

  lemma RunsInOrder(o: seq<Sample>, threshold: real, rs: seq<Range>, j: nat, n: nat)
    requires Stretches(o, threshold, rs) && j < n < |rs|
    ensures rs[j].first <= rs[j].last < rs[j].last + 1 < rs[n].first <= rs[n].last
  {
    assert RangeOk(o, threshold, rs[j]) && RangeOk(o, threshold, rs[n]);
  }

  lemma MergeIntoKeepsBridges(o: seq<Sample>, threshold: real, step: int, gap: int, rs: seq<Range>, n: nat, gs: seq<Range>)
    requires Stretches(o, threshold, rs) && 0 < n < |rs| && Stretches(o, threshold, gs) && EndsWith(rs, n, gs)
    requires BridgedSmall(o, step, gap, rs, gs) && PauseBetween(o, step, gs[|gs| - 1], rs[n]) <= gap
    ensures BridgedSmall(o, step, gap, rs, gs[|gs| - 1 := Range(gs[|gs| - 1].first, rs[n].last)])
  {
    var m := |gs| - 1;
    var after := gs[m := Range(gs[m].first, rs[n].last)];
    forall j: nat, k: nat | k < |after|
      ensures BridgedAt(o, step, gap, rs, after[k], j)
    {
      assert BridgedAt(o, step, gap, rs, gs[k], j);
      if k == m && j + 1 < |rs| {
        if j + 1 < n {
          if j + 1 < n - 1 { RunsInOrder(o, threshold, rs, j + 1, n - 1); }
        } else if j + 1 > n {
          RunsInOrder(o, threshold, rs, n, j + 1);
        }
      }
    }
  }

  lemma MergeIntoAbsorbs(o: seq<Sample>, threshold: real, rs: seq<Range>, n: nat, gs: seq<Range>)
    requires Stretches(o, threshold, rs) && 0 < n < |rs| && Stretches(o, threshold, gs) && EndsWith(rs, n, gs)
    requires Absorbed(rs, n, gs)
    ensures Absorbed(rs, n + 1, gs[|gs| - 1 := Range(gs[|gs| - 1].first, rs[n].last)])
  {
    var m := |gs| - 1;
    var after := gs[m := Range(gs[m].first, rs[n].last)];
    RunsInOrder(o, threshold, rs, n - 1, n);
    forall j: nat | j < n + 1
      ensures AbsorbedAt(rs, after, j)
    {
      if j < n {
        assert AbsorbedAt(rs, gs, j);
        var k :| 0 <= k < |gs| && Swallows(gs[k], rs[j]);
        assert Swallows(after[k], rs[j]);
      } else {
        assert Swallows(after[m], rs[j]);
      }
    }
  }

  lemma MergeInto(o: seq<Sample>, threshold: real, step: int, gap: int, rs: seq<Range>, n: nat, gs: seq<Range>)
    requires Stretches(o, threshold, rs) && 0 < n < |rs| && Merged(o, threshold, step, gap, rs, n, gs)
    requires PauseBetween(o, step, gs[|gs| - 1], rs[n]) <= gap
    ensures Merged(o, threshold, step, gap, rs, n + 1, gs[|gs| - 1 := Range(gs[|gs| - 1].first, rs[n].last)])
  {
    var m := |gs| - 1;
    var after := gs[m := Range(gs[m].first, rs[n].last)];
    RunsInOrder(o, threshold, rs, n - 1, n);
    MergeIntoKeepsBridges(o, threshold, step, gap, rs, n, gs);
    MergeIntoAbsorbs(o, threshold, rs, n, gs);
    assert Stretches(o, threshold, after) by {
      assert RangeOk(o, threshold, gs[m]) && RangeOk(o, threshold, rs[n]);
    }
    forall k: nat
      ensures FarAt(o, step, gap, after, k)
    {
      assert FarAt(o, step, gap, gs, k);
    }
  }

  /** No merged stretch reaches the next run. */
  lemma LastBound(o: seq<Sample>, threshold: real, rs: seq<Range>, n: nat, gs: seq<Range>)
    requires Stretches(o, threshold, rs) && n < |rs| && Stretches(o, threshold, gs) && EndsWith(rs, n, gs)
    ensures forall k :: 0 <= k < |gs| ==> gs[k].last + 1 < rs[n].first
  {
    if n > 0 {
      RunsInOrder(o, threshold, rs, n - 1, n);
      forall k | 0 <= k < |gs|
        ensures gs[k].last + 1 < rs[n].first
      {
        if k < |gs| - 1 { RunsInOrder(o, threshold, gs, k, |gs| - 1); }
      }
    }
  }

  lemma MergeApart(o: seq<Sample>, threshold: real, step: int, gap: int, rs: seq<Range>, n: nat, gs: seq<Range>)
    requires Stretches(o, threshold, rs) && n < |rs| && Merged(o, threshold, step, gap, rs, n, gs)
    requires gs != [] ==> PauseBetween(o, step, gs[|gs| - 1], rs[n]) > gap
    ensures Merged(o, threshold, step, gap, rs, n + 1, gs + [rs[n]])
  {
    var m := |gs|;
    var after := gs + [rs[n]];
    LastBound(o, threshold, rs, n, gs);
    assert after[m] == rs[n] && RangeOk(o, threshold, rs[n]);
    forall k: nat
      ensures FarAt(o, step, gap, after, k)
    {
      assert FarAt(o, step, gap, gs, k);
    }
    forall j: nat | j < n + 1
      ensures AbsorbedAt(rs, after, j)
    {
      if j < n {
        assert AbsorbedAt(rs, gs, j);
        var k :| 0 <= k < |gs| && Swallows(gs[k], rs[j]);
        assert Swallows(after[k], rs[j]);
      } else {
        assert Swallows(after[m], rs[j]);
      }
    }
    forall j: nat, k: nat | k < |after|
      ensures BridgedAt(o, step, gap, rs, after[k], j)
    {
      if k < m {
        assert BridgedAt(o, step, gap, rs, gs[k], j);
      } else if j + 1 < |rs| {
        RunsInOrder(o, threshold, rs, j, j + 1);
        if j < n { RunsInOrder(o, threshold, rs, j, n); }
      }
    }
  }

  /** A sample between two neighbouring runs lies in none. */
  lemma GapHoldsNone(o: seq<Sample>, threshold: real, rs: seq<Range>, n: nat, j: nat, k: nat)
    requires Stretches(o, threshold, rs) && 0 < n < |rs| && k < |rs|
    requires rs[n - 1].last < j < rs[n].first
    ensures !Holds(rs[k], j)
  {
    if k < n - 1 {
      RunsInOrder(o, threshold, rs, k, n - 1);
    } else if k > n {
      RunsInOrder(o, threshold, rs, n, k);
    }
  }

  lemma ColdBetween(o: seq<Sample>, threshold: real, rs: seq<Range>, n: nat, j: nat)
    requires Stretches(o, threshold, rs) && ExactlyHot(o, threshold, |o|, rs) && 0 < n < |rs|
    requires rs[n - 1].last < j < rs[n].first && j < |o|
    ensures !Hot(o, threshold, j)
  {
    assert HeldIffHot(o, threshold, rs, j);
    assert !InSome(rs, j) by {
      forall k | 0 <= k < |rs|
        ensures !Holds(rs[k], j)
      {
        GapHoldsNone(o, threshold, rs, n, j, k);
      }
    }
  }

  /** Between two neighbouring runs every sample is below the threshold, so the peak of a
      merged stretch is the higher of the two peaks. */
  lemma MergedPeak(o: seq<Sample>, threshold: real, rs: seq<Range>, n: nat, g: Range)
    requires Stretches(o, threshold, rs) && ExactlyHot(o, threshold, |o|, rs) && 0 < n < |rs|
    requires RangeOk(o, threshold, g) && g.last == rs[n - 1].last
    ensures RangeOk(o, threshold, Range(g.first, rs[n].last)) && RangeOk(o, threshold, rs[n])
    ensures PeakOf(o, threshold, g.first, rs[n].last)
         == MaxR(PeakOf(o, threshold, g.first, g.last), PeakOf(o, threshold, rs[n].first, rs[n].last))
  {
    RunsInOrder(o, threshold, rs, n - 1, n);
    assert RangeOk(o, threshold, rs[n]);
    forall j | g.last < j < rs[n].first
      ensures !Hot(o, threshold, j)
    {
      ColdBetween(o, threshold, rs, n, j);
    }
    PeakSplits(o, threshold, g.first, g.last, rs[n].first, rs[n].last);
  }

  ghost predicate Sorted(o: seq<Sample>) {
    forall i, j :: 0 <= i < j < |o| ==> o[i].ts <= o[j].ts
  }

  lemma EndsGrow(o: seq<Sample>, step: int, a: nat, b: nat)
    requires Sorted(o) && step >= 1 && a < b < |o|
    ensures SampleEnd(o, step, a) <= SampleEnd(o, step, b)
  {
  }

  /** The last merged span after it took in run `n`. */
  lemma ExtendSpan(o: seq<Sample>, threshold: real, step: int, rs: seq<Range>, n: nat, g: Range, m: Span, r: Span)
    requires Sorted(o) && step >= 1 && Stretches(o, threshold, rs) && ExactlyHot(o, threshold, |o|, rs) && 0 < n < |rs|
    requires RangeOk(o, threshold, g) && g.last == rs[n - 1].last && m == SpanOf(o, threshold, step, g)
    requires RangeOk(o, threshold, rs[n]) && r == SpanOf(o, threshold, step, rs[n])
    ensures RangeOk(o, threshold, Range(g.first, rs[n].last))
    ensures Span(m.start, Max(m.end, r.end), MaxR(m.peak, r.peak)) == SpanOf(o, threshold, step, Range(g.first, rs[n].last))
  {
    RunsInOrder(o, threshold, rs, n - 1, n);
    MergedPeak(o, threshold, rs, n, g);
    EndsGrow(o, step, g.last, rs[n].last);
  }

  lemma SpansAfterExtending(o: seq<Sample>, threshold: real, step: int, rs: seq<Range>, n: nat,
                            gs: seq<Range>, merged: seq<Span>, r: Span, g: Range, x: Span)
    requires Sorted(o) && step >= 1 && Stretches(o, threshold, rs) && ExactlyHot(o, threshold, |o|, rs) && 0 < n < |rs|
    requires Stretches(o, threshold, gs) && EndsWith(rs, n, gs) && SpansOf(o, threshold, step, gs, merged)
    requires RangeOk(o, threshold, rs[n]) && r == SpanOf(o, threshold, step, rs[n])
    requires var m := merged[|gs| - 1]; x == Span(m.start, Max(m.end, r.end), MaxR(m.peak, r.peak))
    requires g == Range(gs[|gs| - 1].first, rs[n].last)
    requires Stretches(o, threshold, gs[|gs| - 1 := g])
    ensures SpansOf(o, threshold, step, gs[|gs| - 1 := g], merged[|gs| - 1 := x])
  {
    var m := |gs| - 1;
    assert RangeOk(o, threshold, gs[m]) && merged[m] == SpanOf(o, threshold, step, gs[m]);
    ExtendSpan(o, threshold, step, rs, n, gs[m], merged[m], r);
  }

  lemma SpansAfterAppending(o: seq<Sample>, threshold: real, step: int, gs: seq<Range>, merged: seq<Span>, g: Range, x: Span)
    requires Stretches(o, threshold, gs) && SpansOf(o, threshold, step, gs, merged)
    requires RangeOk(o, threshold, g) && x == SpanOf(o, threshold, step, g) && Stretches(o, threshold, gs + [g])
    ensures SpansOf(o, threshold, step, gs + [g], merged + [x])
  {
  }

  /** `merged` are the spans of the stretches that merging the first `n` runs gives. */
  ghost predicate MergedSpans(o: seq<Sample>, threshold: real, step: int, gap: int, rs: seq<Range>, n: nat,
                              gs: seq<Range>, merged: seq<Span>) {
    && n <= |rs| && Stretches(o, threshold, rs)
    && Merged(o, threshold, step, gap, rs, n, gs) && SpansOf(o, threshold, step, gs, merged)
  }

  lemma AbsorbRun(o: seq<Sample>, threshold: real, step: int, gap: int, rs: seq<Range>, n: nat,
                  gs: seq<Range>, merged: seq<Span>, r: Span, x: Span)
    requires Sorted(o) && step >= 1 && n < |rs| && merged != []
    requires MergedSpans(o, threshold, step, gap, rs, n, gs, merged) && ExactlyHot(o, threshold, |o|, rs)
    requires r == SpanOf(o, threshold, step, rs[n]) && r.start - merged[|gs| - 1].end <= gap
    requires var m := merged[|gs| - 1]; x == Span(m.start, Max(m.end, r.end), MaxR(m.peak, r.peak))
    ensures MergedSpans(o, threshold, step, gap, rs, n + 1,
                        gs[|gs| - 1 := Range(gs[|gs| - 1].first, rs[n].last)], merged[|merged| - 1 := x])
  {
    var m := |gs| - 1;
    assert n > 0 && merged[m] == SpanOf(o, threshold, step, gs[m]);
    MergeInto(o, threshold, step, gap, rs, n, gs);
    SpansAfterExtending(o, threshold, step, rs, n, gs, merged, r, Range(gs[m].first, rs[n].last), x);
  }

  lemma AppendRun(o: seq<Sample>, threshold: real, step: int, gap: int, rs: seq<Range>, n: nat,
                  gs: seq<Range>, merged: seq<Span>, r: Span)
    requires n < |rs| && MergedSpans(o, threshold, step, gap, rs, n, gs, merged)
    requires r == SpanOf(o, threshold, step, rs[n])
    requires merged != [] ==> r.start - merged[|gs| - 1].end > gap
    ensures MergedSpans(o, threshold, step, gap, rs, n + 1, gs + [rs[n]], merged + [r])
  {
    if merged != [] {
      assert merged[|gs| - 1] == SpanOf(o, threshold, step, gs[|gs| - 1]);
    }
    MergeApart(o, threshold, step, gap, rs, n, gs);
    SpansAfterAppending(o, threshold, step, gs, merged, rs[n], r);
  }

  /** The first `n` runs merged. */
  function MergeUpTo(raw: seq<Span>, gap: int, n: nat): seq<Span>
    requires n <= |raw|
  {
    if n == 0 then []
    else
      var before, r := MergeUpTo(raw, gap, n - 1), raw[n - 1];
      var m := |before| - 1;
      if before != [] && r.start - before[m].end <= gap then
        before[m := Span(before[m].start, Max(before[m].end, r.end), MaxR(before[m].peak, r.peak))]
      else before + [r]
  }

  /** The merged runs are the spans of merged stretches. */
  lemma {:induction false} MergeUpToMerges(o: seq<Sample>, threshold: real, step: int, gap: int, rs: seq<Range>, raw: seq<Span>, n: nat)
    returns (gs: seq<Range>)
    requires Sorted(o) && step >= 1 && Stretches(o, threshold, rs) && ExactlyHot(o, threshold, |o|, rs)
    requires SpansOf(o, threshold, step, rs, raw) && n <= |raw|
    ensures MergedSpans(o, threshold, step, gap, rs, n, gs, MergeUpTo(raw, gap, n))
  {
    gs := [];
    if n > 0 {
      gs := MergeUpToMerges(o, threshold, step, gap, rs, raw, n - 1);
      gs := MergeOneMore(o, threshold, step, gap, rs, raw, n - 1, gs);
    }
  }

  lemma MergeOneMore(o: seq<Sample>, threshold: real, step: int, gap: int, rs: seq<Range>, raw: seq<Span>, n: nat, before: seq<Range>)
    returns (gs: seq<Range>)
    requires Sorted(o) && step >= 1 && Stretches(o, threshold, rs) && ExactlyHot(o, threshold, |o|, rs)
    requires SpansOf(o, threshold, step, rs, raw) && n < |raw|
    requires MergedSpans(o, threshold, step, gap, rs, n, before, MergeUpTo(raw, gap, n))
    ensures MergedSpans(o, threshold, step, gap, rs, n + 1, gs, MergeUpTo(raw, gap, n + 1))
  {
    var merged := MergeUpTo(raw, gap, n);
    var m := |merged| - 1;
    if merged != [] && raw[n].start - merged[m].end <= gap {
      var x := Span(merged[m].start, Max(merged[m].end, raw[n].end), MaxR(merged[m].peak, raw[n].peak));
      AbsorbRun(o, threshold, step, gap, rs, n, before, merged, raw[n], x);
      gs := before[m := Range(before[m].first, rs[n].last)];
    } else {
      AppendRun(o, threshold, step, gap, rs, n, before, merged, raw[n]);
      gs := before + [rs[n]];
    }
  }

  /** Runs a small pause apart become one. */
  method MergeRuns(raw: seq<Span>, gap: int) returns (merged: seq<Span>)
    ensures merged == MergeUpTo(raw, gap, |raw|)
  {
    merged := [];
    var n := 0;
    while n < |raw|
      invariant 0 <= n <= |raw| && merged == MergeUpTo(raw, gap, n)
    {
      var m := |merged| - 1;
      if merged != [] && raw[n].start - merged[m].end <= gap {
        merged := merged[m := Span(merged[m].start, Max(merged[m].end, raw[n].end), MaxR(merged[m].peak, raw[n].peak))];
      } else {
        merged := merged + [raw[n]];
      }
      n := n + 1;
    }
  }

  // ---- the trigger windows ---------------------------------------------------------------------

  /** Extended to the minimum duration, clamped to the video, or dropped. */
  function Finish(m: Span, minDurationMs: int, duration: Option<int>): Option<Span> {
    var end := if m.end - m.start < minDurationMs then m.start + minDurationMs else m.end;
    match duration
    case None => Some(m.(end := end))
    case Some(d) =>
      if m.start >= d then None
      else
        var clamped := Min(end, d);
        if clamped <= m.start then None else Some(m.(end := clamped))
  }

  /** `idx` lists the merged stretches that survive, in order; `ws` are their windows. */
  ghost predicate Kept(merged: seq<Span>, n: nat, minDurationMs: int, duration: Option<int>, ws: seq<Span>, idx: seq<nat>)
    requires n <= |merged|
  {
    && |ws| == |idx|
    && (forall i :: 0 <= i < |idx| ==> idx[i] < n && Finish(merged[idx[i]], minDurationMs, duration) == Some(ws[i]))
    && (forall i, j :: 0 <= i < j < |idx| ==> idx[i] < idx[j])
    && (forall k: nat :: k < n && Finish(merged[k], minDurationMs, duration).Some? ==> k in idx)
  }

  function FinishUpTo(merged: seq<Span>, minDurationMs: int, duration: Option<int>, n: nat): seq<Span>
    requires n <= |merged|
  {
    if n == 0 then []
    else
      var w := Finish(merged[n - 1], minDurationMs, duration);
      FinishUpTo(merged, minDurationMs, duration, n - 1) + if w.Some? then [w.value] else []
  }

  method FinishWindows(merged: seq<Span>, minDurationMs: int, duration: Option<int>) returns (ws: seq<Span>, ghost idx: seq<nat>)
    ensures Kept(merged, |merged|, minDurationMs, duration, ws, idx)
    ensures ws == FinishUpTo(merged, minDurationMs, duration, |merged|)
  {
    ws, idx := [], [];
    var k := 0;
    while k < |merged|
      invariant 0 <= k <= |merged| && ws == FinishUpTo(merged, minDurationMs, duration, k)
      invariant Kept(merged, k, minDurationMs, duration, ws, idx)
    {
      var w := Finish(merged[k], minDurationMs, duration);
      if w.Some? {
        ws, idx := ws + [w.value], idx + [k];
      }
      k := k + 1;
    }
  }

  /** How the planned windows came about. */
  datatype Derivation = Derivation(o: seq<Sample>, step: int, rs: seq<Range>, gs: seq<Range>, merged: seq<Span>, idx: seq<nat>)

  ghost predicate Derived(samples: seq<Sample>, threshold: real, minDurationMs: int, gap: int, duration: Option<int>,
                          ws: seq<Span>, d: Derivation) {
    && multiset(d.o) == multiset(samples) && Sorted(d.o) && d.step == MedianStep(d.o)
    && Stretches(d.o, threshold, d.rs) && ExactlyHot(d.o, threshold, |d.o|, d.rs)
    && Merged(d.o, threshold, d.step, gap, d.rs, |d.rs|, d.gs)
    && SpansOf(d.o, threshold, d.step, d.gs, d.merged)
    && Kept(d.merged, |d.merged|, minDurationMs, duration, ws, d.idx)
  }

  /** The planned windows as a function of the samples. */
  function TriggerWindows(samples: seq<Sample>, threshold: real, minDurationMs: int, gap: int, duration: Option<int>): seq<Span> {
    var o := SortBy(samples, EarlierOrSame);
    var raw := RunsUpTo(o, threshold, MedianStep(o), |o|);
    var merged := MergeUpTo(raw, gap, |raw|);
    FinishUpTo(merged, minDurationMs, duration, |merged|)
  }

  method PlanMotionTriggers(samples: seq<Sample>, threshold: real, minDurationMs: int, gap: int, duration: Option<int>)
    returns (ws: seq<Span>, ghost d: Derivation)
    ensures Derived(samples, threshold, minDurationMs, gap, duration, ws, d)
    ensures ws == TriggerWindows(samples, threshold, minDurationMs, gap, duration)
  {
    if samples == [] {
      return [], Derivation([], 1, [], [], [], []);
    }
    var ordered := SortBy(samples, EarlierOrSame);
    SortBySorts(samples, EarlierOrSame);
    var step := MedianStep(ordered);
    var raw, merged;
    ghost var rs, gs, idx;
    raw := BuildRuns(ordered, threshold, step);
    rs := RunsFound(ordered, threshold, step, |ordered|);
    merged := MergeRuns(raw, gap);
    gs := MergeUpToMerges(ordered, threshold, step, gap, rs, raw, |raw|);
    ws, idx := FinishWindows(merged, minDurationMs, duration);
    d := Derivation(ordered, step, rs, gs, merged, idx);
  }

  // ---- what the windows guarantee ------------------------------------------------------------------

  ghost predicate DistinctTimes(samples: seq<Sample>) {
    forall i, j :: 0 <= i < j < |samples| ==> samples[i].ts != samples[j].ts
  }

  lemma SortedTimesIncrease(samples: seq<Sample>, o: seq<Sample>)
    requires DistinctTimes(samples) && multiset(o) == multiset(samples) && Sorted(o)
    ensures Increasing(o)
  {
    assert Distinct(samples);
    DistinctPermuted(samples, o);
    SameMembers(samples, o);
    assert forall x, y :: x in samples && y in samples && x.ts == y.ts ==> x == y;
    forall i, j | 0 <= i < j < |o|
      ensures o[i].ts < o[j].ts
    {
      assert o[i] in samples && o[j] in samples;
    }
  }

  /** A merged stretch spans its samples and nothing of its neighbours'. */
  lemma SpanFacts(o: seq<Sample>, threshold: real, step: int, gap: int, rs: seq<Range>, gs: seq<Range>, merged: seq<Span>, k: nat, l: nat)
    requires Increasing(o) && step >= 1 && Stretches(o, threshold, rs) && Merged(o, threshold, step, gap, rs, |rs|, gs)
    requires SpansOf(o, threshold, step, gs, merged) && k < |gs|
    ensures merged[k].start < merged[k].end
    ensures k < l < |gs| ==> merged[k].end < merged[l].start && merged[l].start - merged[k].end > gap
  {
    assert RangeOk(o, threshold, gs[k]);
    HoldsSample(o, threshold, step, gs[k], gs[k].first);
    if k < l < |gs| {
      RunsInOrder(o, threshold, gs, k, l);
      assert RangeOk(o, threshold, gs[l]) && RangeOk(o, threshold, gs[k + 1]);
      assert o[gs[k].last + 1].ts < o[gs[l].first].ts;
      assert FarAt(o, step, gap, gs, k);
      if k + 1 < l {
        RunsInOrder(o, threshold, gs, k + 1, l);
        assert o[gs[k + 1].first].ts < o[gs[l].first].ts;
      }
    }
  }

  /** A surviving window starts where its stretch starts, is not empty, stays within the
      video, and reaches past the stretch only as far as the minimum duration. */
  lemma FinishFacts(m: Span, minDurationMs: int, duration: Option<int>, w: Span)
    requires m.start < m.end && Finish(m, minDurationMs, duration) == Some(w)
    ensures w.start == m.start < w.end && w.peak == m.peak && (duration.Some? ==> w.end <= duration.value)
    ensures w.end <= m.end || w.end <= m.start + minDurationMs
  {
  }

  /** Windows have positive length, stay within the video and start at a sample; their
      starts strictly increase (so their idempotency keys differ and the trigger contract
      accepts them); and they are pairwise disjoint whenever the minimum duration does not
      exceed the merge gap. */
  lemma WindowsWellPlaced(samples: seq<Sample>, threshold: real, minDurationMs: int, gap: int, duration: Option<int>,
                          ws: seq<Span>, d: Derivation, i: nat, j: nat)
    requires DistinctTimes(samples) && Derived(samples, threshold, minDurationMs, gap, duration, ws, d)
    requires i <= j < |ws|
    ensures ws[i].start < ws[i].end && (duration.Some? ==> ws[i].end <= duration.value)
    ensures StartsAtSample(samples, ws[i])
    ensures i < j ==> ws[i].start < ws[j].start
    ensures i < j && minDurationMs <= gap ==> ws[i].end < ws[j].start
  {
    SortedTimesIncrease(samples, d.o);
    var k, l := d.idx[i], d.idx[j];
    SpanFacts(d.o, threshold, d.step, gap, d.rs, d.gs, d.merged, k, l);
    SpanFacts(d.o, threshold, d.step, gap, d.rs, d.gs, d.merged, l, l);
    FinishFacts(d.merged[k], minDurationMs, duration, ws[i]);
    FinishFacts(d.merged[l], minDurationMs, duration, ws[j]);
    SpanStarts(samples, d.o, threshold, d.step, d.gs[k]);
  }

  ghost predicate StartsAtSample(samples: seq<Sample>, w: Span) {
    exists x :: x in samples && x.ts == w.start
  }

  lemma SpanStarts(samples: seq<Sample>, o: seq<Sample>, threshold: real, step: int, g: Range)
    requires multiset(o) == multiset(samples) && RangeOk(o, threshold, g)
    ensures StartsAtSample(samples, SpanOf(o, threshold, step, g))
  {
    SameMembers(samples, o);
    assert o[g.first] in samples;
  }

  /** A window's peak is the highest score of its merged stretch. */
  lemma WindowPeak(samples: seq<Sample>, threshold: real, minDurationMs: int, gap: int, duration: Option<int>,
                   ws: seq<Span>, d: Derivation, i: nat)
    requires Derived(samples, threshold, minDurationMs, gap, duration, ws, d) && i < |ws|
    ensures var g := d.gs[d.idx[i]];
            && (exists j :: g.first <= j <= g.last && Hot(d.o, threshold, j) && d.o[j].score == ws[i].peak)
            && (forall j :: g.first <= j <= g.last && Hot(d.o, threshold, j) ==> d.o[j].score <= ws[i].peak)
  {
    var g := d.gs[d.idx[i]];
    assert RangeOk(d.o, threshold, g);
    PeakIsMaximum(d.o, threshold, g.first, g.last);
  }

  /** A sample above the threshold lies in one of the merged stretches. */
  lemma HotInStretch(o: seq<Sample>, threshold: real, rs: seq<Range>, gs: seq<Range>, j: nat) returns (k: nat)
    requires ExactlyHot(o, threshold, |o|, rs) && Absorbed(rs, |rs|, gs) && j < |o| && Hot(o, threshold, j)
    ensures k < |gs| && Holds(gs[k], j)
  {
    assert HeldIffHot(o, threshold, rs, j);
    var r: nat :| r < |rs| && Holds(rs[r], j);
    assert AbsorbedAt(rs, gs, r);
    k :| 0 <= k < |gs| && Swallows(gs[k], rs[r]);
  }

  lemma FinishKeeps(m: Span, minDurationMs: int, duration: Option<int>, t: int)
    requires Within(m, t) && (duration.Some? ==> t < duration.value)
    ensures Finish(m, minDurationMs, duration).Some? && Within(Finish(m, minDurationMs, duration).value, t)
  {
  }

  ghost predicate CoveredBy(ws: seq<Span>, t: int) {
    exists i :: 0 <= i < |ws| && Within(ws[i], t)
  }

  lemma SurvivorCovers(merged: seq<Span>, minDurationMs: int, duration: Option<int>, ws: seq<Span>, idx: seq<nat>, k: nat, t: int)
    requires Kept(merged, |merged|, minDurationMs, duration, ws, idx) && k < |merged|
    requires Within(merged[k], t) && (duration.Some? ==> t < duration.value)
    ensures CoveredBy(ws, t)
  {
    FinishKeeps(merged[k], minDurationMs, duration, t);
    var i :| 0 <= i < |idx| && idx[i] == k;
    assert Within(ws[i], t);
  }

  /** Every sample above the threshold that lies before the end of the video is inside a
      planned window. */
  lemma HotSamplesCovered(samples: seq<Sample>, threshold: real, minDurationMs: int, gap: int, duration: Option<int>,
                          ws: seq<Span>, d: Derivation, s: Sample)
    requires DistinctTimes(samples) && Derived(samples, threshold, minDurationMs, gap, duration, ws, d)
    requires s in samples && s.score >= threshold && (duration.Some? ==> s.ts < duration.value)
    ensures CoveredBy(ws, s.ts)
  {
    SortedTimesIncrease(samples, d.o);
    SameMembers(samples, d.o);
    var j :| 0 <= j < |d.o| && d.o[j] == s;
    var k := HotInStretch(d.o, threshold, d.rs, d.gs, j);
    HoldsSample(d.o, threshold, d.step, d.gs[k], j);
    SurvivorCovers(d.merged, minDurationMs, duration, ws, d.idx, k, s.ts);
  }

  lemma HoldsSample(o: seq<Sample>, threshold: real, step: int, g: Range, j: nat)
    requires Increasing(o) && step >= 1 && RangeOk(o, threshold, g) && g.first <= j <= g.last
    ensures Within(SpanOf(o, threshold, step, g), o[j].ts)
  {
    assert g.first < j ==> o[g.first].ts < o[j].ts;
    assert j < g.last ==> o[j].ts < o[g.last].ts;
  }

  /** A blip shorter than the minimum duration is extended and kept, not dropped: a single sample
      at or above the threshold gives a window of exactly the minimum duration (or one
      millisecond), whatever the gap. */
  lemma ShortBlipIsKept(s: Sample, threshold: real, minDurationMs: int, gap: int)
    requires s.score >= threshold
    ensures TriggerWindows([s], threshold, minDurationMs, gap, None) == [Span(s.ts, s.ts + Max(1, minDurationMs), s.score)]
  {
    assert SortBy([s][..0], EarlierOrSame) == [];
    var o := SortBy([s], EarlierOrSame);
    assert o == [s];
    var raw := RunsUpTo(o, threshold, MedianStep(o), 1);
    assert RunsUpTo(o, threshold, MedianStep(o), 0) == [];
    assert raw == [Span(s.ts, s.ts + 1, s.score)];
    assert MergeUpTo(raw, gap, 0) == [];
    var merged := MergeUpTo(raw, gap, 1);
    assert merged == raw;
    assert FinishUpTo(merged, minDurationMs, None, 0) == [];
  }

  /** In general: a stretch that is not past the end of the video is kept, and its window lasts at
      least the minimum duration unless the video ends first. */
  lemma ShortStretchIsExtended(m: Span, minDurationMs: int, duration: Option<int>)
    requires m.start < m.end && (duration.Some? ==> m.start < duration.value)
    ensures Finish(m, minDurationMs, duration).Some?
    ensures var w := Finish(m, minDurationMs, duration).value;
            w.end - w.start >= minDurationMs || duration == Some(w.end)
  {
  }

  // ---- what a window is, in terms of the samples --------------------------------------------------

  /** The time at which a stretch stops counting: that of the next sample, or one median gap
      after the very last one. */
  function StretchEnd(o: seq<Sample>, g: Range): int
    requires g.last < |o|
  {
    if g.last + 1 < |o| then o[g.last + 1].ts else o[g.last].ts + MedianStep(o)
  }

  /** A merged stretch contains exactly its own samples. */
  lemma StretchHoldsItsSamples(o: seq<Sample>, threshold: real, g: Range, j: nat)
    requires Increasing(o) && RangeOk(o, threshold, g) && j < |o|
    ensures SpanOf(o, threshold, MedianStep(o), g).end == StretchEnd(o, g)
    ensures Within(SpanOf(o, threshold, MedianStep(o), g), o[j].ts) <==> g.first <= j <= g.last
  {
    if g.first <= j <= g.last {
      HoldsSample(o, threshold, MedianStep(o), g, j);
    }
    assert j < g.first ==> o[j].ts < o[g.first].ts;
    assert g.last + 1 < j ==> o[g.last + 1].ts < o[j].ts;
  }

  /** An instant is in a planned window if and only if it lies in the video, not before the
      window's stretch, and before the stretch's end or within the minimum duration. */
  lemma WindowIsItsStretch(samples: seq<Sample>, threshold: real, minDurationMs: int, gap: int, duration: Option<int>,
                           ws: seq<Span>, d: Derivation, i: nat, t: int)
    requires Derived(samples, threshold, minDurationMs, gap, duration, ws, d) && i < |ws|
    ensures var g := d.gs[d.idx[i]];
            Within(ws[i], t) <==>
              && d.o[g.first].ts <= t && (t < StretchEnd(d.o, g) || t < d.o[g.first].ts + minDurationMs)
              && (duration.Some? ==> t < duration.value)
  {
    DerivedWindow(samples, threshold, minDurationMs, gap, duration, ws, d, i);
    WindowOfStretch(d.o, threshold, d.gs[d.idx[i]], minDurationMs, duration, ws[i], t);
  }

  /** A window is the finished span of its stretch. */
  lemma DerivedWindow(samples: seq<Sample>, threshold: real, minDurationMs: int, gap: int, duration: Option<int>,
                      ws: seq<Span>, d: Derivation, i: nat)
    requires Derived(samples, threshold, minDurationMs, gap, duration, ws, d) && i < |ws|
    ensures i < |d.idx| && d.idx[i] < |d.gs| && RangeOk(d.o, threshold, d.gs[d.idx[i]])
    ensures Finish(SpanOf(d.o, threshold, MedianStep(d.o), d.gs[d.idx[i]]), minDurationMs, duration) == Some(ws[i])
  {
    var k := d.idx[i];
    assert RangeOk(d.o, threshold, d.gs[k]) && d.merged[k] == SpanOf(d.o, threshold, d.step, d.gs[k]);
  }

  lemma WindowOfStretch(o: seq<Sample>, threshold: real, g: Range, minDurationMs: int, duration: Option<int>, w: Span, t: int)
    requires RangeOk(o, threshold, g) && Finish(SpanOf(o, threshold, MedianStep(o), g), minDurationMs, duration) == Some(w)
    ensures Within(w, t) <==>
              && o[g.first].ts <= t && (t < StretchEnd(o, g) || t < o[g.first].ts + minDurationMs)
              && (duration.Some? ==> t < duration.value)
  {
    FinishedWindow(SpanOf(o, threshold, MedianStep(o), g), minDurationMs, duration, w, t);
  }

  lemma FinishedWindow(m: Span, minDurationMs: int, duration: Option<int>, w: Span, t: int)
    requires Finish(m, minDurationMs, duration) == Some(w)
    ensures Within(w, t) <==> m.start <= t && (t < m.end || t < m.start + minDurationMs) && (duration.Some? ==> t < duration.value)
  {
  }

  /** A stretch is given no window if and only if the video is over when it starts. */
  lemma OnlyLateStretchesDrop(samples: seq<Sample>, threshold: real, minDurationMs: int, gap: int, duration: Option<int>,
                              ws: seq<Span>, d: Derivation, k: nat)
    requires DistinctTimes(samples) && Derived(samples, threshold, minDurationMs, gap, duration, ws, d) && k < |d.gs|
    ensures k in d.idx <==> duration.None? || d.o[d.gs[k].first].ts < duration.value
  {
    SortedTimesIncrease(samples, d.o);
    SpanFacts(d.o, threshold, d.step, gap, d.rs, d.gs, d.merged, k, k);
    if k in d.idx {
      var i :| 0 <= i < |d.idx| && d.idx[i] == k;
      assert Finish(d.merged[k], minDurationMs, duration) == Some(ws[i]);
    }
  }
}
