/** Planning of the fixed default-segment windows over a video. */
module DefaultSegments {
  import opened Arith
  import opened Sets

  datatype Window = Window(startMs: int, endMs: int)

  datatype Plan = Planned(windows: seq<Window>) | ValueError

  predicate Contains(w: Window, t: int) {
    w.startMs <= t < w.endMs
  }

  /** The i-th window before any question of whether it is planned. */
  function WindowAt(duration: int, window: int, step: int, i: nat): Window {
    Window(i * step, Min(i * step + window, duration))
  }

  /** Window `i` is reached: the one before did not end the video and it starts inside. */
  predicate Reached(duration: int, window: int, step: int, i: nat) {
    i == 0 || ((i - 1) * step + window < duration && i * step < duration)
  }

  function SegmentCount(duration: nat, window: nat, step: nat): nat
    requires step > 0
  {
    if step <= window then 1 + CeilDiv(Max(0, duration - window), step) else CeilDiv(duration, step)
  }

  ghost predicate IsPlan(windows: seq<Window>, duration: nat, window: nat, step: nat)
    requires step > 0
  {
    && |windows| == SegmentCount(duration, window, step)
    && forall i :: 0 <= i < |windows| ==> windows[i] == WindowAt(duration, window, step, i)
  }

  /** The loop stops after exactly `SegmentCount` windows. */
  lemma ReachedIsCounted(duration: nat, window: nat, step: nat, i: nat)
    requires duration > 0 && window > 0 && step > 0
    ensures Reached(duration, window, step, i) <==> i < SegmentCount(duration, window, step)
  {
    if i > 0 {
      assert i * step == (i - 1) * step + step;
      var room := if step <= window then Max(0, duration - window) else duration;
      var c := CeilDiv(room, step);
      CeilDivBounds(room, step);
      var j := if step <= window then i - 1 else i;
      // j * step < room <==> j < c
      if j < c {
        MulMono(j, c - 1, step);
      } else {
        MulMono(c, j, step);
      }
    } else {
      CeilDivBounds(duration, step);
    }
  }

  /** Windows, errors and the empty video, for every argument. */
  method PlanDefaultSegments(durationMs: int, windowSeconds: int, overlapSeconds: int) returns (plan: Plan)
    ensures durationMs <= 0 ==> plan == Planned([])
    ensures durationMs > 0 && (windowSeconds <= 0 || overlapSeconds >= windowSeconds) ==> plan == ValueError
    ensures durationMs > 0 && windowSeconds > 0 && overlapSeconds < windowSeconds ==>
              plan.Planned? && IsPlan(plan.windows, durationMs, windowSeconds * 1000, (windowSeconds - overlapSeconds) * 1000)
  {
    if durationMs <= 0 { return Planned([]); }
    var windowMs := windowSeconds * 1000;
    var overlapMs := overlapSeconds * 1000;
    if windowMs <= 0 { return ValueError; }
    var step := windowMs - overlapMs;
    if step <= 0 { return ValueError; }
    var windows: seq<Window> := [];
    var start := 0;
    while start < durationMs
      invariant start == |windows| * step
      invariant Reached(durationMs, windowMs, step, |windows|) || start >= durationMs
      invariant |windows| > 0 ==> Reached(durationMs, windowMs, step, |windows| - 1) && (|windows| - 1) * step + windowMs < durationMs
      invariant forall i :: 0 <= i < |windows| ==> windows[i] == WindowAt(durationMs, windowMs, step, i)
      decreases durationMs - start
    {
      var end := Min(start + windowMs, durationMs);
      ghost var n := |windows|;
      windows := windows + [Window(start, end)];
      assert (n + 1) * step == n * step + step;
      if end >= durationMs {
        break;
      }
      start := start + step;
    }
    ReachedIsCounted(durationMs, windowMs, step, |windows|);
    ReachedIsCounted(durationMs, windowMs, step, |windows| - 1);
    plan := Planned(windows);
  }

  // ---- what the plan guarantees ------------------------------------------------------

  ghost predicate Covered(windows: seq<Window>, t: int) {
    exists i :: 0 <= i < |windows| && Contains(windows[i], t)
  }

  lemma CoversInstant(windows: seq<Window>, duration: nat, window: nat, step: nat, t: nat)
    requires duration > 0 && window > 0 && 0 < step && IsPlan(windows, duration, window, step)
    requires t < duration && (step <= window || duration <= window)
    ensures Covered(windows, t)
  {
    var n := |windows|;
    ReachedIsCounted(duration, window, step, 0);
    ReachedIsCounted(duration, window, step, n);
    QuotientBounds(t, step);
    var q := t / step;
    assert n * step == (n - 1) * step + step;
    if q < n && step <= window {
      assert Contains(windows[q], t);
    } else if step <= window {
      MulMono(n, q, step);
      assert Contains(windows[n - 1], t);
    } else {
      assert Contains(windows[0], t);
    }
  }

  /** Every millisecond is covered if and only if the overlap is not negative, or the video
      fits into one window. */
  lemma CoverageCondition(windows: seq<Window>, duration: nat, window: nat, step: nat)
    requires duration > 0 && window > 0 && step > 0 && IsPlan(windows, duration, window, step)
    ensures (forall t :: 0 <= t < duration ==> Covered(windows, t)) <==> step <= window || duration <= window
  {
    if step <= window || duration <= window {
      forall t | 0 <= t < duration
        ensures Covered(windows, t)
      {
        CoversInstant(windows, duration, window, step, t);
      }
    } else {
      forall i | 0 <= i < |windows|
        ensures !Contains(windows[i], window)
      {
        if i > 0 {
          MulMono(1, i, step);
        }
      }
      assert !Covered(windows, window);
    }
  }

  /** No window contains another. */
  lemma NoContainment(windows: seq<Window>, duration: nat, window: nat, step: nat, i: nat, j: nat)
    requires duration > 0 && window > 0 && step > 0 && IsPlan(windows, duration, window, step)
    requires i < |windows| && j < |windows| && i != j
    ensures !(windows[i].startMs <= windows[j].startMs && windows[j].endMs <= windows[i].endMs)
  {
    var lo, hi := Min(i, j), Max(i, j);
    ReachedIsCounted(duration, window, step, hi);
    MulStep(lo, hi, step);
    MulMono(lo, hi - 1, step);
    assert hi * step == (hi - 1) * step + step;
  }

  /** The windows an instant lies in. */
  function Around(windows: seq<Window>, t: int): set<nat> {
    set i: nat | i < |windows| && Contains(windows[i], t)
  }

  /** No instant lies in more than ceil(window / step) windows. */
  lemma BoundedMultiplicity(windows: seq<Window>, duration: nat, window: nat, step: nat, t: int)
    requires duration > 0 && window > 0 && step > 0 && IsPlan(windows, duration, window, step)
    ensures |Around(windows, t)| <= CeilDiv(window, step)
  {
    var hits := Around(windows, t);
    if hits != {} {
      var lo := Least(hits);
      var hi := Greatest(hits);
      assert Contains(windows[lo], t) && Contains(windows[hi], t);
      assert (hi - lo) * step == hi * step - lo * step;
      CeilDivBounds(window, step);
      var c := CeilDiv(window, step);
      MulMono(c, Max(c, hi - lo), step);
      BoundedSize(hits, lo, hi);
    }
  }
}
