/** From motion triggers to the planned high-frequency units: storing the triggers of a scan,
    cutting a trigger into short windows, and planning each window once. */
module HighFreqUnits {
  import opened Statuses
  import opened Arith
  import opened Orders
  import opened DefaultSegments
  import M = MotionTriggers

  /** A stored trigger. Its identity is what the idempotency key is made of. */
  datatype Trigger = Trigger(job: nat, video: nat, start: int, end: int)

  /** The trigger contract: bounds are not negative and the start lies before the end. */
  predicate Accepted(t: Trigger) {
    0 <= t.start < t.end
  }

  // ---- storing the triggers of a scan ----------------------------------------------------

  /** The bound beyond which nothing can be decoded: the probed duration when it is known,
      else the last sample. */
  function EofBound(duration: Option<int>, samples: seq<M.Sample>): Option<int> {
    if duration.None? && samples != [] then Some(LastTime(samples)) else duration
  }

  function LastTime(samples: seq<M.Sample>): (t: int)
    requires samples != []
    ensures forall s :: s in samples ==> s.ts <= t
    ensures exists s :: s in samples && s.ts == t
  {
    var n := |samples| - 1;
    assert samples == samples[..n] + [samples[n]];
    assert samples[n] in samples;
    if n == 0 then samples[n].ts else Max(LastTime(samples[..n]), samples[n].ts)
  }

  function TriggersOf(job: nat, video: nat, ws: seq<M.Span>): seq<Trigger> {
    seq(|ws|, i requires 0 <= i < |ws| => Trigger(job, video, ws[i].start, ws[i].end))
  }

  /** The rows after `ts` were stored one by one, each only if it was not there yet. */
  function Stored(rows: seq<Trigger>, ts: seq<Trigger>): seq<Trigger> {
    if ts == [] then rows
    else
      var n := |ts| - 1;
      var before := Stored(rows, ts[..n]);
      if ts[n] in before then before else before + [ts[n]]
  }

  lemma {:induction false} StoredMeaning(rows: seq<Trigger>, ts: seq<Trigger>)
    ensures forall t :: t in Stored(rows, ts) <==> t in rows || t in ts
    ensures Distinct(rows) ==> Distinct(Stored(rows, ts))
    ensures rows <= Stored(rows, ts)
  {
    if ts != [] {
      StoredMeaning(rows, ts[..|ts| - 1]);
      assert ts == ts[..|ts| - 1] + [ts[|ts| - 1]];
    }
  }

  lemma {:induction false} StoredAlready(rows: seq<Trigger>, ts: seq<Trigger>)
    requires forall t :: t in ts ==> t in rows
    ensures Stored(rows, ts) == rows
  {
    if ts != [] {
      assert ts[|ts| - 1] in ts;
      StoredAlready(rows, ts[..|ts| - 1]);
    }
  }

  /** Storing the same triggers again changes nothing. */
  lemma StoringTwice(rows: seq<Trigger>, ts: seq<Trigger>)
    ensures Stored(Stored(rows, ts), ts) == Stored(rows, ts)
  {
    StoredMeaning(rows, ts);
    StoredAlready(Stored(rows, ts), ts);
  }

  /** None of `ts` was there and no two are equal: each gets a row of its own. */
  lemma {:induction false} StoredAllNew(rows: seq<Trigger>, ts: seq<Trigger>)
    requires Distinct(ts) && forall t :: t in ts ==> t !in rows
    ensures Stored(rows, ts) == rows + ts
  {
    if ts != [] {
      var n := |ts| - 1;
      StoredAllNew(rows, ts[..n]);
      assert ts[n] in ts && ts[n] !in ts[..n];
      assert rows + ts == (rows + ts[..n]) + [ts[n]];
    }
  }

  /** How many triggers come before the first one that is refused. */
  function AcceptedPrefix(ts: seq<Trigger>): (n: nat)
    ensures n <= |ts|
  {
    if ts == [] || !Accepted(ts[0]) then 0 else 1 + AcceptedPrefix(ts[1..])
  }

  lemma {:induction false} AcceptedPrefixAt(ts: seq<Trigger>, i: nat)
    requires i < |ts| && i <= AcceptedPrefix(ts)
    ensures i < AcceptedPrefix(ts) <==> Accepted(ts[i])
  {
    if i > 0 {
      AcceptedPrefixAt(ts[1..], i - 1);
    }
  }

  lemma {:induction false} AllAccepted(ts: seq<Trigger>)
    requires forall t :: t in ts ==> Accepted(t)
    ensures AcceptedPrefix(ts) == |ts| && ts[..|ts|] == ts
  {
    if ts != [] {
      AllAccepted(ts[1..]);
    }
  }

  function ScanEndOf(ts: seq<Trigger>): ScanEnd {
    if AcceptedPrefix(ts) == |ts| then Counted(|ts|) else InvalidTrigger
  }

  lemma StoredNext(rows: seq<Trigger>, ts: seq<Trigger>, n: nat)
    requires n < |ts|
    ensures Stored(rows, ts[..n + 1]) == Stored(Stored(rows, ts[..n]), [ts[n]])
  {
    assert ts[..n + 1][..n] == ts[..n];
    assert [ts[n]][..0] == [];
  }

  datatype ScanConfig = ScanConfig(threshold: real, minDurationMs: int, gap: int)

  datatype ScanEnd = Counted(count: nat) | VideoNotFound | InvalidTrigger

  /** The windows a scan of these samples plans. */
  function ScanWindows(c: ScanConfig, duration: Option<int>, samples: seq<M.Sample>): seq<M.Span> {
    M.TriggerWindows(samples, c.threshold, c.minDurationMs, c.gap, EofBound(duration, samples))
  }

  ghost predicate PlannedBy(c: ScanConfig, duration: Option<int>, samples: seq<M.Sample>, d: M.Derivation) {
    M.Derived(samples, c.threshold, c.minDurationMs, c.gap, EofBound(duration, samples), ScanWindows(c, duration, samples), d)
  }

  /** The trigger rows and the motion scan that fills them. */
  class MotionScan {
    var rows: seq<Trigger>

    constructor ()
      ensures rows == []
    {
      rows := [];
    }

    method CreateOrGet(t: Trigger)
      modifies this
      ensures rows == Stored(old(rows), [t])
    {
      assert Stored(rows, [t][..0]) == rows;
      if t !in rows {
        rows := rows + [t];
      }
    }

    /** Stores triggers in order up to the first one the contract refuses. */
    method Persist(ts: seq<Trigger>) returns (end: ScanEnd)
      modifies this
      ensures end == ScanEndOf(ts) && rows == Stored(old(rows), ts[..AcceptedPrefix(ts)])
    {
      var count := 0;
      while count < |ts|
        invariant 0 <= count <= AcceptedPrefix(ts)
        invariant rows == Stored(old(rows), ts[..count])
      {
        AcceptedPrefixAt(ts, count);
        if !(0 <= ts[count].start < ts[count].end) {
          return InvalidTrigger;
        }
        StoredNext(old(rows), ts, count);
        CreateOrGet(ts[count]);
        count := count + 1;
      }
      end := Counted(count);
    }

    /** Samples are planned against the end-of-file bound and their triggers stored. */
    method Process(job: nat, video: nat, c: ScanConfig, source: Option<Option<int>>, samples: seq<M.Sample>)
      returns (end: ScanEnd, ghost d: M.Derivation)
      modifies this
      ensures source.None? ==> end == VideoNotFound && rows == old(rows)
      ensures source.Some? ==>
                var ts := TriggersOf(job, video, ScanWindows(c, source.value, samples));
                end == ScanEndOf(ts) && rows == Stored(old(rows), ts[..AcceptedPrefix(ts)])
      ensures source.Some? ==> PlannedBy(c, source.value, samples, d)
    {
      d := M.Derivation([], 1, [], [], [], []);
      if source.None? {
        end := VideoNotFound;
        return;
      }
      var bound := source.value;
      if bound.None? && samples != [] {
        bound := Some(LastTime(samples));
      }
      var ws;
      ws, d := M.PlanMotionTriggers(samples, c.threshold, c.minDurationMs, c.gap, bound);
      end := Persist(TriggersOf(job, video, ws));
    }
  }

  /** Over samples with distinct, non-negative times no trigger is refused and no two triggers
      of a scan share an idempotency key. */
  lemma ScanIsAccepted(job: nat, video: nat, c: ScanConfig, duration: Option<int>, samples: seq<M.Sample>,
                       d: M.Derivation)
    requires M.DistinctTimes(samples) && forall s :: s in samples ==> s.ts >= 0
    requires PlannedBy(c, duration, samples, d)
    ensures ScanEndOf(TriggersOf(job, video, ScanWindows(c, duration, samples))) == Counted(|ScanWindows(c, duration, samples)|)
    ensures Distinct(TriggersOf(job, video, ScanWindows(c, duration, samples)))
  {
    var ws := ScanWindows(c, duration, samples);
    var ts := TriggersOf(job, video, ws);
    var bound := EofBound(duration, samples);
    forall i | 0 <= i < |ws|
      ensures Accepted(ts[i])
    {
      M.WindowsWellPlaced(samples, c.threshold, c.minDurationMs, c.gap, bound, ws, d, i, i);
    }
    AllAccepted(ts);
    forall i, j | 0 <= i < j < |ts|
      ensures ts[i] != ts[j]
    {
      M.WindowsWellPlaced(samples, c.threshold, c.minDurationMs, c.gap, bound, ws, d, i, j);
    }
  }

  // ---- windows over one trigger --------------------------------------------------------------

  /** The step between windows: a whole number of milliseconds and at least one. */
  function HighFreqStep(windowMs: int, ratio: real): int {
    Max(1, (windowMs as real * (1.0 - ratio)).Floor)
  }

  /** The step is the window length left over by the overlap, in whole milliseconds: the largest
      such number, and one if that is less. So neighbouring windows overlap by at least the
      configured share, and by less than a millisecond more. */
  lemma StepMeaning(windowMs: nat, ratio: real)
    requires windowMs > 0 && 0.0 <= ratio < 1.0
    ensures var step, rest := HighFreqStep(windowMs, ratio), windowMs as real * (1.0 - ratio);
            && (rest >= 1.0 ==> step as real <= rest < step as real + 1.0)
            && (rest < 1.0 ==> step == 1)
    ensures var step, kept := HighFreqStep(windowMs, ratio), windowMs as real * ratio;
            windowMs as real * (1.0 - ratio) >= 1.0 ==> kept <= (windowMs - step) as real < kept + 1.0
  {
    assert windowMs as real * (1.0 - ratio) == windowMs as real - windowMs as real * ratio;
  }

  function Moved(w: Window, shift: int): Window {
    Window(w.startMs + shift, w.endMs + shift)
  }

  /** The windows over `[from, until)`: the default plan of the span, moved to its place. */
  function WindowsOver(from: int, until: int, windowMs: nat, step: nat): (ws: seq<Window>)
    requires from < until && windowMs > 0 && step > 0
  {
    seq(SegmentCount(until - from, windowMs, step), i requires 0 <= i => Moved(WindowAt(until - from, windowMs, step, i), from))
  }

  datatype HfConfig = HfConfig(windowSeconds: int, ratio: real)

  predicate Usable(c: HfConfig) {
    c.windowSeconds > 0 && 0.0 <= c.ratio < 1.0
  }

  function SpanEnd(end: int, duration: Option<int>): int {
    if duration.Some? then Min(end, duration.value) else end
  }

  lemma StepWithinWindow(windowMs: nat, ratio: real)
    requires windowMs > 0 && 0.0 <= ratio < 1.0
    ensures 1 <= HighFreqStep(windowMs, ratio) <= windowMs
  {
    assert windowMs as real * ratio >= 0.0;
    assert windowMs as real * (1.0 - ratio) == windowMs as real - windowMs as real * ratio;
  }

  function HighFreqPlan(start: int, end: int, c: HfConfig, duration: Option<int>): Plan {
    var until := SpanEnd(end, duration);
    if until <= start then Planned([])
    else if !Usable(c) then ValueError
    else
      var windowMs := c.windowSeconds * 1000;
      Planned(WindowsOver(start, until, windowMs, HighFreqStep(windowMs, c.ratio)))
  }

  /** The loop over one trigger produces the moved default plan, for every argument. */
  method PlanHighFreqWindows(start: int, end: int, c: HfConfig, duration: Option<int>) returns (plan: Plan)
    ensures plan == HighFreqPlan(start, end, c, duration)
  {
    var endBound := end;
    if duration.Some? {
      endBound := Min(endBound, duration.value);
      if start >= duration.value { return Planned([]); }
    }
    if endBound <= start { return Planned([]); }
    var windowMs := c.windowSeconds * 1000;
    if windowMs <= 0 { return ValueError; }
    if !(0.0 <= c.ratio < 1.0) { return ValueError; }
    var span := endBound - start;
    var step := HighFreqStep(windowMs, c.ratio);
    StepWithinWindow(windowMs, c.ratio);
    ReachedIsCounted(span, windowMs, step, 0);
    ReachedIsCounted(span, windowMs, step, 1);
    if windowMs >= span {
      return Planned([Window(start, endBound)]);
    }
    var windows := CutSpan(start, endBound, windowMs, step);
    plan := Planned(windows);
  }

  method CutSpan(start: int, endBound: int, windowMs: nat, step: nat) returns (windows: seq<Window>)
    requires start < endBound && windowMs > 0 && 0 < step
    ensures windows == WindowsOver(start, endBound, windowMs, step)
  {
    ghost var span := endBound - start;
    windows := [];
    var at := start;
    while at < endBound
      invariant at == start + |windows| * step
      invariant Reached(span, windowMs, step, |windows|) || at >= endBound
      invariant |windows| > 0 ==> Reached(span, windowMs, step, |windows| - 1) && (|windows| - 1) * step + windowMs < span
      invariant forall i :: 0 <= i < |windows| ==> windows[i] == Moved(WindowAt(span, windowMs, step, i), start)
      decreases endBound - at
    {
      var stop := Min(at + windowMs, endBound);
      NextStart(span, windowMs, step, |windows|);
      windows := windows + [Window(at, stop)];
      if stop >= endBound {
        break;
      }
      at := at + step;
    }
    ReachedIsCounted(span, windowMs, step, |windows|);
    ReachedIsCounted(span, windowMs, step, |windows| - 1);
  }

  lemma NextStart(span: int, windowMs: nat, step: nat, n: nat)
    ensures (n + 1) * step == n * step + step
    ensures n * step + windowMs < span ==> Reached(span, windowMs, step, n + 1) || (n + 1) * step >= span
  {
  }

  /** The windows of a trigger are non-empty, stay within the trigger and the video, and
      together cover all of what lies in both. */
  lemma TriggerIsCovered(start: int, end: int, c: HfConfig, duration: Option<int>, t: int)
    requires Usable(c)
    ensures var plan := HighFreqPlan(start, end, c, duration);
            && plan.Planned?
            && (forall w :: w in plan.windows ==> start <= w.startMs < w.endMs <= SpanEnd(end, duration))
            && (start <= t < SpanEnd(end, duration) <==> Covered(plan.windows, t))
  {
    var until := SpanEnd(end, duration);
    if start < until {
      var windowMs := c.windowSeconds * 1000;
      var step := HighFreqStep(windowMs, c.ratio);
      StepWithinWindow(windowMs, c.ratio);
      var span := until - start;
      var moved := WindowsOver(start, until, windowMs, step);
      var base := seq(|moved|, i requires 0 <= i => WindowAt(span, windowMs, step, i));
      assert IsPlan(base, span, windowMs, step);
      forall i | 0 <= i < |moved|
        ensures start <= moved[i].startMs < moved[i].endMs <= until
      {
        ReachedIsCounted(span, windowMs, step, i);
      }
      if start <= t < until {
        CoversInstant(base, span, windowMs, step, t - start);
        var i :| 0 <= i < |base| && Contains(base[i], t - start);
        assert Contains(moved[i], t);
      }
    }
  }

  // ---- the planned units ------------------------------------------------------------------------

  /** A planned unit: its window, and the trigger and position it was planned for. */
  datatype HfUnit = HfUnit(window: Window, trigger: nat, position: nat, windowIndex: nat)

  datatype UnitPlan = Units(units: seq<HfUnit>) | PlanError

  function PlanOf(triggers: seq<Trigger>, k: nat, c: HfConfig, duration: Option<int>): Plan
    requires k < |triggers|
  {
    HighFreqPlan(triggers[k].start, triggers[k].end, c, duration)
  }

  predicate FromPlan(triggers: seq<Trigger>, c: HfConfig, duration: Option<int>, u: HfUnit) {
    && u.trigger < |triggers|
    && PlanOf(triggers, u.trigger, c, duration).Planned?
    && u.position < |PlanOf(triggers, u.trigger, c, duration).windows|
    && PlanOf(triggers, u.trigger, c, duration).windows[u.position] == u.window
    && u.windowIndex == u.trigger * 1000 + u.position
  }

  predicate Before(u: HfUnit, v: HfUnit) {
    u.trigger < v.trigger || (u.trigger == v.trigger && u.position < v.position)
  }

  ghost predicate Has(units: seq<HfUnit>, w: Window) {
    exists i :: 0 <= i < |units| && units[i].window == w
  }

  /** The window is not in the trigger's plan. */
  predicate Lacks(triggers: seq<Trigger>, c: HfConfig, duration: Option<int>, l: nat, w: Window)
    requires l < |triggers|
  {
    PlanOf(triggers, l, c, duration).Planned? ==> w !in PlanOf(triggers, l, c, duration).windows
  }

  /** No earlier trigger has the unit's window. */
  ghost predicate FirstWith(triggers: seq<Trigger>, c: HfConfig, duration: Option<int>, u: HfUnit) {
    u.trigger <= |triggers| && forall l: nat :: l < u.trigger ==> Lacks(triggers, c, duration, l, u.window)
  }

  /** No two units share a window, each comes from the plan of the first trigger that has its
      window, in planning order. */
  ghost predicate UnitsOk(triggers: seq<Trigger>, c: HfConfig, duration: Option<int>, units: seq<HfUnit>) {
    && (forall i :: 0 <= i < |units| ==> FromPlan(triggers, c, duration, units[i]) && FirstWith(triggers, c, duration, units[i]))
    && (forall i, j :: 0 <= i < j < |units| ==> units[i].window != units[j].window && Before(units[i], units[j]))
  }

  /** The windows of the first `k` triggers are all there. */
  ghost predicate HasAll(triggers: seq<Trigger>, c: HfConfig, duration: Option<int>, units: seq<HfUnit>, k: nat)
    requires k <= |triggers|
  {
    forall l: nat :: l < k ==> HasPlanOf(triggers, c, duration, units, l)
  }

  ghost predicate HasPlanOf(triggers: seq<Trigger>, c: HfConfig, duration: Option<int>, units: seq<HfUnit>, k: nat)
    requires k < |triggers|
  {
    HasPlan(PlanOf(triggers, k, c, duration), units)
  }

  ghost predicate HasPlan(plan: Plan, units: seq<HfUnit>) {
    plan.Planned? && HasFirst(plan.windows, units, |plan.windows|)
  }

  ghost predicate HasFirst(windows: seq<Window>, units: seq<HfUnit>, n: nat)
    requires n <= |windows|
  {
    forall i :: 0 <= i < n ==> Has(units, windows[i])
  }

  /** This job's triggers for the video. */
  function ForVideo(rows: seq<Trigger>, job: nat, video: nat): (ts: seq<Trigger>)
    ensures forall t :: t in ts <==> t in rows && t.job == job && t.video == video
  {
    if rows == [] then []
    else
      var n := |rows| - 1;
      assert rows == rows[..n] + [rows[n]];
      ForVideo(rows[..n], job, video) + if rows[n].job == job && rows[n].video == video then [rows[n]] else []
  }

  lemma HasMore(units: seq<HfUnit>, u: HfUnit, w: Window)
    ensures Has(units + [u], w) <==> Has(units, w) || w == u.window
  {
    if Has(units, w) {
      var i :| 0 <= i < |units| && units[i].window == w;
      assert (units + [u])[i].window == w;
    } else if w == u.window {
      assert (units + [u])[|units|].window == w;
    }
  }

  lemma HasAllMore(triggers: seq<Trigger>, c: HfConfig, duration: Option<int>, units: seq<HfUnit>, u: HfUnit, k: nat)
    requires k <= |triggers| && HasAll(triggers, c, duration, units, k)
    ensures HasAll(triggers, c, duration, units + [u], k)
  {
    forall l: nat | l < k
      ensures HasPlanOf(triggers, c, duration, units + [u], l)
    {
      assert HasPlanOf(triggers, c, duration, units, l);
      HasFirstMore(PlanOf(triggers, l, c, duration).windows, units, u, |PlanOf(triggers, l, c, duration).windows|);
    }
  }

  lemma HasFirstMore(windows: seq<Window>, units: seq<HfUnit>, u: HfUnit, n: nat)
    requires n <= |windows| && HasFirst(windows, units, n)
    ensures HasFirst(windows, units + [u], n)
  {
    forall i | 0 <= i < n
      ensures Has(units + [u], windows[i])
    {
      HasMore(units, u, windows[i]);
    }
  }

  predicate HasSpan(t: Trigger, duration: Option<int>) {
    t.start < SpanEnd(t.end, duration)
  }

  ghost predicate SomethingToCut(ts: seq<Trigger>, duration: Option<int>) {
    exists k :: 0 <= k < |ts| && HasSpan(ts[k], duration)
  }

  ghost predicate SeenIs(seen: set<Window>, units: seq<HfUnit>) {
    forall w :: w in seen <==> Has(units, w)
  }

  lemma AddUnit(triggers: seq<Trigger>, c: HfConfig, duration: Option<int>, units: seq<HfUnit>, u: HfUnit, seen: set<Window>)
    requires UnitsOk(triggers, c, duration, units) && SeenIs(seen, units) && u.window !in seen
    requires FromPlan(triggers, c, duration, u) && forall i :: 0 <= i < |units| ==> Before(units[i], u)
    requires HasAll(triggers, c, duration, units, u.trigger)
    ensures UnitsOk(triggers, c, duration, units + [u]) && SeenIs(seen + {u.window}, units + [u])
    ensures Has(units + [u], u.window)
  {
    assert !Has(units, u.window);
    forall l: nat | l < u.trigger
      ensures Lacks(triggers, c, duration, l, u.window)
    {
      assert HasPlanOf(triggers, c, duration, units, l);
    }
    forall w
      ensures w in seen + {u.window} <==> Has(units + [u], w)
    {
      HasMore(units, u, w);
    }
    forall i | 0 <= i < |units|
      ensures units[i].window != u.window
    {
      assert Has(units, units[i].window);
    }
  }

  /** Every window of every trigger is planned exactly once, for the first trigger that has it;
      planning fails exactly when the configuration is unusable and
      some trigger has a span to cut. */
  method PlanUnits(rows: seq<Trigger>, job: nat, video: nat, c: HfConfig, duration: Option<int>) returns (plan: UnitPlan)
    ensures var ts := ForVideo(rows, job, video);
            if !Usable(c) && SomethingToCut(ts, duration) then plan == PlanError
            else plan.Units? && UnitsOk(ts, c, duration, plan.units) && HasAll(ts, c, duration, plan.units, |ts|)
  {
    var triggers := ForVideo(rows, job, video);
    var seen: set<Window> := {};
    var planned: seq<HfUnit> := [];
    var k := 0;
    while k < |triggers|
      invariant 0 <= k <= |triggers|
      invariant UnitsOk(triggers, c, duration, planned) && HasAll(triggers, c, duration, planned, k)
      invariant SeenIs(seen, planned)
      invariant forall i :: 0 <= i < |planned| ==> planned[i].trigger < k
      invariant Usable(c) || forall i :: 0 <= i < k ==> !HasSpan(triggers[i], duration)
    {
      var p := PlanHighFreqWindows(triggers[k].start, triggers[k].end, c, duration);
      if p.ValueError? {
        assert HasSpan(triggers[k], duration);
        return PlanError;
      }
      seen, planned := PlanTrigger(triggers, k, c, duration, p.windows, seen, planned);
      k := k + 1;
    }
    plan := Units(planned);
  }

  method PlanTrigger(triggers: seq<Trigger>, k: nat, c: HfConfig, duration: Option<int>, windows: seq<Window>,
                     seen0: set<Window>, planned0: seq<HfUnit>)
    returns (seen: set<Window>, planned: seq<HfUnit>)
    requires k < |triggers| && PlanOf(triggers, k, c, duration) == Planned(windows)
    requires UnitsOk(triggers, c, duration, planned0) && HasAll(triggers, c, duration, planned0, k) && SeenIs(seen0, planned0)
    requires forall i :: 0 <= i < |planned0| ==> planned0[i].trigger < k
    ensures UnitsOk(triggers, c, duration, planned) && HasAll(triggers, c, duration, planned, k + 1) && SeenIs(seen, planned)
    ensures forall i :: 0 <= i < |planned| ==> planned[i].trigger <= k
  {
    seen, planned := seen0, planned0;
    var i := 0;
    while i < |windows|
      invariant 0 <= i <= |windows|
      invariant UnitsOk(triggers, c, duration, planned) && HasAll(triggers, c, duration, planned, k) && SeenIs(seen, planned)
      invariant forall j :: 0 <= j < |planned| ==> planned[j].trigger < k || (planned[j].trigger == k && planned[j].position < i)
      invariant HasFirst(windows, planned, i)
    {
      if windows[i] !in seen {
        var u := HfUnit(windows[i], k, i, k * 1000 + i);
        HasAllMore(triggers, c, duration, planned, u, k);
        HasFirstMore(windows, planned, u, i);
        AddUnit(triggers, c, duration, planned, u, seen);
        seen, planned := seen + {windows[i]}, planned + [u];
      }
      i := i + 1;
    }
  }

  // ---- from samples to units ---------------------------------------------------------------------

  ghost predicate InSomeUnit(units: seq<HfUnit>, t: int) {
    exists i :: 0 <= i < |units| && Contains(units[i].window, t)
  }

  /** What lies in a trigger and within the video lies in a planned unit. */
  lemma TriggerInUnits(ts: seq<Trigger>, c: HfConfig, duration: Option<int>, units: seq<HfUnit>, k: nat, t: int)
    requires Usable(c) && HasAll(ts, c, duration, units, |ts|)
    requires k < |ts| && ts[k].start <= t < SpanEnd(ts[k].end, duration)
    ensures InSomeUnit(units, t)
  {
    TriggerIsCovered(ts[k].start, ts[k].end, c, duration, t);
    var plan := PlanOf(ts, k, c, duration);
    var i :| 0 <= i < |plan.windows| && Contains(plan.windows[i], t);
    assert HasPlanOf(ts, c, duration, units, k) && Has(units, plan.windows[i]);
    var j :| 0 <= j < |units| && units[j].window == plan.windows[i];
    assert Contains(units[j].window, t);
  }

  ghost predicate MustBeAnalysed(samples: seq<M.Sample>, threshold: real, bound: Option<int>, duration: Option<int>, s: M.Sample) {
    && s in samples && s.score >= threshold
    && (bound.Some? ==> s.ts < bound.value) && (duration.Some? ==> s.ts < duration.value)
  }

  /** The scan plans a trigger around every sample above the threshold. */
  lemma HotSampleTrigger(samples: seq<M.Sample>, sc: ScanConfig, bound: Option<int>, ws: seq<M.Span>, d: M.Derivation,
                         job: nat, video: nat, s: M.Sample)
    returns (trigger: Trigger)
    requires M.DistinctTimes(samples) && M.Derived(samples, sc.threshold, sc.minDurationMs, sc.gap, bound, ws, d)
    requires s in samples && s.score >= sc.threshold && (bound.Some? ==> s.ts < bound.value)
    ensures trigger in TriggersOf(job, video, ws)
    ensures trigger.job == job && trigger.video == video && trigger.start <= s.ts < trigger.end
  {
    M.HotSamplesCovered(samples, sc.threshold, sc.minDurationMs, sc.gap, bound, ws, d, s);
    var i :| 0 <= i < |ws| && M.Within(ws[i], s.ts);
    trigger := TriggerAt(job, video, ws, i);
  }

  lemma TriggerAt(job: nat, video: nat, ws: seq<M.Span>, i: nat) returns (trigger: Trigger)
    requires i < |ws|
    ensures trigger in TriggersOf(job, video, ws) && trigger == Trigger(job, video, ws[i].start, ws[i].end)
  {
    trigger := TriggersOf(job, video, ws)[i];
  }

  /** Every sample above the threshold that lies before the scan's bound and before the
      planner's duration is inside a planned unit, whatever else was stored before. */
  lemma HotSampleIsAnalysed(samples: seq<M.Sample>, sc: ScanConfig, bound: Option<int>, ws: seq<M.Span>, d: M.Derivation,
                            rows: seq<Trigger>, job: nat, video: nat, c: HfConfig, duration: Option<int>, units: seq<HfUnit>,
                            s: M.Sample)
    requires M.DistinctTimes(samples) && Usable(c)
    requires M.Derived(samples, sc.threshold, sc.minDurationMs, sc.gap, bound, ws, d)
    requires forall t :: t in TriggersOf(job, video, ws) ==> t in rows
    requires HasAll(ForVideo(rows, job, video), c, duration, units, |ForVideo(rows, job, video)|)
    requires MustBeAnalysed(samples, sc.threshold, bound, duration, s)
    ensures InSomeUnit(units, s.ts)
  {
    var trigger := HotSampleTrigger(samples, sc, bound, ws, d, job, video, s);
    assert trigger in ForVideo(rows, job, video);
    StoredTriggerInUnits(ForVideo(rows, job, video), trigger, c, duration, units, s.ts);
  }

  lemma StoredTriggerInUnits(ts: seq<Trigger>, trigger: Trigger, c: HfConfig, duration: Option<int>, units: seq<HfUnit>, t: int)
    requires Usable(c) && trigger in ts && trigger.start <= t < trigger.end && (duration.Some? ==> t < duration.value)
    requires HasAll(ts, c, duration, units, |ts|)
    ensures InSomeUnit(units, t)
  {
    var k: nat :| k < |ts| && ts[k] == trigger;
    TriggerInUnits(ts, c, duration, units, k, t);
  }

  /** The scan of phase 1 followed by the planning of phase 2, from any stored triggers: no
      trigger is refused, and every sample above the threshold that both bounds admit is
      inside a planned unit. */
  method ScanThenPlan(store: MotionScan, job: nat, video: nat, sc: ScanConfig, scanned: Option<int>, samples: seq<M.Sample>,
                      c: HfConfig, duration: Option<int>)
    returns (end: ScanEnd, plan: UnitPlan)
    requires M.DistinctTimes(samples) && Usable(c) && forall s :: s in samples ==> s.ts >= 0
    modifies store
    ensures end == Counted(|ScanWindows(sc, scanned, samples)|) && plan.Units?
    ensures UnitsOk(ForVideo(store.rows, job, video), c, duration, plan.units)
    ensures forall s :: MustBeAnalysed(samples, sc.threshold, EofBound(scanned, samples), duration, s) ==> InSomeUnit(plan.units, s.ts)
  {
    ghost var d;
    end, d := store.Process(job, video, sc, Some(scanned), samples);
    ghost var ts := TriggersOf(job, video, ScanWindows(sc, scanned, samples));
    ScanIsAccepted(job, video, sc, scanned, samples, d);
    StoredMeaning(old(store.rows), ts[..AcceptedPrefix(ts)]);
    assert ts[..AcceptedPrefix(ts)] == ts;
    plan := PlanUnits(store.rows, job, video, c, duration);
    forall s | MustBeAnalysed(samples, sc.threshold, EofBound(scanned, samples), duration, s)
      ensures InSomeUnit(plan.units, s.ts)
    {
      HotSampleIsAnalysed(samples, sc, EofBound(scanned, samples), ScanWindows(sc, scanned, samples), d, store.rows, job, video,
                          c, duration, plan.units, s);
    }
  }

  /** Every planned window is non-empty and within the video and its trigger, and adds nothing
      outside the triggers: an instant is analysed if and only if a trigger holds it. */
  lemma UnitsAreTheTriggers(ts: seq<Trigger>, c: HfConfig, duration: Option<int>, units: seq<HfUnit>, t: int)
    requires Usable(c) && UnitsOk(ts, c, duration, units) && HasAll(ts, c, duration, units, |ts|)
    ensures forall i :: 0 <= i < |units| ==>
              var u := units[i];
              ts[u.trigger].start <= u.window.startMs < u.window.endMs <= SpanEnd(ts[u.trigger].end, duration)
    ensures InSomeUnit(units, t) <==> exists k :: 0 <= k < |ts| && ts[k].start <= t < SpanEnd(ts[k].end, duration)
  {
    forall i | 0 <= i < |units|
      ensures var u := units[i];
              && u.trigger < |ts|
              && ts[u.trigger].start <= u.window.startMs < u.window.endMs <= SpanEnd(ts[u.trigger].end, duration)
    {
      var u := units[i];
      assert FromPlan(ts, c, duration, u);
      TriggerIsCovered(ts[u.trigger].start, ts[u.trigger].end, c, duration, t);
    }
    if exists k :: 0 <= k < |ts| && ts[k].start <= t < SpanEnd(ts[k].end, duration) {
      var k :| 0 <= k < |ts| && ts[k].start <= t < SpanEnd(ts[k].end, duration);
      TriggerInUnits(ts, c, duration, units, k, t);
    }
  }
}
