/**
  One cross-scale run of an analysis job: the phases of `_process_cross_scale` over the
  stored job, scale-task and unit rows. Each write session either persists or raises, as
  the `Faults` record says; an exception that no phase catches ends the run as `Escaped`
  with the store as the last commit left it. A crash outside Phase 4 leaves what an escape
  at that point leaves; what one inside Phase 4 leaves is the subject of `JobRecovery`.
*/
module JobRun {
  import opened Statuses
  import opened UnitProtocol
  import opened CrossScaleScheduler
  import opened Orders

  /** true = the session commits / the call returns. Plans and scan carry their results. */
  datatype Faults = Faults(
    markRunning: bool,
    motionStart: bool, scan: Option<nat>, motionFinish: bool, motionFail: bool,
    triggersRead: bool, skipHighFreq: bool, skipOther: bool,
    defaultStart: bool, planDefault: Option<seq<Key>>,
    highFreqStart: bool, planHighFreq: Option<seq<Key>>, highFreqFail: bool,
    reconcile: bool, finishScales: bool, required: bool, finishJob: bool)

  datatype End =
    | Ended                          // the run wrote its verdict
    | Escaped                        // an exception left the run
    | EscapedWith(verdict: JobStatus) // ... after Phase 5, before this verdict was written

  datatype UnitRow = UnitRow(status: TaskStatus, published: nat)

  predicate ValidPlan(plan: Option<seq<Key>>, scale: Scale) {
    plan.Some? ==> Distinct(plan.value) && forall k :: k in plan.value ==> k.scale == scale
  }

  predicate ValidFaults(f: Faults) {
    ValidPlan(f.planDefault, DefaultSegment) && ValidPlan(f.planHighFreq, HighFreqEvent)
  }

  function LocalIn(units: map<Key, UnitRow>, k: Key): Local {
    if k in units then Local(Some(units[k].status), units[k].published, Idle) else Local(None, 0, Idle)
  }

  function StoreLocal(units: map<Key, UnitRow>, k: Key, l: Local): map<Key, UnitRow> {
    if l.row.Some? then units[k := UnitRow(l.row.value, l.published)] else units
  }

  /** Phase 4.5 touches only running rows, and makes them failed. */
  lemma ReconciledMeaning(units: map<Key, UnitRow>, k: Key)
    requires k in units
    ensures k in Reconciled(units) && Reconciled(units)[k].published == units[k].published
    ensures Reconciled(units)[k].status == if units[k].status == Running then Failed else units[k].status
  {
  }

  /** Phase 4.5: rows still running become failed. */
  function Reconciled(units: map<Key, UnitRow>): map<Key, UnitRow> {
    map k | k in units :: if units[k].status.Running? then units[k].(status := Failed) else units[k]
  }

  ghost predicate Fresh(job: JobStatus, scales: map<Scale, ScaleRow>, units: map<Key, UnitRow>) {
    job.JQueued? && units == map[] && AllPending(scales)
  }

  /** Merging two plans of different scales keeps every unit once. */
  lemma MergedPlans(hf: seq<Key>, df: seq<Key>, ordered: seq<Key>)
    requires Distinct(hf) && Distinct(df)
    requires forall k :: k in hf ==> k.scale.HighFreqEvent?
    requires forall k :: k in df ==> k.scale.DefaultSegment?
    requires multiset(ordered) == multiset(hf) + multiset(df)
    ensures Distinct(ordered)
    ensures forall k :: k in ordered <==> k in hf || k in df
  {
    forall k
      ensures multiset(ordered)[k] <= 1
      ensures k in ordered <==> k in hf || k in df
    {
      DistinctCount(hf, k);
      DistinctCount(df, k);
      assert k in ordered <==> k in multiset(ordered);
      assert k in hf <==> k in multiset(hf);
      assert k in df <==> k in multiset(df);
    }
    CountDistinct(ordered);
  }

  class JobStore {
    var job: JobStatus
    var scales: map<Scale, ScaleRow>
    var units: map<Key, UnitRow>
    var hasTriggers: bool
    ghost var illegal: bool          // some transition the tables forbid was attempted

    // ---- write sessions ------------------------------------------------------------

    method TransitionJob(target: JobStatus, persists: bool) returns (ok: bool)
      modifies this`job, this`illegal
      ensures ok <==> persists && AcceptsJob(old(job), target)
      ensures job == if ok then target else old(job)
      ensures illegal == (old(illegal) || !AcceptsJob(old(job), target))
    {
      if !AcceptsJob(job, target) {
        illegal := true;
        return false;
      }
      if persists {
        job := target;
      }
      return persists;
    }

    method TransitionScale(s: Scale, target: TaskStatus, persists: bool) returns (ok: bool)
      requires s in scales
      modifies this`scales, this`illegal
      ensures ok <==> persists && AcceptsTask(old(scales)[s].status, target)
      ensures scales == if ok then old(scales)[s := old(scales)[s].(status := target)] else old(scales)
      ensures illegal == (old(illegal) || !AcceptsTask(old(scales)[s].status, target))
    {
      if !AcceptsTask(scales[s].status, target) {
        illegal := true;
        return false;
      }
      if persists {
        scales := scales[s := scales[s].(status := target)];
      }
      return persists;
    }

    /** Counters and status of one scale, in one session. */
    method FinalizeScale(s: Scale, r: ScaleResult, persists: bool) returns (ok: bool)
      requires s in scales
      modifies this`scales, this`illegal
      ensures ok <==> persists && AcceptsTask(old(scales)[s].status, ScaleVerdict(r.succeeded, r.failed))
      ensures scales == if ok
                        then old(scales)[s := RowFor(r)]
                        else old(scales)
      ensures illegal == (old(illegal) || !AcceptsTask(old(scales)[s].status, ScaleVerdict(r.succeeded, r.failed)))
    {
      var before := scales;
      var row := scales[s].(total := r.total, succeeded := r.succeeded, failed := r.failed);
      scales := scales[s := row];
      var target := ScaleVerdict(r.succeeded, r.failed);
      ok := TransitionScale(s, target, persists);
      if !ok {
        scales := before;  // the session rolls back
      } else {
        assert scales == before[s := RowFor(r)];
      }
    }

    /** `_handle_required_failure`: default (if running) and job fail together. */
    method HandleRequiredFailure(persists: bool) returns (ok: bool)
      modifies this`job, this`scales, this`illegal
      ensures ok <==> persists && AcceptsJob(old(job), JFailed)
      ensures illegal == (old(illegal) || !AcceptsJob(old(job), JFailed))
      ensures job == if ok then JFailed else old(job)
      ensures scales ==
        if ok && DefaultSegment in old(scales) && old(scales)[DefaultSegment].status.Running?
        then old(scales)[DefaultSegment := old(scales)[DefaultSegment].(status := Failed)]
        else old(scales)
    {
      var before := scales;
      if DefaultSegment in scales && scales[DefaultSegment].status.Running? {
        ok := TransitionScale(DefaultSegment, Failed, true);
      }
      ok := TransitionJob(JFailed, persists);
      if !ok {
        scales := before;
      }
    }

    // ---- phases ---------------------------------------------------------------------

    /** `_process_scale_task` for the motion scan; false = it raised. */
    method ScanMotion(f: Faults) returns (ok: bool)
      requires MotionScan in scales
      modifies this`scales, this`hasTriggers, this`illegal
      ensures scales.Keys == old(scales.Keys)
      ensures SameBut(scales, old(scales), MotionScan)
      ensures ok <==> Starts(old(scales)[MotionScan].status, f.motionStart) && f.scan.Some? && f.motionFinish
      ensures scales[MotionScan].status ==
                if ok then Succeeded
                else if Starts(old(scales)[MotionScan].status, f.motionStart) then Running
                else old(scales)[MotionScan].status
      ensures !Starts(old(scales)[MotionScan].status, f.motionStart) ==> scales == old(scales)
      ensures hasTriggers == (old(hasTriggers) || TriggeredBy(f, old(scales)))
      ensures old(scales)[MotionScan].status.Pending? ==> illegal == old(illegal)
    {
      ok := TransitionScale(MotionScan, Running, f.motionStart);
      if !ok { return false; }
      if f.scan.None? { return false; }
      var produced := f.scan.value;
      if produced > 0 {
        hasTriggers := true;
      }
      ok := FinalizeScale(MotionScan, ScaleResult(produced, produced, 0, 0), f.motionFinish);
    }

    method Phase1(f: Faults) returns (ok: bool, failed: bool)
      modifies this`scales, this`hasTriggers, this`illegal
      ensures scales.Keys == old(scales.Keys)
      ensures SameBut(scales, old(scales), MotionScan)
      ensures ok <==> MotionPasses(f, old(scales))
      ensures failed <==> MotionScan in scales && !MotionSucceeds(f, old(scales))
      ensures MotionScan in scales && ok ==> scales[MotionScan].status == (if failed then Failed else Succeeded)
      ensures hasTriggers == (old(hasTriggers) || TriggeredBy(f, old(scales)))
      ensures MotionScan !in scales ==> illegal == old(illegal)
      ensures MotionScan in scales && old(scales)[MotionScan].status.Pending? ==> illegal == (old(illegal) || !f.motionStart)
      ensures MotionScan in scales && old(scales)[MotionScan].status.Succeeded? ==> !ok && scales == old(scales)
    {
      failed := false;
      ok := true;
      if MotionScan in scales {
        var scanned := ScanMotion(f);
        if !scanned {
          failed := true;
          ok := TransitionScale(MotionScan, Failed, f.motionFail);
        }
      }
    }

    method Phase2(f: Faults) returns (ok: bool, highFreqActive: bool)
      modifies this`scales, this`illegal
      ensures scales.Keys == old(scales.Keys)
      ensures SameAt(scales, old(scales), DefaultSegment) && SameAt(scales, old(scales), MotionScan)
      ensures ok <==> SkipsPass(f, old(scales), hasTriggers)
      ensures ok ==> (highFreqActive <==> HighFreqEvent in scales && hasTriggers)
      ensures ok && highFreqActive ==> scales[HighFreqEvent] == old(scales)[HighFreqEvent]
      ensures ok && HighFreqEvent in scales && !highFreqActive ==> scales[HighFreqEvent].status.Skipped?
      ensures ok && LowFreqSummary in scales ==> scales[LowFreqSummary].status.Skipped?
      ensures PendingAt(old(scales), HighFreqEvent) && PendingAt(old(scales), LowFreqSummary) ==> illegal == old(illegal)
    {
      highFreqActive := false;
      if HighFreqEvent in scales {
        if !f.triggersRead { return false, false; }
        highFreqActive := hasTriggers;
        if !highFreqActive {
          ok := TransitionScale(HighFreqEvent, Skipped, f.skipHighFreq);
          if !ok { return false, false; }
        }
      }
      if LowFreqSummary in scales {
        ok := TransitionScale(LowFreqSummary, Skipped, f.skipOther);
        if !ok { return false, false; }
      }
      ok := true;
    }

    /** Planning of the optional high-frequency scale. */
    method PlanHighFreq(f: Faults) returns (ok: bool, failed: bool, plan: seq<Key>)
      requires HighFreqEvent in scales && ValidFaults(f)
      modifies this`scales, this`illegal
      ensures scales.Keys == old(scales.Keys)
      ensures SameBut(scales, old(scales), HighFreqEvent)
      ensures ValidPlan(Some(plan), HighFreqEvent)
      ensures ok <==> HighFreqPasses(f, old(scales))
      ensures failed <==> !(Starts(old(scales)[HighFreqEvent].status, f.highFreqStart) && f.planHighFreq.Some?)
      ensures if failed then plan == [] else f.planHighFreq == Some(plan)
      ensures ok ==> scales[HighFreqEvent].status == (if failed then Failed else Running)
      ensures old(scales)[HighFreqEvent].status.Pending? ==> illegal == (old(illegal) || !f.highFreqStart)
    {
      failed, plan := false, [];
      ok := TransitionScale(HighFreqEvent, Running, f.highFreqStart);
      if ok && f.planHighFreq.Some? {
        plan := f.planHighFreq.value;
        return true, false, plan;
      }
      failed := true;
      ok := TransitionScale(HighFreqEvent, Failed, f.highFreqFail);
    }

    /** The units of `ordered`, one after the other, each run to its end by `run`. */
    method DriveWith(ordered: seq<Key>, run: (Key, Local) -> Local) returns (reports: seq<Report>)
      requires Distinct(ordered) && ValidEnds(units, EndsOf(ordered, run, units))
      modifies this`units
      ensures Driven(old(units), units, EndsOf(ordered, run, old(units)), ordered)
      ensures Reported(ordered, EndsOf(ordered, run, old(units)), reports)
    {
      reports := [];
      ghost var ends := EndsOf(ordered, run, units);
      var i := 0;
      while i < |ordered|
        invariant 0 <= i <= |ordered|
        invariant Driven(old(units), units, ends, ordered[..i])
        invariant Reported(ordered[..i], ends, reports)
      {
        var k := ordered[i];
        DriveStep(old(units), units, ends, ordered, i);
        var l := run(k, LocalIn(units, k));
        units := StoreLocal(units, k, l);
        reports := reports + [Report(k.scale, l.pc.outcome)];
        i := i + 1;
      }
      assert ordered[..|ordered|] == ordered;
    }

    /** The units of `ordered`, run one after the other. */
    method DriveUnits(ordered: seq<Key>, max: nat, env: Key -> nat -> Env)
      returns (reports: seq<Report>, ghost outcomes: map<Key, Outcome>)
      requires Distinct(ordered)
      modifies this`units
      ensures forall k :: k in outcomes <==> k in ordered
      ensures RanAll(max, env, old(units), units, outcomes)
      ensures reports == ReportsOf(ordered, outcomes)
    {
      var run := RunOf(max, env);
      RunsAreValid(ordered, max, env, units);
      reports := DriveWith(ordered, run);
      outcomes := DrivenToTheEnd(max, env, old(units), units, ordered, reports);
    }

    /** Phase 4 in dispatch order; `PoolEndsLikeDriver` says the same of every interleaving. */
    method RunPlanned(hf: seq<Key>, df: seq<Key>, quota: int, max: nat, env: Key -> nat -> Env)
      returns (ds: ScaleResult, hs: ScaleResult, ghost outcomes: map<Key, Outcome>)
      requires ValidPlan(Some(hf), HighFreqEvent) && ValidPlan(Some(df), DefaultSegment)
      modifies this`units
      ensures forall k :: k in outcomes <==> k in hf || k in df
      ensures forall k :: k in outcomes ==> Ran(max, env, old(units), units, k, outcomes[k])
      ensures forall k :: k !in outcomes ==> LocalIn(units, k) == LocalIn(old(units), k)
      ensures ds == CountedResult(df, outcomes, DefaultSegment)
      ensures hs == CountedResult(hf, outcomes, HighFreqEvent)
    {
      var ordered := DispatchOrder(hf, df, quota);
      assert hf[..|hf|] == hf && df[..|df|] == df;
      MergedPlans(hf, df, ordered);
      var reports;
      reports, outcomes := DriveUnits(ordered, max, env);
      ReportsHaveScales(ordered, outcomes);
      ds, hs := Aggregate(|df|, |hf|, reports);
      CountScale(ordered, df, outcomes, DefaultSegment);
      CountScale(ordered, hf, outcomes, HighFreqEvent);
    }

    /** Phase 5: both scales are finalised in one session, or neither is. */
    method FinishScales(ds: ScaleResult, hs: ScaleResult, highFreqActive: bool, persists: bool) returns (ok: bool)
      requires DefaultSegment in scales ==> scales[DefaultSegment].status.Running?
      requires highFreqActive ==> HighFreqEvent in scales && scales[HighFreqEvent].status.Running?
      modifies this`scales, this`illegal
      ensures ok == persists && illegal == old(illegal)
      ensures scales == if ok then Finished(old(scales), ds, hs, highFreqActive) else old(scales)
    {
      var before := scales;
      ok := true;
      if DefaultSegment in scales {
        ok := FinalizeScale(DefaultSegment, ds, true);
      }
      if highFreqActive {
        ok := FinalizeScale(HighFreqEvent, hs, true);
      }
      ok := persists;
      if !persists {
        scales := before;
      }
    }

    /** Phases 4, 4.5 and 5. */
    method RunAndSettle(f: Faults, df: seq<Key>, hf: seq<Key>, highFreqActive: bool,
                        quota: int, max: nat, env: Key -> nat -> Env)
      returns (ok: bool, ds: ScaleResult, hs: ScaleResult, ghost told: map<Key, Outcome>)
      requires ValidPlan(Some(hf), HighFreqEvent) && ValidPlan(Some(df), DefaultSegment)
      requires DefaultSegment in scales ==> scales[DefaultSegment].status.Running?
      requires highFreqActive ==> HighFreqEvent in scales && scales[HighFreqEvent].status.Running?
      modifies this`scales, this`units, this`illegal
      ensures illegal == old(illegal)
      ensures forall k :: k in told <==> k in hf || k in df
      ensures Phase4Rows(max, env, old(units), units, told, ok)
      ensures ds == CountedResult(df, told, DefaultSegment) && hs == CountedResult(hf, told, HighFreqEvent)
      ensures ok <==> f.reconcile && f.finishScales
      ensures scales == if ok then Finished(old(scales), ds, hs, highFreqActive) else old(scales)
    {
      ds, hs, told := RunPlanned(hf, df, quota, max, env);
      assert RanAll(max, env, old(units), units, told);
      if !f.reconcile { return false, ds, hs, told; }
      units := Reconciled(units);
      ok := FinishScales(ds, hs, highFreqActive, f.finishScales);
    }

    /** Phase 3: plan both scales. `settled` = the required scale failed and the run is over. */
    method Phase3(f: Faults, highFreqWanted: bool, partialSoFar: bool)
      returns (ok: bool, settled: bool, df: seq<Key>, hf: seq<Key>, highFreqActive: bool, partial: bool)
      requires ValidFaults(f) && job.JRunning?
      requires highFreqWanted ==> HighFreqEvent in scales
      requires Settled(scales, highFreqWanted, partialSoFar)
      modifies this`job, this`scales, this`illegal
      ensures scales.Keys == old(scales.Keys)
      ensures settled <==> !DefaultPlanned(f, old(scales))
      ensures ok <==> if settled then f.required else highFreqWanted ==> HighFreqPasses(f, old(scales))
      ensures job == if ok && settled then JFailed else JRunning
      ensures !ok || settled || Ready(f, scales, df, hf, highFreqActive, partial)
      ensures !ok || settled || Planned(f, old(scales), scales, highFreqWanted, highFreqActive)
      ensures PendingAt(old(scales), DefaultSegment) && (highFreqWanted ==> PendingAt(old(scales), HighFreqEvent)) ==>
                illegal == (old(illegal) || (highFreqWanted && !settled && !f.highFreqStart))
    {
      df, hf, highFreqActive, partial, settled := [], [], highFreqWanted, partialSoFar, false;
      if DefaultSegment in scales {
        ok := TransitionScale(DefaultSegment, Running, f.defaultStart);
        if !ok || f.planDefault.None? {
          ok := HandleRequiredFailure(f.required);
          settled := true;
          return;
        }
        df := f.planDefault.value;
      }
      ok := true;
      if highFreqWanted {
        var failed;
        ok, failed, hf := PlanHighFreq(f);
        if failed {
          highFreqActive, partial := false, true;
        }
      }
    }

    /** Phases 1 and 2. */
    method OpenScales(f: Faults) returns (ok: bool, failed: bool, highFreqWanted: bool)
      modifies this`scales, this`hasTriggers, this`illegal
      ensures ok <==> ScalesOpen(f, old(scales), old(hasTriggers))
      ensures scales.Keys == old(scales.Keys)
      ensures ok ==> OpenRows(f, old(scales), scales, old(hasTriggers), failed, highFreqWanted)
      ensures AllPending(old(scales)) ==> illegal == (old(illegal) || (MotionScan in scales && !f.motionStart))
      ensures MotionScan in old(scales) && old(scales)[MotionScan].status.Succeeded? ==> !ok && scales == old(scales)
    {
      highFreqWanted := false;
      ok, failed := Phase1(f);
      if !ok { return; }
      ok, highFreqWanted := Phase2(f);
    }

    /** Phases 1 to 3 of a job that was set running. */
    method PrepareScales(f: Faults)
      returns (ok: bool, settled: bool, df: seq<Key>, hf: seq<Key>, highFreqActive: bool, partial: bool)
      requires ValidFaults(f) && job.JRunning?
      modifies this`job, this`scales, this`hasTriggers, this`illegal
      ensures scales.Keys == old(scales.Keys)
      ensures job == if ok && settled then JFailed else JRunning
      ensures ok <==> ScalesPrepare(f, old(scales), old(hasTriggers))
      ensures ok ==> (settled <==> !DefaultPlanned(f, old(scales)))
      ensures !ok || settled || Ready(f, scales, df, hf, highFreqActive, partial)
      ensures ok && !settled ==> (highFreqActive <==> WantsHighFreq(f, old(scales), old(hasTriggers)) && HighFreqStarts(f, old(scales)))
      ensures !ok || settled || QuietRows(f, old(scales), old(hasTriggers), scales)
      ensures AllPending(old(scales)) ==> illegal == (old(illegal) || LosesStart(f, old(scales), old(hasTriggers)))
      ensures MotionScan in old(scales) && old(scales)[MotionScan].status.Succeeded? ==> !ok && scales == old(scales)
    {
      settled, df, hf, highFreqActive, partial := false, [], [], false, false;
      var failed, wanted;
      ok, failed, wanted := OpenScales(f);
      if ok {
        ghost var middle := scales;
        OpenedFacts(f, old(scales), middle, old(hasTriggers), failed, wanted);
        ok, settled, df, hf, highFreqActive, partial := Phase3(f, wanted, failed);
        QuietAfterPlanning(f, old(scales), middle, scales, old(hasTriggers), failed, wanted, highFreqActive);
      }
    }

    /** Everything before Phase 4. */
    method Prepare(f: Faults)
      returns (ok: bool, settled: bool, df: seq<Key>, hf: seq<Key>, highFreqActive: bool, partial: bool)
      requires ValidFaults(f)
      modifies this`job, this`scales, this`hasTriggers, this`illegal
      ensures scales.Keys == old(scales.Keys)
      ensures job == if ok && settled then JFailed else Begun(f, old(job))
      ensures ok <==> Prepares(f, old(job), old(scales), old(hasTriggers))
      ensures ok ==> (settled <==> !DefaultPlanned(f, old(scales)))
      ensures !ok || settled || Ready(f, scales, df, hf, highFreqActive, partial)
      ensures ok && !settled ==> (highFreqActive <==> WantsHighFreq(f, old(scales), old(hasTriggers)) && HighFreqStarts(f, old(scales)))
      ensures !ok || settled || QuietRows(f, old(scales), old(hasTriggers), scales)
      ensures AllPending(old(scales)) && old(job).JQueued? ==>
                illegal == (old(illegal) || AttemptsIllegal(f, old(scales), old(hasTriggers)))
      ensures MotionScan in old(scales) && old(scales)[MotionScan].status.Succeeded? ==> !ok && scales == old(scales)
    {
      settled, df, hf, highFreqActive, partial := false, [], [], false, false;
      ok := TransitionJob(JRunning, f.markRunning);
      if ok {
        ok, settled, df, hf, highFreqActive, partial := PrepareScales(f);
      }
    }

    /** Phases 4 to 6, once every scale is running or already settled. */
    method Conclude(f: Faults, df: seq<Key>, hf: seq<Key>, highFreqActive: bool, partial: bool,
                    quota: int, max: nat, env: Key -> nat -> Env)
      returns (end: End, ghost told: map<Key, Outcome>)
      requires job.JRunning? && Ready(f, scales, df, hf, highFreqActive, partial)
      modifies this`job, this`scales, this`units, this`illegal
      ensures illegal == old(illegal) && scales.Keys == old(scales).Keys
      ensures end.Escaped? <==> !(f.reconcile && f.finishScales)
      ensures !end.Escaped? ==> (end.Ended? <==> if StoredVerdict(scales).JFailed? then f.required else f.finishJob)
      ensures end.Escaped? ==> job.JRunning?
      ensures end.EscapedWith? ==> job.JRunning? && end.verdict == StoredVerdict(scales)
      ensures end.Ended? ==> job == StoredVerdict(scales)
      ensures end.Escaped? || Concluded(f, old(scales), scales, df, hf, highFreqActive, told)
      ensures !end.Escaped? ==> NoneRunning(units) && Phase4Rows(max, env, old(units), units, told, true)
      ensures !end.Escaped? && old(units) == map[] && JobAlwaysSeen(env) ==> Borne(units, told)
    {
      var ok, ds, hs;
      ok, ds, hs, told := RunAndSettle(f, df, hf, highFreqActive, quota, max, env);
      FinishedRows(old(scales), ds, hs, highFreqActive);
      if !ok { return Escaped, told; }
      ConcludedRows(f, old(scales), df, hf, highFreqActive, partial, told);
      RowsAfterRun(max, env, old(units), units, told);
      end := Phase6(f, ds, hs, highFreqActive, partial);
    }

    /** A claimed task, start to end. The clauses about the verdict, the rows and how far the
        run gets hold from any stored state, so for re-runs too; those about a first run say
        that its tallies are its stored rows, and when it attempts a forbidden transition. */
    method ProcessClaimedTask(f: Faults, quota: int, max: nat, env: Key -> nat -> Env)
      returns (end: End, ghost told: map<Key, Outcome>)
      requires ValidFaults(f)
      modifies this
      ensures end.Ended? <==> ReachesVerdict(f, old(job), old(scales), old(hasTriggers), told)
      ensures end.Escaped? ==> job == Begun(f, old(job))
      ensures end.Escaped? || EndedAs(Origin(f, old(job), old(scales), old(hasTriggers), old(units)), max, env, end, told, job, scales, units)
      ensures Fresh(old(job), old(scales), old(units)) ==>
                illegal == (old(illegal) || AttemptsIllegal(f, old(scales), old(hasTriggers)))
      ensures MotionScan in old(scales) && old(scales)[MotionScan].status.Succeeded? ==>
                end.Escaped? && scales == old(scales) && units == old(units)
    {
      told := map[];
      ghost var start := Origin(f, job, scales, hasTriggers, units);
      var ok, settled, df, hf, active, partial := Prepare(f);
      if !ok { return Escaped, told; }
      if settled { return Ended, told; }
      ghost var ready := scales;
      end, told := Conclude(f, df, hf, active, partial, quota, max, env);
      if !end.Escaped? {
        ConcludedRun(start, ready, df, hf, active, partial, max, env, end, told, job, scales, units);
      }
    }

    method Phase6(f: Faults, ds: ScaleResult, hs: ScaleResult, highFreqActive: bool, partialSoFar: bool) returns (end: End)
      requires job.JRunning? && AllTerminal(scales)
      modifies this`job, this`scales, this`illegal
      ensures scales == old(scales) && illegal == old(illegal) && !end.Escaped?
      ensures var v := Phase6Verdict(DefaultSegment in scales, ds, hs, highFreqActive, partialSoFar);
              && (end.Ended? <==> if v.JFailed? then f.required else f.finishJob)
              && if end.Ended? then job == v else job.JRunning? && end.verdict == v
    {
      var ok;
      if DefaultSegment in scales && ds.total > 0 && ds.succeeded == 0 {
        ok := HandleRequiredFailure(f.required);
        end := if ok then Ended else EscapedWith(JFailed);
      } else {
        var anyPartial := partialSoFar || ds.failed > 0 || (highFreqActive && hs.failed > 0);
        var final := if anyPartial then JPartialFailed else JSucceeded;
        ok := TransitionJob(final, f.finishJob);
        end := if ok then Ended else EscapedWith(final);
      }
    }
  }

  /** The required scale, where there is one, was set running and planned. */
  predicate DefaultPlanned(f: Faults, scales: map<Scale, ScaleRow>) {
    DefaultSegment in scales ==>
      Starts(scales[DefaultSegment].status, f.defaultStart) && f.planDefault.Some?
  }

  // ---- how far a run gets -------------------------------------------------------------

  predicate Runnable(status: TaskStatus) {
    !status.Succeeded? && !status.Skipped?
  }

  predicate Skippable(status: TaskStatus) {
    status.Pending? || status.Skipped?
  }

  predicate Failable(status: TaskStatus) {
    status.Running? || status.Failed?
  }

  /** A request to set a scale running goes through. */
  predicate Starts(status: TaskStatus, persists: bool) {
    persists && Runnable(status)
  }

  predicate MotionSucceeds(f: Faults, scales: map<Scale, ScaleRow>) {
    MotionScan in scales && Starts(scales[MotionScan].status, f.motionStart) && f.scan.Some? && f.motionFinish
  }

  /** The motion scan ends succeeded, or its failure can be stored. */
  predicate MotionPasses(f: Faults, scales: map<Scale, ScaleRow>) {
    MotionScan in scales && !MotionSucceeds(f, scales) ==>
      f.motionFail && (Starts(scales[MotionScan].status, f.motionStart) || Failable(scales[MotionScan].status))
  }

  /** The motion scan stored at least one trigger. */
  predicate TriggeredBy(f: Faults, scales: map<Scale, ScaleRow>) {
    MotionScan in scales && Starts(scales[MotionScan].status, f.motionStart) && f.scan.Some? && f.scan.value > 0
  }

  predicate SkipsPass(f: Faults, scales: map<Scale, ScaleRow>, triggers: bool) {
    && (HighFreqEvent in scales ==>
          f.triggersRead && (triggers || (f.skipHighFreq && Skippable(scales[HighFreqEvent].status))))
    && (LowFreqSummary in scales ==> f.skipOther && Skippable(scales[LowFreqSummary].status))
  }

  predicate HighFreqPasses(f: Faults, scales: map<Scale, ScaleRow>) {
    HighFreqEvent in scales &&
    if Starts(scales[HighFreqEvent].status, f.highFreqStart) then f.planHighFreq.Some? || f.highFreqFail
    else f.highFreqFail && Failable(scales[HighFreqEvent].status)
  }

  predicate HighFreqStarts(f: Faults, scales: map<Scale, ScaleRow>) {
    HighFreqEvent in scales && Starts(scales[HighFreqEvent].status, f.highFreqStart) && f.planHighFreq.Some?
  }

  function Begun(f: Faults, job: JobStatus): JobStatus {
    if f.markRunning && AcceptsJob(job, JRunning) then JRunning else job
  }

  /** Phases 1 and 2 get through. */
  predicate ScalesOpen(f: Faults, scales: map<Scale, ScaleRow>, hadTriggers: bool) {
    MotionPasses(f, scales) && SkipsPass(f, scales, hadTriggers || TriggeredBy(f, scales))
  }

  /** The rows after Phases 1 and 2. */
  predicate OpenRows(f: Faults, before: map<Scale, ScaleRow>, after: map<Scale, ScaleRow>, hadTriggers: bool,
                     failed: bool, highFreqWanted: bool) {
    && after.Keys == before.Keys && SameAt(after, before, DefaultSegment)
    && (highFreqWanted <==> WantsHighFreq(f, before, hadTriggers))
    && (failed <==> MotionScan in before && !MotionSucceeds(f, before))
    && (MotionScan in after ==> after[MotionScan].status == (if failed then Failed else Succeeded))
    && (HighFreqEvent in after ==>
          if highFreqWanted then after[HighFreqEvent] == before[HighFreqEvent] else after[HighFreqEvent].status.Skipped?)
    && (LowFreqSummary in after ==> after[LowFreqSummary].status.Skipped?)
  }

  predicate WantsHighFreq(f: Faults, scales: map<Scale, ScaleRow>, hadTriggers: bool) {
    HighFreqEvent in scales && (hadTriggers || TriggeredBy(f, scales))
  }

  /** Phase 3 gets through as well: the required failure is stored, or both scales are planned. */
  predicate ScalesPrepare(f: Faults, scales: map<Scale, ScaleRow>, hadTriggers: bool) {
    ScalesOpen(f, scales, hadTriggers) &&
    if DefaultPlanned(f, scales) then WantsHighFreq(f, scales, hadTriggers) ==> HighFreqPasses(f, scales) else f.required
  }

  predicate Prepares(f: Faults, job: JobStatus, scales: map<Scale, ScaleRow>, hadTriggers: bool) {
    f.markRunning && AcceptsJob(job, JRunning) && ScalesPrepare(f, scales, hadTriggers)
  }

  /** A run from these rows writes its verdict. */
  ghost predicate ReachesVerdict(f: Faults, job: JobStatus, scales: map<Scale, ScaleRow>, hadTriggers: bool, told: map<Key, Outcome>) {
    Prepares(f, job, scales, hadTriggers) &&
    (DefaultPlanned(f, scales) ==>
       f.reconcile && f.finishScales && if RequiredLost(f, scales, told) then f.required else f.finishJob)
  }

  /** The start of the motion scan is lost, or the run reaches the high-frequency scale and
      its start is lost. */
  predicate LosesStart(f: Faults, scales: map<Scale, ScaleRow>, hadTriggers: bool) {
    || (MotionScan in scales && !f.motionStart)
    || (ScalesOpen(f, scales, hadTriggers) && DefaultPlanned(f, scales) && WantsHighFreq(f, scales, hadTriggers) && !f.highFreqStart)
  }

  /** When a first run attempts what the tables forbid. */
  predicate AttemptsIllegal(f: Faults, scales: map<Scale, ScaleRow>, hadTriggers: bool) {
    f.markRunning && LosesStart(f, scales, hadTriggers)
  }

  /** What Phase 3 leaves, scale by scale. */
  ghost predicate Planned(f: Faults, before: map<Scale, ScaleRow>, after: map<Scale, ScaleRow>, highFreqWanted: bool, highFreqActive: bool) {
    && (highFreqWanted && !highFreqActive ==> HighFreqEvent in after && after[HighFreqEvent].status.Failed?)
    && (highFreqActive <==> highFreqWanted && HighFreqStarts(f, before))
    && SameAt(after, before, MotionScan) && SameAt(after, before, LowFreqSummary)
    && (!highFreqWanted ==> SameAt(after, before, HighFreqEvent))
  }

  /** What the next phases need to know about these rows. */
  lemma OpenedFacts(f: Faults, before: map<Scale, ScaleRow>, after: map<Scale, ScaleRow>, hadTriggers: bool,
                    failed: bool, highFreqWanted: bool)
    requires OpenRows(f, before, after, hadTriggers, failed, highFreqWanted)
    ensures Settled(after, highFreqWanted, failed) && (highFreqWanted ==> HighFreqEvent in after)
    ensures DefaultPlanned(f, after) <==> DefaultPlanned(f, before)
    ensures highFreqWanted ==> (HighFreqPasses(f, after) <==> HighFreqPasses(f, before)) && (HighFreqStarts(f, after) <==> HighFreqStarts(f, before))
    ensures AllPending(before) ==>
              && PendingAt(after, DefaultSegment) && (highFreqWanted ==> PendingAt(after, HighFreqEvent))
  {
  }

  /** Where a run leaves the scales that run no units: the scan succeeded or failed, the
      high-frequency scale skipped without triggers and failed when it could not be started or
      planned, the rest skipped. */
  predicate QuietRows(f: Faults, before: map<Scale, ScaleRow>, hadTriggers: bool, after: map<Scale, ScaleRow>) {
    && (MotionScan in after ==> after[MotionScan].status == if MotionSucceeds(f, before) then Succeeded else Failed)
    && (LowFreqSummary in after ==> after[LowFreqSummary].status == Skipped)
    && (HighFreqEvent in after && !WantsHighFreq(f, before, hadTriggers) ==> after[HighFreqEvent].status == Skipped)
    && (WantsHighFreq(f, before, hadTriggers) && !HighFreqStarts(f, before) ==>
          HighFreqEvent in after && after[HighFreqEvent].status == Failed)
  }

  lemma QuietAfterPlanning(f: Faults, before: map<Scale, ScaleRow>, middle: map<Scale, ScaleRow>, after: map<Scale, ScaleRow>,
                           hadTriggers: bool, failed: bool, highFreqWanted: bool, highFreqActive: bool)
    ensures OpenRows(f, before, middle, hadTriggers, failed, highFreqWanted) && after.Keys == before.Keys
            && Planned(f, middle, after, highFreqWanted, highFreqActive)
            ==> QuietRows(f, before, hadTriggers, after)
  {
  }

  // ---- which stored rows allow a verdict at all ---------------------------------------------

  /** Phases 1 and 2 can get through: the job may run, a motion scan is not finished yet, and
      every scale that has to be skipped is pending or skipped. */
  predicate CanOpen(job: JobStatus, scales: map<Scale, ScaleRow>, hadTriggers: bool) {
    && !job.JSucceeded? && !job.JCancelled?
    && (MotionScan in scales ==> Runnable(scales[MotionScan].status))
    && (HighFreqEvent in scales ==> hadTriggers || MotionScan in scales || Skippable(scales[HighFreqEvent].status))
    && (LowFreqSummary in scales ==> Skippable(scales[LowFreqSummary].status))
  }

  /** Phase 6 can be reached: besides, the default scale is not finished, and neither is the
      high-frequency scale unless it is to be skipped. */
  predicate CanConclude(job: JobStatus, scales: map<Scale, ScaleRow>, hadTriggers: bool) {
    && CanOpen(job, scales, hadTriggers)
    && (DefaultSegment in scales ==> Runnable(scales[DefaultSegment].status))
    && (HighFreqEvent in scales ==>
          || (!hadTriggers && Skippable(scales[HighFreqEvent].status))
          || ((hadTriggers || MotionScan in scales) && Runnable(scales[HighFreqEvent].status)))
  }

  /** No fault at all, empty plans, `n` triggers found. */
  function Faultless(n: nat): (f: Faults)
    ensures ValidFaults(f)
  {
    Faults(true, true, Some(n), true, true, true, true, true, true, Some([]), true, Some([]), true, true, true, true, true)
  }

  ghost predicate VerdictPossible(job: JobStatus, scales: map<Scale, ScaleRow>, hadTriggers: bool) {
    exists f, told :: ValidFaults(f) && ReachesVerdict(f, job, scales, hadTriggers, told)
  }

  ghost predicate PhaseSixPossible(job: JobStatus, scales: map<Scale, ScaleRow>, hadTriggers: bool) {
    exists f, told :: ValidFaults(f) && ReachesVerdict(f, job, scales, hadTriggers, told) && DefaultPlanned(f, scales)
  }

  /** A run can end with the verdict of Phase 6 if and only if the stored rows let it; a
      finished motion scan, default scale or triggered high-frequency scale rules it out. */
  lemma PhaseSixReachable(job: JobStatus, scales: map<Scale, ScaleRow>, hadTriggers: bool)
    ensures PhaseSixPossible(job, scales, hadTriggers) <==> CanConclude(job, scales, hadTriggers)
  {
    if CanConclude(job, scales, hadTriggers) {
      var skip := !hadTriggers && HighFreqEvent in scales && Skippable(scales[HighFreqEvent].status);
      var f := Faultless(if skip then 0 else 1);
      assert ReachesVerdict(f, job, scales, hadTriggers, map[]);
    }
  }

  /** A run can end at all if and only if Phases 1 and 2 can get through and either there is a
      default scale, whose planning may fail and fail the job, or Phase 6 can be reached. */
  lemma VerdictReachable(job: JobStatus, scales: map<Scale, ScaleRow>, hadTriggers: bool)
    ensures VerdictPossible(job, scales, hadTriggers)
       <==> CanOpen(job, scales, hadTriggers) && (DefaultSegment in scales || CanConclude(job, scales, hadTriggers))
  {
    if CanOpen(job, scales, hadTriggers) && DefaultSegment in scales {
      var skip := !hadTriggers && HighFreqEvent in scales && Skippable(scales[HighFreqEvent].status);
      var f := Faultless(if skip then 0 else 1).(planDefault := None);
      assert ReachesVerdict(f, job, scales, hadTriggers, map[]);
    }
    PhaseSixReachable(job, scales, hadTriggers);
  }

  /** With the default scale already succeeded the only verdict left is FAILED. */
  lemma FinishedDefaultFails(f: Faults, scales: map<Scale, ScaleRow>, told: map<Key, Outcome>)
    requires DefaultSegment in scales && !Runnable(scales[DefaultSegment].status)
    ensures !DefaultPlanned(f, scales) && RequiredLost(f, scales, told)
  {
  }

  /** The plans are made, Phase 4 scales are running and the others are settled. */
  ghost predicate Ready(f: Faults, scales: map<Scale, ScaleRow>, df: seq<Key>, hf: seq<Key>, highFreqActive: bool, partial: bool) {
    && ValidPlan(Some(hf), HighFreqEvent) && ValidPlan(Some(df), DefaultSegment)
    && (DefaultSegment in scales ==> scales[DefaultSegment].status.Running? && f.planDefault == Some(df))
    && (DefaultSegment !in scales ==> df == []) && (!highFreqActive ==> hf == [])
    && (highFreqActive ==> HighFreqEvent in scales && scales[HighFreqEvent].status.Running? && f.planHighFreq == Some(hf))
    && Settled(scales, highFreqActive, partial)
  }

  /** The stored counters of the default scale are the counts of its units' reports. */
  ghost predicate DefaultRowCounts(f: Faults, scales: map<Scale, ScaleRow>, told: map<Key, Outcome>) {
    DefaultSegment in scales ==>
      && f.planDefault.Some?
      && (forall k :: k in f.planDefault.value ==> k in told)
      && scales[DefaultSegment] == RowFor(CountedResult(f.planDefault.value, told, DefaultSegment))
  }

  /** The scale rows after Phase 5, and what their verdict says about the units. */
  ghost predicate Concluded(f: Faults, before: map<Scale, ScaleRow>, after: map<Scale, ScaleRow>,
                            df: seq<Key>, hf: seq<Key>, highFreqActive: bool, told: map<Key, Outcome>) {
    && AllTerminal(after) && after.Keys == before.Keys
    && DefaultRowCounts(f, after, told)
    && (forall k :: k in hf ==> k in told)
    && (highFreqActive ==> HighFreqEvent in after && after[HighFreqEvent] == RowFor(CountedResult(hf, told, HighFreqEvent)))
    && SameAt(after, before, MotionScan) && SameAt(after, before, LowFreqSummary)
    && (!highFreqActive ==> SameAt(after, before, HighFreqEvent))
    && VerdictMeaning(StoredVerdict(after), after)
    && (StoredVerdict(after).JFailed? <==> DefaultSegment in after && NoneWon(df, told))
  }

  /** Units were planned and none reported success. */
  ghost predicate NoneWon(plan: seq<Key>, told: map<Key, Outcome>) {
    plan != [] && forall k :: k in plan ==> k in told && told[k] != OSucceeded
  }

  ghost predicate SomeReported(plan: seq<Key>, told: map<Key, Outcome>, o: Outcome) {
    exists k :: k in plan && k in told && told[k] == o
  }

  /** A scale's row after Phase 5, read off what its units reported: the counters are the numbers
      of units; partial means some succeeded and some failed, failed means some failed and none
      succeeded, succeeded means none failed. */
  ghost predicate ReportsRow(row: ScaleRow, plan: seq<Key>, told: map<Key, Outcome>) {
    && (forall k :: k in plan ==> k in told)
    && row.total == |plan|
    && row.succeeded == |set k | k in plan && k in told && told[k] == OSucceeded|
    && row.failed == |set k | k in plan && k in told && told[k] == OFailed|
    && (row.status == PartialFailed <==> SomeReported(plan, told, OSucceeded) && SomeReported(plan, told, OFailed))
    && (row.status == Failed <==> !SomeReported(plan, told, OSucceeded) && SomeReported(plan, told, OFailed))
    && (row.status == Succeeded <==> !SomeReported(plan, told, OFailed))
  }

  /** The finalised row of a plan is what its reports say. */
  lemma RowReports(plan: seq<Key>, told: map<Key, Outcome>, scale: Scale)
    requires forall k :: k in plan ==> k in told && k.scale == scale
    ensures ReportsRow(RowFor(CountedResult(plan, told, scale)), plan, told)
  {
    ReportedCount(plan, told, scale, OSucceeded);
    ReportedCount(plan, told, scale, OFailed);
  }

  lemma ReportedCount(plan: seq<Key>, told: map<Key, Outcome>, scale: Scale, o: Outcome)
    requires forall k :: k in plan ==> k in told && k.scale == scale
    ensures |UnitsWith(plan, told, scale, o)| == |set k | k in plan && k in told && told[k] == o|
    ensures |UnitsWith(plan, told, scale, o)| > 0 <==> SomeReported(plan, told, o)
  {
    assert UnitsWith(plan, told, scale, o) == set k | k in plan && k in told && told[k] == o;
    if SomeReported(plan, told, o) {
      var k :| k in plan && k in told && told[k] == o;
      assert k in UnitsWith(plan, told, scale, o);
    } else {
      assert UnitsWith(plan, told, scale, o) == {};
    }
  }

  /** The rows of the scales that ran units. */
  ghost predicate ActiveRows(f: Faults, before: map<Scale, ScaleRow>, hadTriggers: bool, after: map<Scale, ScaleRow>, told: map<Key, Outcome>) {
    && (DefaultSegment in after ==> f.planDefault.Some? && ReportsRow(after[DefaultSegment], f.planDefault.value, told))
    && (WantsHighFreq(f, before, hadTriggers) && HighFreqStarts(f, before) ==>
          HighFreqEvent in after && ReportsRow(after[HighFreqEvent], f.planHighFreq.value, told))
  }

  lemma ActiveAfterRun(f: Faults, ready: map<Scale, ScaleRow>, after: map<Scale, ScaleRow>, df: seq<Key>, hf: seq<Key>,
                       highFreqActive: bool, told: map<Key, Outcome>)
    requires ValidPlan(Some(hf), HighFreqEvent) && ValidPlan(f.planDefault, DefaultSegment)
    requires Concluded(f, ready, after, df, hf, highFreqActive, told)
    ensures DefaultSegment in after ==> f.planDefault.Some? && ReportsRow(after[DefaultSegment], f.planDefault.value, told)
    ensures highFreqActive ==> HighFreqEvent in after && ReportsRow(after[HighFreqEvent], hf, told)
  {
    if DefaultSegment in after {
      RowReports(f.planDefault.value, told, DefaultSegment);
    }
    if highFreqActive {
      RowReports(hf, told, HighFreqEvent);
    }
  }

  lemma QuietAfterRun(f: Faults, before: map<Scale, ScaleRow>, hadTriggers: bool, ready: map<Scale, ScaleRow>, after: map<Scale, ScaleRow>,
                      df: seq<Key>, hf: seq<Key>, highFreqActive: bool, told: map<Key, Outcome>)
    requires Concluded(f, ready, after, df, hf, highFreqActive, told)
    ensures QuietRows(f, before, hadTriggers, ready)
            && (highFreqActive <==> WantsHighFreq(f, before, hadTriggers) && HighFreqStarts(f, before))
            ==> QuietRows(f, before, hadTriggers, after)
  {
  }

  lemma ConcludedRows(f: Faults, scales: map<Scale, ScaleRow>, df: seq<Key>, hf: seq<Key>,
                      highFreqActive: bool, partial: bool, told: map<Key, Outcome>)
    requires Ready(f, scales, df, hf, highFreqActive, partial)
    requires forall k :: k in told <==> k in hf || k in df
    ensures var ds, hs := CountedResult(df, told, DefaultSegment), CountedResult(hf, told, HighFreqEvent);
            var after := Finished(scales, ds, hs, highFreqActive);
            && Concluded(f, scales, after, df, hf, highFreqActive, told)
            && StoredVerdict(after) == Phase6Verdict(DefaultSegment in scales, ds, hs, highFreqActive, partial)
  {
    var ds, hs := CountedResult(df, told, DefaultSegment), CountedResult(hf, told, HighFreqEvent);
    var after := Finished(scales, ds, hs, highFreqActive);
    PlanCounts(df, told, DefaultSegment);
    assert NoneWon(df, told) <==> ds.total > 0 && ds.succeeded == 0;
    FinishedRows(scales, ds, hs, highFreqActive);
    FinalVerdict(scales, ds, hs, highFreqActive, partial);
    StoredVerdictMeaning(after);
  }

  predicate PendingAt(scales: map<Scale, ScaleRow>, s: Scale) {
    s in scales ==> scales[s].status.Pending?
  }

  predicate AllPending(scales: map<Scale, ScaleRow>) {
    && PendingAt(scales, DefaultSegment) && PendingAt(scales, MotionScan)
    && PendingAt(scales, HighFreqEvent) && PendingAt(scales, LowFreqSummary)
  }

  /** The row of a scale is the same in both. */
  predicate SameAt(a: map<Scale, ScaleRow>, b: map<Scale, ScaleRow>, s: Scale) {
    (s in a <==> s in b) && (s in a ==> a[s] == b[s])
  }

  predicate SameBut(a: map<Scale, ScaleRow>, b: map<Scale, ScaleRow>, s: Scale) {
    && (s.DefaultSegment? || SameAt(a, b, DefaultSegment)) && (s.MotionScan? || SameAt(a, b, MotionScan))
    && (s.HighFreqEvent? || SameAt(a, b, HighFreqEvent)) && (s.LowFreqSummary? || SameAt(a, b, LowFreqSummary))
  }

  /** What a run starts from. */
  datatype Origin = Origin(f: Faults, job: JobStatus, scales: map<Scale, ScaleRow>, hadTriggers: bool, units: map<Key, UnitRow>)

  /** A run that did not escape before Phase 6 -- from any stored rows, so a re-run too: it failed
      exactly when the required scale was lost, and its verdict says what it should of the scales;
      unless the default scale could not be planned, every unit ran and none is left running, and
      every scale's row is read off the reports or off how the phase went. A first run's rows bear
      out its reports. */
  ghost predicate EndedAs(a: Origin, max: nat, env: Key -> nat -> Env, end: End, told: map<Key, Outcome>,
                          job: JobStatus, scales: map<Scale, ScaleRow>, units: map<Key, UnitRow>) {
    && (end.Ended? ==> (job.JFailed? <==> RequiredLost(a.f, a.scales, told)) && VerdictMeaning(job, scales))
    && (end.EscapedWith? ==> LeftBehind(end, job, scales, units))
    && (DefaultPlanned(a.f, a.scales) ==>
          && AllTerminal(scales) && (end.Ended? ==> job == StoredVerdict(scales))
          && NoneRunning(units) && Phase4Rows(max, env, a.units, units, told, true)
          && ActiveRows(a.f, a.scales, a.hadTriggers, scales, told) && QuietRows(a.f, a.scales, a.hadTriggers, scales))
    && (Fresh(a.job, a.scales, a.units) && JobAlwaysSeen(env) ==> Borne(units, told))
  }

  lemma ConcludedRun(a: Origin, ready: map<Scale, ScaleRow>, df: seq<Key>, hf: seq<Key>, highFreqActive: bool, partial: bool,
                     max: nat, env: Key -> nat -> Env, end: End, told: map<Key, Outcome>,
                     job: JobStatus, scales: map<Scale, ScaleRow>, units: map<Key, UnitRow>)
    requires ValidFaults(a.f) && DefaultPlanned(a.f, a.scales) && ready.Keys == a.scales.Keys
    requires Ready(a.f, ready, df, hf, highFreqActive, partial) && QuietRows(a.f, a.scales, a.hadTriggers, ready)
    requires highFreqActive <==> WantsHighFreq(a.f, a.scales, a.hadTriggers) && HighFreqStarts(a.f, a.scales)
    requires Concluded(a.f, ready, scales, df, hf, highFreqActive, told) && NoneRunning(units)
    requires Phase4Rows(max, env, a.units, units, told, true) && (a.units == map[] && JobAlwaysSeen(env) ==> Borne(units, told))
    requires !end.Escaped? && (end.Ended? ==> job == StoredVerdict(scales))
    requires end.EscapedWith? ==> job.JRunning? && end.verdict == StoredVerdict(scales)
    ensures EndedAs(a, max, env, end, told, job, scales, units)
    ensures RequiredLost(a.f, a.scales, told) <==> StoredVerdict(scales).JFailed?
  {
    ActiveAfterRun(a.f, ready, scales, df, hf, highFreqActive, told);
    QuietAfterRun(a.f, a.scales, a.hadTriggers, ready, scales, df, hf, highFreqActive, told);
  }

  /** What a run leaves that escaped after Phase 5: a running job whose scales are all settled,
      no running unit, and a verdict nobody wrote. */
  ghost predicate LeftBehind(end: End, job: JobStatus, scales: map<Scale, ScaleRow>, units: map<Key, UnitRow>) {
    end.EscapedWith? && job.JRunning? && AllTerminal(scales) && end.verdict == StoredVerdict(scales) && NoneRunning(units)
  }

  /** Default planning failed, or default planned units and none reported success. */
  ghost predicate RequiredLost(f: Faults, scales: map<Scale, ScaleRow>, told: map<Key, Outcome>) {
    DefaultSegment in scales &&
    (DefaultPlanned(f, scales) ==> NoneWon(f.planDefault.value, told))
  }

  ghost predicate JobAlwaysSeen(env: Key -> nat -> Env) {
    forall k, i: nat :: env(k)(i).jobSeen
  }

  /** Every reported success and skip is in the store, and nothing else is. */
  ghost predicate Borne(units: map<Key, UnitRow>, told: map<Key, Outcome>) {
    forall k :: k in told ==>
      && (told[k].OSucceeded? <==> k in units && units[k].status.Succeeded?)
      && (told[k].OSkipped? <==> k in units && units[k].status.Skipped?)
  }

  ghost predicate NoneRunning(units: map<Key, UnitRow>) {
    forall k :: k in units ==> !units[k].status.Running?
  }

  /** Unless the job failed, it is partial exactly when some scale is bad, and succeeded
      exactly when every scale succeeded or was skipped. */
  ghost predicate VerdictMeaning(job: JobStatus, scales: map<Scale, ScaleRow>) {
    !job.JFailed? ==>
      && (job.JPartialFailed? <==> exists s :: s in scales && Bad(scales[s].status))
      && (job.JSucceeded? <==> forall s :: s in scales ==> scales[s].status.Succeeded? || scales[s].status.Skipped?)
  }

  lemma StoredVerdictMeaning(scales: map<Scale, ScaleRow>)
    requires AllTerminal(scales)
    ensures VerdictMeaning(StoredVerdict(scales), scales)
  {
    AnyBadMeaning(scales);
    AllTerminalMeaning(scales);
    forall s | s in scales
      ensures !Bad(scales[s].status) <==> scales[s].status.Succeeded? || scales[s].status.Skipped?
    {
      assert Terminal(scales[s].status);
    }
  }

  /** Rows after a run that got past Phase 5. */
  lemma RowsAfterRun(max: nat, env: Key -> nat -> Env, before: map<Key, UnitRow>, after: map<Key, UnitRow>,
                     told: map<Key, Outcome>)
    requires Phase4Rows(max, env, before, after, told, true)
    ensures NoneRunning(after)
    ensures before == map[] && JobAlwaysSeen(env) ==> Borne(after, told)
  {
    if before == map[] && JobAlwaysSeen(env) {
      var ran :| RanAll(max, env, before, ran, told) && after == Reconciled(ran);
      forall k | k in told
        ensures told[k].OSucceeded? <==> k in after && after[k].status.Succeeded?
        ensures told[k].OSkipped? <==> k in after && after[k].status.Skipped?
      {
        assert Ran(max, env, before, ran, k, told[k]);
        RunAloneTruthful(k.scale, max, LocalIn(before, k), env(k), 0);
      }
    }
  }

  function Phase6Verdict(hasDefault: bool, ds: ScaleResult, hs: ScaleResult, highFreqActive: bool, partial: bool): JobStatus {
    if hasDefault && ds.total > 0 && ds.succeeded == 0 then JFailed
    else if partial || ds.failed > 0 || (highFreqActive && hs.failed > 0) then JPartialFailed
    else JSucceeded
  }

  /** The row of a finalised scale. */
  function RowFor(r: ScaleResult): ScaleRow {
    ScaleRow(ScaleVerdict(r.succeeded, r.failed), r.total, r.succeeded, r.failed)
  }

  function Finished(scales: map<Scale, ScaleRow>, ds: ScaleResult, hs: ScaleResult, highFreqActive: bool): map<Scale, ScaleRow> {
    var a := if DefaultSegment in scales then scales[DefaultSegment := RowFor(ds)] else scales;
    if highFreqActive then a[HighFreqEvent := RowFor(hs)] else a
  }

  /** Every scale outside Phase 4 is terminal, and `partial` says whether one of them is bad. */
  ghost predicate Settled(scales: map<Scale, ScaleRow>, highFreqActive: bool, partial: bool) {
    && TerminalAt(scales, MotionScan) && TerminalAt(scales, LowFreqSummary)
    && (!highFreqActive ==> TerminalAt(scales, HighFreqEvent))
    && (partial <==> BadAt(scales, MotionScan) || BadAt(scales, LowFreqSummary) || (!highFreqActive && BadAt(scales, HighFreqEvent)))
  }

  /** The verdict Phase 6 computes in memory is the one the stored rows imply. */
  lemma FinalVerdict(scales: map<Scale, ScaleRow>, ds: ScaleResult, hs: ScaleResult, highFreqActive: bool, partial: bool)
    requires highFreqActive ==> HighFreqEvent in scales
    requires Settled(scales, highFreqActive, partial)
    requires ds.total == 0 ==> ds.failed == 0
    requires DefaultSegment !in scales ==> ds.total == 0
    ensures var after := Finished(scales, ds, hs, highFreqActive);
            && AllTerminal(after)
            && StoredVerdict(after) == Phase6Verdict(DefaultSegment in scales, ds, hs, highFreqActive, partial)
  {
    var after := Finished(scales, ds, hs, highFreqActive);
    FinishedRows(scales, ds, hs, highFreqActive);
  }

  lemma FinishedRows(scales: map<Scale, ScaleRow>, ds: ScaleResult, hs: ScaleResult, highFreqActive: bool)
    requires highFreqActive ==> HighFreqEvent in scales
    ensures var after := Finished(scales, ds, hs, highFreqActive);
            && after.Keys == scales.Keys
            && SameAt(after, scales, MotionScan) && SameAt(after, scales, LowFreqSummary)
            && (!highFreqActive ==> SameAt(after, scales, HighFreqEvent))
            && (DefaultSegment in scales ==>
                  && (Bad(after[DefaultSegment].status) <==> ds.failed > 0)
                  && Terminal(after[DefaultSegment].status)
                  && after[DefaultSegment].total == ds.total && after[DefaultSegment].succeeded == ds.succeeded)
            && (highFreqActive ==> (Bad(after[HighFreqEvent].status) <==> hs.failed > 0) && Terminal(after[HighFreqEvent].status))
  {
  }

  /** Rows after Phase 4 and, once it commits, Phase 4.5. */
  ghost predicate Phase4Rows(max: nat, env: Key -> nat -> Env, before: map<Key, UnitRow>, after: map<Key, UnitRow>,
                             told: map<Key, Outcome>, reconciled: bool) {
    exists ran :: RanAll(max, env, before, ran, told) && (after == Reconciled(ran) || (!reconciled && after == ran))
  }

  ghost predicate RanAll(max: nat, env: Key -> nat -> Env, before: map<Key, UnitRow>, ran: map<Key, UnitRow>,
                         told: map<Key, Outcome>) {
    && (forall k :: k in told ==> Ran(max, env, before, ran, k, told[k]))
    && (forall k :: k !in told ==> LocalIn(ran, k) == LocalIn(before, k))
  }

  lemma PlanCounts(plan: seq<Key>, told: map<Key, Outcome>, scale: Scale)
    requires Distinct(plan) && forall k :: k in plan ==> k in told && k.scale == scale
    ensures var r := CountedResult(plan, told, scale);
            && r.succeeded + r.failed + r.skipped == r.total
            && (r.succeeded == 0 <==> forall k :: k in plan ==> told[k] != OSucceeded)
  {
    CountsAreSets(plan, told, scale, OSucceeded);
    CountsAreSets(plan, told, scale, OFailed);
    CountsAreSets(plan, told, scale, OSkipped);
    CountsSumToTotal(plan, told, scale);
    assert (set k | k in plan && k.scale == scale) == Members(plan);
    MembersSize(plan);
    var won := UnitsWith(plan, told, scale, OSucceeded);
    if exists k :: k in plan && told[k] == OSucceeded {
      var k :| k in plan && told[k] == OSucceeded;
      assert k in won;
    } else {
      assert won == {};
    }
  }

  /** Unit `k` ran to its end, reported `o`, and its row is where its thread left it. */
  ghost predicate Ran(max: nat, env: Key -> nat -> Env, before: map<Key, UnitRow>, after: map<Key, UnitRow>,
                      k: Key, o: Outcome) {
    var l := RunAlone(k.scale, max, LocalIn(before, k), env(k), 0);
    l.pc == Done(o) && LocalIn(after, k) == l.(pc := Idle)
  }

  /** A scale's result, counted over its planned units. */
  ghost function CountedResult(plan: seq<Key>, outcomes: map<Key, Outcome>, scale: Scale): ScaleResult
    requires forall k :: k in plan ==> k in outcomes
  {
    ScaleResult(|plan|, |UnitsWith(plan, outcomes, scale, OSucceeded)|,
                |UnitsWith(plan, outcomes, scale, OFailed)|, |UnitsWith(plan, outcomes, scale, OSkipped)|)
  }

  /** Each unit run to its end against the environments it meets. */
  function RunOf(max: nat, env: Key -> nat -> Env): (Key, Local) -> Local {
    (k: Key, l: Local) => RunAlone(k.scale, max, l, env(k), 0)
  }

  /** Where each unit's thread will stand when it is done. */
  ghost function EndsOf(ordered: seq<Key>, run: (Key, Local) -> Local, start: map<Key, UnitRow>): map<Key, Local> {
    map k | k in ordered :: run(k, LocalIn(start, k))
  }

  lemma RunsAreValid(ordered: seq<Key>, max: nat, env: Key -> nat -> Env, start: map<Key, UnitRow>)
    ensures ValidEnds(start, EndsOf(ordered, RunOf(max, env), start))
  {
    var ends := EndsOf(ordered, RunOf(max, env), start);
    forall k | k in ends
      ensures ends[k].pc.Done? && (ends[k].row.None? ==> k !in start && ends[k].published == 0)
    {
      RowsOnlyAppear(k.scale, max, LocalIn(start, k), env(k), 0);
    }
  }

  lemma DrivenToTheEnd(max: nat, env: Key -> nat -> Env, start: map<Key, UnitRow>, now: map<Key, UnitRow>,
                       ordered: seq<Key>, reports: seq<Report>) returns (outcomes: map<Key, Outcome>)
    requires ValidEnds(start, EndsOf(ordered, RunOf(max, env), start))
    requires Driven(start, now, EndsOf(ordered, RunOf(max, env), start), ordered)
    requires Reported(ordered, EndsOf(ordered, RunOf(max, env), start), reports)
    ensures forall k :: k in outcomes <==> k in ordered
    ensures RanAll(max, env, start, now, outcomes) && reports == ReportsOf(ordered, outcomes)
  {
    var ends := EndsOf(ordered, RunOf(max, env), start);
    outcomes := map k | k in ends :: ends[k].pc.outcome;
    forall k | k in outcomes
      ensures Ran(max, env, start, now, k, outcomes[k])
    {
      assert ends[k] == RunAlone(k.scale, max, LocalIn(start, k), env(k), 0);
    }
    ReportsInOrder(ordered, outcomes, reports);
  }

  lemma {:induction false} ReportsInOrder(keys: seq<Key>, outcomes: map<Key, Outcome>, reports: seq<Report>)
    requires |reports| == |keys| && forall i :: 0 <= i < |keys| ==> keys[i] in outcomes && reports[i] == Report(keys[i].scale, outcomes[keys[i]])
    ensures reports == ReportsOf(keys, outcomes)
  {
    if keys != [] {
      var n := |keys| - 1;
      ReportsInOrder(keys[..n], outcomes, reports[..n]);
      assert reports == reports[..n] + [reports[n]];
    }
  }

  ghost predicate ValidEnds(start: map<Key, UnitRow>, ends: map<Key, Local>) {
    forall k :: k in ends ==> ends[k].pc.Done? && (ends[k].row.None? ==> k !in start && ends[k].published == 0)
  }

  /** The units in `past` are done and stored; the others are as they were. */
  ghost predicate Driven(start: map<Key, UnitRow>, now: map<Key, UnitRow>, ends: map<Key, Local>, past: seq<Key>) {
    && (forall k :: k in past ==> k in ends && LocalIn(now, k) == ends[k].(pc := Idle))
    && (forall k :: k !in past ==> LocalIn(now, k) == LocalIn(start, k))
  }

  /** One report per unit, in order. */
  ghost predicate Reported(past: seq<Key>, ends: map<Key, Local>, reports: seq<Report>) {
    |reports| == |past| &&
    forall i :: 0 <= i < |past| ==>
      past[i] in ends && ends[past[i]].pc.Done? && reports[i] == Report(past[i].scale, ends[past[i]].pc.outcome)
  }

  lemma DriveStep(start: map<Key, UnitRow>, now: map<Key, UnitRow>, ends: map<Key, Local>, ordered: seq<Key>, i: nat)
    requires Distinct(ordered) && i < |ordered| && ordered[i] in ends && ValidEnds(start, ends)
    requires Driven(start, now, ends, ordered[..i])
    ensures LocalIn(now, ordered[i]) == LocalIn(start, ordered[i])
    ensures Driven(start, StoreLocal(now, ordered[i], ends[ordered[i]]), ends, ordered[..i + 1])
  {
    assert ordered[i] !in ordered[..i];
    assert ordered[..i + 1] == ordered[..i] + [ordered[i]];
  }

  lemma {:induction false} RowsOnlyAppear(scale: Scale, max: nat, l: Local, env: nat -> Env, i: nat)
    ensures var r := RunAlone(scale, max, l, env, i);
            && (l.row.Some? ==> r.row.Some?)
            && ((!l.pc.Idle? && !Halted(l.pc) ==> l.row.Some?) ==> (r.row.None? ==> r.published == l.published))
    decreases Fuel(max, l.pc)
  {
    if !Halted(l.pc) {
      StepProgress(scale, max, l, env(i));
      RowsOnlyAppear(scale, max, UnitStep(scale, max, l, env(i)), env, i + 1);
    }
  }

  lemma {:induction false} ReportsHaveScales(keys: seq<Key>, outcomes: map<Key, Outcome>)
    requires forall k :: k in keys ==> k in outcomes && (k.scale.DefaultSegment? || k.scale.HighFreqEvent?)
    ensures forall r :: r in ReportsOf(keys, outcomes) ==> r.scale.DefaultSegment? || r.scale.HighFreqEvent?
  {
    if keys != [] {
      ReportsHaveScales(keys[..|keys| - 1], outcomes);
    }
  }

  /** Counting a scale's reports in dispatch order counts its own plan. */
  lemma CountScale(ordered: seq<Key>, plan: seq<Key>, outcomes: map<Key, Outcome>, scale: Scale)
    requires Distinct(ordered) && forall k :: k in ordered ==> k in outcomes
    requires forall k :: k in plan <==> k in ordered && k.scale == scale
    ensures var bag := multiset(ReportsOf(ordered, outcomes));
            && bag[Report(scale, OSucceeded)] == |UnitsWith(plan, outcomes, scale, OSucceeded)|
            && bag[Report(scale, OFailed)] == |UnitsWith(plan, outcomes, scale, OFailed)|
            && bag[Report(scale, OSkipped)] == |UnitsWith(plan, outcomes, scale, OSkipped)|
  {
    CountsAreSets(ordered, outcomes, scale, OSucceeded);
    CountsAreSets(ordered, outcomes, scale, OFailed);
    CountsAreSets(ordered, outcomes, scale, OSkipped);
    assert UnitsWith(ordered, outcomes, scale, OSucceeded) == UnitsWith(plan, outcomes, scale, OSucceeded);
    assert UnitsWith(ordered, outcomes, scale, OFailed) == UnitsWith(plan, outcomes, scale, OFailed);
    assert UnitsWith(ordered, outcomes, scale, OSkipped) == UnitsWith(plan, outcomes, scale, OSkipped);
  }

  // ---- the thread pool ends where the driver ends ----------------------------------------------

  /** The units as a pool finds them before a run. */
  function PoolOf(units: map<Key, UnitRow>): Units {
    map k | k in units :: Local(Some(units[k].status), units[k].published, Off)
  }

  function RowsOf(s: Units): map<Key, UnitRow> {
    map k | k in s && s[k].row.Some? :: UnitRow(s[k].row.value, s[k].published)
  }

  /** What the pool's threads reported. */
  function ToldBy(s: Units): map<Key, Outcome> {
    map k | k in s && s[k].pc.Done? :: s[k].pc.outcome
  }

  /** The pool after the planned units were dispatched and moved as in `evs`. */
  function PoolAfter(max: nat, before: map<Key, UnitRow>, planned: set<Key>, evs: seq<Event>): Units {
    Exec(max, Apply(max, PoolOf(before), Start(planned)), evs)
  }

  ghost predicate OnlyActs(evs: seq<Event>) {
    forall i :: 0 <= i < |evs| ==> evs[i].Act?
  }

  lemma {:induction false} PoolKeys(max: nat, s: Units, evs: seq<Event>)
    requires OnlyActs(evs)
    ensures Exec(max, s, evs).Keys == s.Keys
    ensures forall k :: k in s && s[k].pc.Off? ==> Exec(max, s, evs)[k] == s[k]
    decreases |evs|
  {
    if evs != [] {
      PoolKeys(max, Apply(max, s, evs[0]), evs[1..]);
    }
  }

  /** Unit `k` in the pool ends as running it alone would end it. */
  lemma PoolUnit(max: nat, before: map<Key, UnitRow>, planned: set<Key>, evs: seq<Event>, k: Key)
    requires OnlyActs(evs) && k in planned && AllHalted(PoolAfter(max, before, planned, evs))
    ensures var pool := PoolAfter(max, before, planned, evs);
            k in pool && pool[k].pc.Done? && Ran(max, EnvOf(evs), before, RowsOf(pool), k, pool[k].pc.outcome)
  {
    var s := Apply(max, PoolOf(before), Start(planned));
    assert s[k] == LocalIn(before, k);
    PoolKeys(max, s, evs);
    FinishedPool(max, s, evs, k);
    RowsOnlyAppear(k.scale, max, LocalIn(before, k), EnvOf(evs)(k), 0);
  }

  /** However the pool interleaves its threads, its rows and reports are those that running the
      units one by one produces, each against the environments it met. */
  lemma PoolEndsLikeDriver(max: nat, before: map<Key, UnitRow>, planned: set<Key>, evs: seq<Event>)
    requires OnlyActs(evs) && AllHalted(PoolAfter(max, before, planned, evs))
    ensures var pool := PoolAfter(max, before, planned, evs);
            ToldBy(pool).Keys == planned && RanAll(max, EnvOf(evs), before, RowsOf(pool), ToldBy(pool))
  {
    var s := Apply(max, PoolOf(before), Start(planned));
    var pool := PoolAfter(max, before, planned, evs);
    PoolKeys(max, s, evs);
    forall k | k in planned
      ensures k in ToldBy(pool) && Ran(max, EnvOf(evs), before, RowsOf(pool), k, ToldBy(pool)[k])
    {
      PoolUnit(max, before, planned, evs, k);
    }
    forall k | k !in planned
      ensures k !in ToldBy(pool) && LocalIn(RowsOf(pool), k) == LocalIn(before, k)
    {
      if k in before {
        assert s[k] == PoolOf(before)[k] && pool[k] == s[k];
      } else {
        assert k !in pool;
      }
    }
  }

  /** The rows and reports of a run are determined. */
  lemma RunIsDetermined(max: nat, env: Key -> nat -> Env, before: map<Key, UnitRow>,
                        r1: map<Key, UnitRow>, t1: map<Key, Outcome>, r2: map<Key, UnitRow>, t2: map<Key, Outcome>)
    requires RanAll(max, env, before, r1, t1) && RanAll(max, env, before, r2, t2) && t1.Keys == t2.Keys
    ensures r1 == r2 && t1 == t2
  {
    forall k
      ensures LocalIn(r1, k) == LocalIn(r2, k) && (k in t1 ==> t1[k] == t2[k])
    {
      if k in t1 {
        assert Ran(max, env, before, r1, k, t1[k]) && Ran(max, env, before, r2, k, t2[k]);
      }
    }
    forall k
      ensures (k in r1 <==> k in r2) && (k in r1 ==> r1[k] == r2[k])
    {
      assert LocalIn(r1, k) == LocalIn(r2, k);
    }
  }

  /** Phase 4 as it happens: any finished interleaving, its units reporting in any order
      `completed`, leaves the rows and results that `RunPlanned` computes on the environments
      the units met. */
  lemma PoolMatchesRunPlanned(max: nat, before: map<Key, UnitRow>, hf: seq<Key>, df: seq<Key>, evs: seq<Event>, completed: seq<Key>,
                              after: map<Key, UnitRow>, told: map<Key, Outcome>)
    requires ValidPlan(Some(hf), HighFreqEvent) && ValidPlan(Some(df), DefaultSegment)
    requires OnlyActs(evs) && AllHalted(PoolAfter(max, before, Members(hf) + Members(df), evs))
    requires Distinct(completed) && forall k :: k in completed <==> k in hf || k in df
    requires RanAll(max, EnvOf(evs), before, after, told) && forall k :: k in told <==> k in hf || k in df
    ensures var pool := PoolAfter(max, before, Members(hf) + Members(df), evs);
            && RowsOf(pool) == after && ToldBy(pool) == told
            && ResultOf(DefaultSegment, |df|, multiset(ReportsOf(completed, told))) == CountedResult(df, told, DefaultSegment)
            && ResultOf(HighFreqEvent, |hf|, multiset(ReportsOf(completed, told))) == CountedResult(hf, told, HighFreqEvent)
  {
    var planned := Members(hf) + Members(df);
    PoolEndsLikeDriver(max, before, planned, evs);
    var pool := PoolAfter(max, before, planned, evs);
    assert told.Keys == planned;
    RunIsDetermined(max, EnvOf(evs), before, RowsOf(pool), ToldBy(pool), after, told);
    CountScale(completed, df, told, DefaultSegment);
    CountScale(completed, hf, told, HighFreqEvent);
  }
}
