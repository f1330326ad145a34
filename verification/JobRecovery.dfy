/**
  Runs and orphan recovery over one store: what the sweep does to the rows that an escaped run
  or a crash inside Phase 4 leaves behind.
*/
module JobRecovery {
  import opened Statuses
  import opened Arith
  import opened Orders
  import opened UnitProtocol
  import opened CrossScaleScheduler
  import J = JobRun
  import O = OrphanSweep

  /** The store holds this job's rows: its status, its scale tasks and, under the numbers
      `ids`, exactly its units. */
  ghost predicate Holds(db: O.Db, j: nat, ids: map<Key, nat>, job: JobStatus, scales: map<Scale, ScaleRow>, units: map<Key, J.UnitRow>) {
    && j in db.jobs && db.jobs[j] == job && O.ScalesOf(db.tasks, j) == scales
    && ids.Keys == units.Keys
    && (forall k :: k in units ==> HoldsUnit(db, j, ids[k], k, units[k].status))
    && (forall u :: u in db.units && db.units[u].task.job == j ==> exists k :: k in ids && ids[k] == u)
  }

  predicate HoldsUnit(db: O.Db, j: nat, u: nat, k: Key, status: TaskStatus) {
    u in db.units && db.units[u].task == O.TaskId(j, k.scale) && db.units[u].status == status
  }

  /** The job's units of a scale with a status, in the store and among the rows. */
  lemma UnitsOfScale(db: O.Db, j: nat, ids: map<Key, nat>, job: JobStatus, scales: map<Scale, ScaleRow>, units: map<Key, J.UnitRow>,
                     s: Scale, status: TaskStatus)
    requires Holds(db, j, ids, job, scales, units)
    ensures O.UnitsAt(db.units, O.TaskId(j, s), status) != {} <==> HasUnit(units, s, status)
  {
    if HasUnit(units, s, status) {
      var k :| k in units && k.scale == s && units[k].status == status;
      assert HoldsUnit(db, j, ids[k], k, units[k].status);
      assert ids[k] in O.UnitsAt(db.units, O.TaskId(j, s), status);
    }
    if O.UnitsAt(db.units, O.TaskId(j, s), status) != {} {
      var u :| u in O.UnitsAt(db.units, O.TaskId(j, s), status);
      var k :| k in ids && ids[k] == u;
      assert HoldsUnit(db, j, ids[k], k, units[k].status);
    }
  }

  ghost predicate HasUnit(units: map<Key, J.UnitRow>, s: Scale, status: TaskStatus) {
    exists k :: k in units && k.scale == s && units[k].status == status
  }

  // ---- after a run that escaped past Phase 5 ------------------------------------------------

  /** The verdict such a run computed and could not write is the one recovery would write, but
      no pass of the sweep ever reaches the job: all its rows stay, and it stays running. */
  lemma EscapedJobIsOutOfReach(dbs: seq<O.Db>, cutoff: int, limit: nat, i: nat, j: nat, ids: map<Key, nat>,
                               end: J.End, job: JobStatus, scales: map<Scale, ScaleRow>, units: map<Key, J.UnitRow>)
    requires J.LeftBehind(end, job, scales, units)
    requires i < |dbs| && O.Passes(dbs, cutoff, limit) && Holds(dbs[0], j, ids, job, scales, units)
    ensures O.ReconciledJob(dbs[0].jobs[j], O.ScalesOf(dbs[0].tasks, j)) == end.verdict
    ensures Holds(dbs[i], j, ids, job, scales, units)
  {
    var db := dbs[0];
    var picked := O.PassesAreOneSweep(dbs, cutoff, limit, i);
    forall u | u in db.units && db.units[u].task.job == j
      ensures !db.units[u].status.Running?
    {
      var k :| k in ids && ids[k] == u;
      assert HoldsUnit(db, j, ids[k], k, units[k].status);
    }
    O.OutOfReach(db, picked, cutoff, j);
    forall k | k in units
      ensures HoldsUnit(dbs[i], j, ids[k], k, units[k].status)
    {
      assert HoldsUnit(db, j, ids[k], k, units[k].status);
    }
  }

  /** Nor does a re-run help when the motion scan had succeeded: it escapes again and leaves
      what the first one left, whatever faults it meets. */
  method RerunAfterEscape(store: J.JobStore, end: J.End, f: J.Faults, quota: int, max: nat, env: Key -> nat -> Env) returns (again: J.End)
    requires J.ValidFaults(f) && J.LeftBehind(end, store.job, store.scales, store.units)
    requires MotionScan in store.scales && store.scales[MotionScan].status.Succeeded?
    modifies store
    ensures again.Escaped? && J.LeftBehind(end, store.job, store.scales, store.units)
    ensures store.scales == old(store.scales) && store.units == old(store.units)
  {
    ghost var told;
    again, told := store.ProcessClaimedTask(f, quota, max, env);
  }

  // ---- after a crash inside Phase 4 -------------------------------------------------------------

  /** A running job none of whose scales or units is pending, whose running units belong to
      running scales. */
  ghost predicate CrashedRows(job: JobStatus, scales: map<Scale, ScaleRow>, units: map<Key, J.UnitRow>) {
    && job.JRunning? && (forall s :: s in scales ==> !scales[s].status.Pending?)
    && (forall k :: k in units ==> !units[k].status.Pending?)
    && (forall k :: k in units && units[k].status.Running? ==> k.scale in scales && scales[k.scale].status.Running?)
  }

  ghost predicate NothingUnfinished(units: map<Key, J.UnitRow>) {
    forall k :: k in units ==> !units[k].status.Running? && !units[k].status.Pending?
  }

  lemma {:induction false} RunningArePlanned(max: nat, s: Units, evs: seq<Event>, planned: set<Key>)
    requires Inv(s) && WithinRun(evs)
    requires forall k :: k in s && k !in planned ==> s[k].pc.Off? && s[k].row != Some(Running)
    ensures Inv(Exec(max, s, evs))
    ensures forall k :: k in Exec(max, s, evs) && k !in planned ==> Exec(max, s, evs)[k].row != Some(Running)
    decreases |evs|
  {
    if evs != [] {
      ApplyKeepsInv(max, s, evs[0]);
      RunningArePlanned(max, Apply(max, s, evs[0]), evs[1..], planned);
    }
  }

  /** Whenever the process dies during Phase 4 -- after any steps of any threads, with sweeps in
      between -- it leaves such rows, if the run found no unit unfinished. */
  lemma CrashLeavesCrashedRows(f: J.Faults, scales: map<Scale, ScaleRow>, df: seq<Key>, hf: seq<Key>, highFreqActive: bool, partial: bool,
                               max: nat, before: map<Key, J.UnitRow>, evs: seq<Event>)
    requires J.Ready(f, scales, df, hf, highFreqActive, partial)
    requires Inv(J.PoolOf(before)) && NothingUnfinished(before) && WithinRun(evs)
    ensures CrashedRows(JRunning, scales, J.RowsOf(J.PoolAfter(max, before, Members(df) + Members(hf), evs)))
  {
    var planned := Members(df) + Members(hf);
    var s := Apply(max, J.PoolOf(before), Start(planned));
    ApplyKeepsInv(max, J.PoolOf(before), Start(planned));
    RunningArePlanned(max, s, evs, planned);
    var rows := J.RowsOf(J.PoolAfter(max, before, planned, evs));
    forall k | k in rows
      ensures !rows[k].status.Pending? && (rows[k].status.Running? ==> k.scale in scales && scales[k.scale].status.Running?)
    {
      assert LocalInv(J.PoolAfter(max, before, planned, evs)[k]);
    }
    forall t | t in scales
      ensures !scales[t].status.Pending?
    {
      match t
      case DefaultSegment =>
      case MotionScan =>
      case HighFreqEvent =>
      case LowFreqSummary =>
    }
  }

  /** No unit was in flight, or some running scale had none: nothing will ever settle that scale. */
  ghost predicate Stuck(scales: map<Scale, ScaleRow>, units: map<Key, J.UnitRow>) {
    J.NoneRunning(units) || exists s :: StuckAt(scales, units, s)
  }

  ghost predicate StuckAt(scales: map<Scale, ScaleRow>, units: map<Key, J.UnitRow>, s: Scale) {
    s in scales && scales[s].status.Running? && !HasUnit(units, s, Running)
  }

  /** The required scale has no success: none among its units while it runs, none counted once
      it is settled. */
  ghost predicate DefaultLost(scales: map<Scale, ScaleRow>, units: map<Key, J.UnitRow>) {
    DefaultSegment in scales &&
    var row := scales[DefaultSegment];
    if row.status.Running? then !HasUnit(units, DefaultSegment, Succeeded) else row.total > 0 && row.succeeded == 0
  }

  ghost predicate AllStale(db: O.Db, j: nat, cutoff: int) {
    forall u :: u in db.units && db.units[u].task.job == j && db.units[u].status.Running? ==> O.IsStale(db.units[u], cutoff)
  }

  /** A scale that had a unit in flight ends bad, with a success counted exactly when a unit had
      one; every other scale keeps its row. */
  ghost predicate SweptRow(units: map<Key, J.UnitRow>, s: Scale, before: ScaleRow, after: ScaleRow) {
    if HasUnit(units, s, Running)
    then Bad(after.status) && after.total > 0 && (after.succeeded == 0 <==> !HasUnit(units, s, Succeeded))
    else after == before
  }

  ghost predicate SweptFrom(scales: map<Scale, ScaleRow>, units: map<Key, J.UnitRow>, after: map<Scale, ScaleRow>) {
    after.Keys == scales.Keys && forall s :: s in scales ==> SweptRow(units, s, scales[s], after[s])
  }

  /** The row of one scale after all stale units were swept. */
  lemma SweptScale(db: O.Db, j: nat, ids: map<Key, nat>, scales: map<Scale, ScaleRow>, units: map<Key, J.UnitRow>, cutoff: int, s: Scale)
    requires Holds(db, j, ids, JRunning, scales, units) && CrashedRows(JRunning, scales, units) && AllStale(db, j, cutoff)
    requires s in scales
    ensures var after := O.ScalesOf(O.SweptTasks(db, O.Stale(db.units, cutoff)), j);
            s in after && SweptRow(units, s, scales[s], after[s])
  {
    var stale := O.Stale(db.units, cutoff);
    var t := O.TaskId(j, s);
    var marked := O.Marked(db.units, stale);
    assert t in db.tasks && db.tasks[t] == scales[s];
    UnitsOfScale(db, j, ids, JRunning, scales, units, s, Running);
    UnitsOfScale(db, j, ids, JRunning, scales, units, s, Pending);
    UnitsOfScale(db, j, ids, JRunning, scales, units, s, Succeeded);
    assert !HasUnit(units, s, Pending);
    if HasUnit(units, s, Running) {
      var u :| u in O.UnitsAt(db.units, t, Running);
      assert u in stale && u in O.UnitsAt(marked, t, Failed) && u in O.UnitsOf(marked, t);
      assert t in O.TasksOf(db.units, stale);
      assert O.UnitsAt(marked, t, Running) == {} && O.UnitsAt(marked, t, Pending) == {};
      assert O.UnitsAt(marked, t, Succeeded) == O.UnitsAt(db.units, t, Succeeded);
      var k :| k in units && k.scale == s && units[k].status == Running;
      assert scales[s].status.Running?;
    } else {
      assert t !in O.TasksOf(db.units, stale) by {
        forall u | u in stale
          ensures db.units[u].task != t
        {
          assert u !in O.UnitsAt(db.units, t, Running);
        }
      }
    }
  }

  /** The verdict of the rows after the sweep. */
  lemma VerdictOfSwept(scales: map<Scale, ScaleRow>, units: map<Key, J.UnitRow>, after: map<Scale, ScaleRow>)
    requires CrashedRows(JRunning, scales, units) && SweptFrom(scales, units, after) && !J.NoneRunning(units)
    ensures AllTerminal(after) <==> !Stuck(scales, units)
    ensures AnyBad(after)
    ensures !Stuck(scales, units) ==> (StoredVerdict(after).JFailed? <==> DefaultLost(scales, units))
  {
    forall s | s in scales
      ensures Terminal(after[s].status) <==> !StuckAt(scales, units, s)
    {
      assert SweptRow(units, s, scales[s], after[s]);
    }
    AllTerminalMeaning(after);
    AnyBadMeaning(after);
    var k :| k in units && units[k].status.Running?;
    assert HasUnit(units, k.scale, Running) && SweptRow(units, k.scale, scales[k.scale], after[k.scale]);
    if DefaultSegment in scales && !Stuck(scales, units) {
      DefaultAfter(scales, units);
      assert SweptRow(units, DefaultSegment, scales[DefaultSegment], after[DefaultSegment]);
    }
  }

  lemma DefaultAfter(scales: map<Scale, ScaleRow>, units: map<Key, J.UnitRow>)
    requires CrashedRows(JRunning, scales, units) && DefaultSegment in scales && !Stuck(scales, units)
    ensures scales[DefaultSegment].status.Running? <==> HasUnit(units, DefaultSegment, Running)
  {
    assert !StuckAt(scales, units, DefaultSegment);
    if HasUnit(units, DefaultSegment, Running) {
      var k :| k in units && k.scale == DefaultSegment && units[k].status == Running;
    }
  }

  /** The verdict after a crash inside Phase 4, read off the rows it left: once the stale units
      are cleared, in however many passes, the job is still running exactly when it is stuck;
      otherwise it failed exactly when the default scale has no success, and is partial in all
      other cases -- never a success. */
  lemma CrashVerdict(dbs: seq<O.Db>, cutoff: int, limit: nat, i: nat, j: nat, ids: map<Key, nat>,
                     scales: map<Scale, ScaleRow>, units: map<Key, J.UnitRow>)
    requires limit > 0 && i < |dbs| && O.Passes(dbs, cutoff, limit)
    requires i >= CeilDiv(|O.Stale(dbs[0].units, cutoff)|, limit)
    requires Holds(dbs[0], j, ids, JRunning, scales, units) && CrashedRows(JRunning, scales, units) && AllStale(dbs[0], j, cutoff)
    ensures j in dbs[i].jobs
    ensures dbs[i].jobs[j] == if Stuck(scales, units) then JRunning else if DefaultLost(scales, units) then JFailed else JPartialFailed
  {
    var db, stale := dbs[0], O.Stale(dbs[0].units, cutoff);
    O.ClearedIsOneSweep(dbs, cutoff, limit, i);
    if J.NoneRunning(units) {
      forall u | u in db.units && db.units[u].task.job == j
        ensures !db.units[u].status.Running?
      {
        var k :| k in ids && ids[k] == u;
        assert HoldsUnit(db, j, ids[k], k, units[k].status);
      }
      O.OutOfReach(db, stale, cutoff, j);
    } else {
      var after := O.ScalesOf(O.SweptTasks(db, stale), j);
      assert after.Keys == scales.Keys;
      forall s | s in scales
        ensures SweptRow(units, s, scales[s], after[s])
      {
        SweptScale(db, j, ids, scales, units, cutoff, s);
      }
      VerdictOfSwept(scales, units, after);
      var k :| k in units && units[k].status.Running?;
      assert HoldsUnit(db, j, ids[k], k, units[k].status);
      assert ids[k] in stale && j in O.JobsOf(db.units, stale);
    }
  }

  // ---- recovery against Phase 6 --------------------------------------------------------------

  /** On a first run with the job row in place the rows bear out the reports, and there are no
      other rows. */
  lemma FirstRunRows(max: nat, env: Key -> nat -> Env, ran: map<Key, J.UnitRow>, told: map<Key, Outcome>)
    requires J.RanAll(max, env, map[], ran, told) && J.JobAlwaysSeen(env)
    ensures J.Borne(ran, told) && ran.Keys <= told.Keys
  {
    forall k | k in told
      ensures told[k].OSucceeded? <==> k in ran && ran[k].status.Succeeded?
      ensures told[k].OSkipped? <==> k in ran && ran[k].status.Skipped?
    {
      assert J.Ran(max, env, map[], ran, k, told[k]);
      RunAloneTruthful(k.scale, max, J.LocalIn(map[], k), env(k), 0);
    }
    forall k | k in ran
      ensures k in told
    {
      assert k !in told ==> J.LocalIn(ran, k) == J.LocalIn(map[], k);
    }
  }

  /** A unit reported in some way is counted. */
  lemma Counted(plan: seq<Key>, told: map<Key, Outcome>, scale: Scale, k: Key)
    requires k in plan && k.scale == scale && forall x :: x in plan ==> x in told
    ensures told[k].OFailed? ==> J.CountedResult(plan, told, scale).failed > 0
  {
    if told[k].OFailed? {
      assert k in UnitsWith(plan, told, scale, OFailed);
    }
  }

  lemma DefaultLostIsPhase6(f: J.Faults, scales: map<Scale, ScaleRow>, df: seq<Key>, hf: seq<Key>, highFreqActive: bool, partial: bool,
                            ran: map<Key, J.UnitRow>, told: map<Key, Outcome>)
    requires J.Ready(f, scales, df, hf, highFreqActive, partial) && !Stuck(scales, ran)
    requires forall k :: k in told <==> k in df || k in hf
    requires J.Borne(ran, told) && ran.Keys <= told.Keys
    ensures var ds := J.CountedResult(df, told, DefaultSegment);
            DefaultLost(scales, ran) <==> DefaultSegment in scales && ds.total > 0 && ds.succeeded == 0
  {
    J.PlanCounts(df, told, DefaultSegment);
    if DefaultSegment in scales {
      assert !StuckAt(scales, ran, DefaultSegment);
      var k :| k in ran && k.scale == DefaultSegment && ran[k].status == Running;
      assert k in df;
      if HasUnit(ran, DefaultSegment, Succeeded) {
        var w :| w in ran && w.scale == DefaultSegment && ran[w].status == Succeeded;
        assert w in df && told[w].OSucceeded?;
      } else {
        forall w | w in df
          ensures told[w] != OSucceeded
        {
          assert told[w].OSucceeded? ==> HasUnit(ran, DefaultSegment, Succeeded);
        }
      }
    }
  }

  /** A run interrupted after its units reported and before Phase 5: whenever the sweep gives the
      job a verdict at all, it is the verdict Phase 6 computes from the reports. */
  lemma RecoveryEqualsPhase6(f: J.Faults, scales: map<Scale, ScaleRow>, df: seq<Key>, hf: seq<Key>, highFreqActive: bool, partial: bool,
                             ran: map<Key, J.UnitRow>, told: map<Key, Outcome>)
    requires J.Ready(f, scales, df, hf, highFreqActive, partial) && !Stuck(scales, ran)
    requires forall k :: k in told <==> k in df || k in hf
    requires J.Borne(ran, told) && ran.Keys <= told.Keys
    ensures (if DefaultLost(scales, ran) then JFailed else JPartialFailed)
         == J.Phase6Verdict(DefaultSegment in scales, J.CountedResult(df, told, DefaultSegment),
                            J.CountedResult(hf, told, HighFreqEvent), highFreqActive, partial)
  {
    DefaultLostIsPhase6(f, scales, df, hf, highFreqActive, partial, ran, told);
    var k :| k in ran && ran[k].status.Running?;
    assert told[k].OFailed?;
    if k in df {
      Counted(df, told, DefaultSegment, k);
    } else {
      Counted(hf, told, HighFreqEvent, k);
    }
  }

  /** The same over the store: after the passes the job has the verdict of Phase 6, or it is
      stuck and still running. */
  lemma InterruptedRunVerdict(dbs: seq<O.Db>, cutoff: int, limit: nat, i: nat, j: nat, ids: map<Key, nat>,
                              f: J.Faults, scales: map<Scale, ScaleRow>, df: seq<Key>, hf: seq<Key>, highFreqActive: bool, partial: bool,
                              max: nat, env: Key -> nat -> Env, ran: map<Key, J.UnitRow>, told: map<Key, Outcome>)
    requires limit > 0 && i < |dbs| && O.Passes(dbs, cutoff, limit)
    requires i >= CeilDiv(|O.Stale(dbs[0].units, cutoff)|, limit)
    requires Holds(dbs[0], j, ids, JRunning, scales, ran) && AllStale(dbs[0], j, cutoff) && CrashedRows(JRunning, scales, ran)
    requires J.Ready(f, scales, df, hf, highFreqActive, partial) && forall k :: k in told <==> k in df || k in hf
    requires J.RanAll(max, env, map[], ran, told) && J.JobAlwaysSeen(env)
    ensures j in dbs[i].jobs
    ensures dbs[i].jobs[j] ==
              if Stuck(scales, ran) then JRunning
              else J.Phase6Verdict(DefaultSegment in scales, J.CountedResult(df, told, DefaultSegment),
                                   J.CountedResult(hf, told, HighFreqEvent), highFreqActive, partial)
  {
    CrashVerdict(dbs, cutoff, limit, i, j, ids, scales, ran);
    FirstRunRows(max, env, ran, told);
    if !Stuck(scales, ran) {
      RecoveryEqualsPhase6(f, scales, df, hf, highFreqActive, partial, ran, told);
    }
  }
}
