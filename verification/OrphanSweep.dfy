/**
  Orphan recovery: a bounded sweep over the units of all jobs that fails units stuck
  running past a cutoff, then recomputes the scale tasks and jobs those units belong to.
*/
module OrphanSweep {
  import opened Statuses
  import opened Arith
  import opened Sets

  /** A job has at most one task per scale. */
  datatype TaskId = TaskId(job: nat, scale: Scale)

  datatype UnitRow = UnitRow(task: TaskId, status: TaskStatus, startedAt: Option<int>)

  datatype Db = Db(jobs: map<nat, JobStatus>, tasks: map<TaskId, ScaleRow>, units: map<nat, UnitRow>)

  predicate IsStale(u: UnitRow, cutoff: int) {
    u.status.Running? && u.startedAt.Some? && u.startedAt.value < cutoff
  }

  function Stale(units: map<nat, UnitRow>, cutoff: int): set<nat> {
    set u | u in units && IsStale(units[u], cutoff)
  }

  /** Every picked row started no later than every stale row left. */
  ghost predicate OldestFirst(units: map<nat, UnitRow>, cutoff: int, picked: set<nat>) {
    forall u, v :: u in picked && u in Stale(units, cutoff) && v in Stale(units, cutoff) - picked ==>
      units[u].startedAt.value <= units[v].startedAt.value
  }

  /** A row of the set that started first. */
  method Oldest(units: map<nat, UnitRow>, cutoff: int, among: set<nat>) returns (u: nat)
    requires among != {} && among <= Stale(units, cutoff)
    ensures u in among && forall v :: v in among ==> units[u].startedAt.value <= units[v].startedAt.value
  {
    u :| u in among;
    var seen, rest := {u}, among - {u};
    while rest != {}
      invariant seen + rest == among && u in among
      invariant forall v :: v in seen ==> units[u].startedAt.value <= units[v].startedAt.value
      decreases |rest|
    {
      var v :| v in rest;
      if units[v].startedAt.value < units[u].startedAt.value {
        u := v;
      }
      seen, rest := seen + {v}, rest - {v};
    }
  }

  function Marked(units: map<nat, UnitRow>, picked: set<nat>): map<nat, UnitRow> {
    map u | u in units :: if u in picked then units[u].(status := Failed) else units[u]
  }

  function UnitsOf(units: map<nat, UnitRow>, t: TaskId): set<nat> {
    set u | u in units && units[u].task == t
  }

  function UnitsAt(units: map<nat, UnitRow>, t: TaskId, status: TaskStatus): set<nat> {
    set u | u in units && units[u].task == t && units[u].status == status
  }

  /** `_reconcile_scale_task`. */
  function ReconciledTask(units: map<nat, UnitRow>, t: TaskId, row: ScaleRow): ScaleRow {
    if !row.status.Running? || UnitsAt(units, t, Running) != {} || UnitsAt(units, t, Pending) != {} then row
    else
      var succeeded, failed := |UnitsAt(units, t, Succeeded)|, |UnitsAt(units, t, Failed)|;
      ScaleRow(ScaleVerdict(succeeded, failed), |UnitsOf(units, t)|, succeeded, failed)
  }

  /** A settled task, read off the rows of its units. */
  ghost predicate SettledRow(units: map<nat, UnitRow>, t: TaskId, row: ScaleRow) {
    && row.total == |set u | u in units && units[u].task == t|
    && row.succeeded == |set u | u in units && units[u].task == t && units[u].status == Succeeded|
    && row.failed == |set u | u in units && units[u].task == t && units[u].status == Failed|
    && (row.status == PartialFailed <==> SomeUnit(units, t, Succeeded) && SomeUnit(units, t, Failed))
    && (row.status == Failed <==> !SomeUnit(units, t, Succeeded) && SomeUnit(units, t, Failed))
    && (row.status == Succeeded <==> !SomeUnit(units, t, Failed))
  }

  ghost predicate SomeUnit(units: map<nat, UnitRow>, t: TaskId, status: TaskStatus) {
    exists u :: u in units && units[u].task == t && units[u].status == status
  }

  /** A running task none of whose units is running or pending is settled by its units' rows;
      every other task keeps its row. */
  lemma ReconciledTaskMeaning(units: map<nat, UnitRow>, t: TaskId, row: ScaleRow)
    ensures if row.status == Running && !SomeUnit(units, t, Running) && !SomeUnit(units, t, Pending)
            then SettledRow(units, t, ReconciledTask(units, t, row))
            else ReconciledTask(units, t, row) == row
  {
    forall status
      ensures UnitsAt(units, t, status) != {} <==> SomeUnit(units, t, status)
    {
      if SomeUnit(units, t, status) {
        var u :| u in units && units[u].task == t && units[u].status == status;
        assert u in UnitsAt(units, t, status);
      }
    }
    assert UnitsOf(units, t) == set u | u in units && units[u].task == t;
    assert UnitsAt(units, t, Succeeded) == set u | u in units && units[u].task == t && units[u].status == Succeeded;
    assert UnitsAt(units, t, Failed) == set u | u in units && units[u].task == t && units[u].status == Failed;
  }

  function ScalesOf(tasks: map<TaskId, ScaleRow>, job: nat): map<Scale, ScaleRow> {
    map s: Scale | TaskId(job, s) in tasks :: tasks[TaskId(job, s)]
  }

  /** `_reconcile_job`. */
  function ReconciledJob(job: JobStatus, scales: map<Scale, ScaleRow>): JobStatus {
    if job.JRunning? && AllTerminal(scales) then StoredVerdict(scales) else job
  }

  function TasksOf(units: map<nat, UnitRow>, picked: set<nat>): set<TaskId> {
    set u | u in picked && u in units :: units[u].task
  }

  function JobsOf(units: map<nat, UnitRow>, picked: set<nat>): set<nat> {
    set u | u in picked && u in units :: units[u].task.job
  }

  function SweptTasks(db: Db, picked: set<nat>): map<TaskId, ScaleRow> {
    var units := Marked(db.units, picked);
    map t | t in db.tasks ::
      if t in TasksOf(db.units, picked) then ReconciledTask(units, t, db.tasks[t]) else db.tasks[t]
  }

  /** The store after a sweep that picked these units. */
  function Sweep(db: Db, picked: set<nat>): Db {
    var tasks := SweptTasks(db, picked);
    Db(map j | j in db.jobs ::
         if j in JobsOf(db.units, picked) then ReconciledJob(db.jobs[j], ScalesOf(tasks, j)) else db.jobs[j],
       tasks,
       Marked(db.units, picked))
  }

  class Repositories {
    var jobs: map<nat, JobStatus>
    var tasks: map<TaskId, ScaleRow>
    var units: map<nat, UnitRow>

    function View(): Db
      reads this
    {
      Db(jobs, tasks, units)
    }

    /** At most `limit` stale rows, the oldest first; ties are the store's business. */
    method ListStaleRunning(cutoff: int, limit: int) returns (picked: set<nat>)
      ensures picked <= Stale(units, cutoff)
      ensures |picked| == Max(0, Min(limit, |Stale(units, cutoff)|))
      ensures OldestFirst(units, cutoff, picked)
    {
      picked := {};
      var rest := Stale(units, cutoff);
      while |picked| < limit && rest != {}
        invariant picked !! rest && picked + rest == Stale(units, cutoff)
        invariant |picked| <= Max(0, limit) && OldestFirst(units, cutoff, picked)
        decreases |rest|
      {
        var u := Oldest(units, cutoff, rest);
        picked := picked + {u};
        rest := rest - {u};
      }
      assert |picked + rest| == |picked| + |rest|;
    }

    method TransitionTask(t: TaskId, target: TaskStatus) returns (ok: bool)
      requires t in tasks
      modifies this`tasks
      ensures ok == AcceptsTask(old(tasks)[t].status, target)
      ensures tasks == if ok then old(tasks)[t := old(tasks)[t].(status := target)] else old(tasks)
    {
      ok := AcceptsTask(tasks[t].status, target);
      if ok {
        tasks := tasks[t := tasks[t].(status := target)];
      }
    }

    method ReconcileScaleTask(t: TaskId) returns (ok: bool)
      modifies this`tasks
      ensures ok
      ensures tasks == if t in old(tasks) then old(tasks)[t := ReconciledTask(units, t, old(tasks)[t])] else old(tasks)
      ensures t in old(tasks) && old(tasks)[t].status == Running && !SomeUnit(units, t, Running) && !SomeUnit(units, t, Pending) ==>
                SettledRow(units, t, tasks[t])
    {
      if t in tasks {
        ReconciledTaskMeaning(units, t, tasks[t]);
      }
      if t !in tasks || !tasks[t].status.Running? { return true; }
      if UnitsAt(units, t, Running) != {} || UnitsAt(units, t, Pending) != {} { return true; }
      var succeeded, failed := |UnitsAt(units, t, Succeeded)|, |UnitsAt(units, t, Failed)|;
      tasks := tasks[t := tasks[t].(total := |UnitsOf(units, t)|, succeeded := succeeded, failed := failed)];
      ok := TransitionTask(t, ScaleVerdict(succeeded, failed));
      assert tasks == old(tasks)[t := ReconciledTask(units, t, old(tasks)[t])];
    }

    method ReconcileJob(j: nat) returns (ok: bool)
      modifies this`jobs
      ensures ok
      ensures jobs == if j in old(jobs) then old(jobs)[j := ReconciledJob(old(jobs)[j], ScalesOf(tasks, j))] else old(jobs)
    {
      if j !in jobs || !jobs[j].JRunning? { return true; }
      var scales := ScalesOf(tasks, j);
      if !AllTerminal(scales) { return true; }
      var target := StoredVerdict(scales);
      ok := AcceptsJob(jobs[j], target);
      if ok {
        jobs := jobs[j := target];
      }
    }

    /** The whole sweep, one session. It never attempts a forbidden transition, whatever
        is stored, and the new store is the swept old one. */
    method RecoverOrphans(enabled: bool, cutoff: int, limit: int) returns (recovered: nat, ok: bool, ghost picked: set<nat>)
      modifies this
      ensures ok
      ensures picked <= Stale(old(units), cutoff) && recovered == |picked|
      ensures OldestFirst(old(units), cutoff, picked)
      ensures |picked| == if enabled then Max(0, Min(limit, |Stale(old(units), cutoff)|)) else 0
      ensures View() == Sweep(old(View()), picked)
      ensures OrphansFailed(old(units), units, cutoff)
      ensures recovered == |Changed(old(units), units)|
      ensures enabled && recovered < limit ==> NoOrphanLeft(units, cutoff)
    {
      SweptUnits(units, cutoff, {});
      if !enabled {
        NothingPicked(View());
        return 0, true, {};
      }
      var stale := ListStaleRunning(cutoff, limit);
      picked := stale;
      var taskIds, jobIds := TasksOf(units, stale), JobsOf(units, stale);
      MarkAll(stale);
      ok := ReconcileTasks(taskIds, old(View()), picked);
      var okJobs := ReconcileJobs(jobIds, old(View()), picked);
      ok := ok && okJobs;
      recovered := |stale|;
      SweptUnits(old(units), cutoff, picked);
    }

    method MarkAll(stale: set<nat>)
      requires stale <= units.Keys
      modifies this`units
      ensures units == Marked(old(units), stale)
    {
      var rest := stale;
      while rest != {}
        invariant rest <= stale
        invariant units == Marked(old(units), stale - rest)
        decreases |rest|
      {
        var u :| u in rest;
        units := units[u := units[u].(status := Failed)];
        rest := rest - {u};
      }
      assert stale - rest == stale;
    }

    method ReconcileTasks(ids: set<TaskId>, ghost before: Db, ghost picked: set<nat>) returns (ok: bool)
      requires tasks == before.tasks && units == Marked(before.units, picked) && ids == TasksOf(before.units, picked)
      modifies this`tasks
      ensures ok && tasks == SweptTasks(before, picked)
    {
      ok := true;
      var rest := ids;
      while rest != {}
        invariant rest <= ids && ok
        invariant tasks == map t | t in before.tasks ::
                    if t in ids - rest then ReconciledTask(units, t, before.tasks[t]) else before.tasks[t]
        decreases |rest|
      {
        var t :| t in rest;
        ok := ReconcileScaleTask(t);
        rest := rest - {t};
      }
      assert ids - rest == ids;
    }

    method ReconcileJobs(ids: set<nat>, ghost before: Db, ghost picked: set<nat>) returns (ok: bool)
      requires jobs == before.jobs && ids == JobsOf(before.units, picked) && tasks == SweptTasks(before, picked)
      modifies this`jobs
      ensures ok && jobs == Sweep(before, picked).jobs
    {
      ok := true;
      var rest := ids;
      while rest != {}
        invariant rest <= ids && ok
        invariant jobs == map j | j in before.jobs ::
                    if j in ids - rest then ReconciledJob(before.jobs[j], ScalesOf(tasks, j)) else before.jobs[j]
        decreases |rest|
      {
        var j :| j in rest;
        ok := ReconcileJob(j);
        rest := rest - {j};
      }
      assert ids - rest == ids;
    }
  }

  // ---- which units a sweep fails -----------------------------------------------------------

  /** A unit's row changes only from running, with a recorded start strictly before the cutoff,
      to failed; and of such units the ones that started first are taken. */
  ghost predicate OrphansFailed(before: map<nat, UnitRow>, after: map<nat, UnitRow>, cutoff: int) {
    && after.Keys == before.Keys
    && (forall u :: u in Changed(before, after) ==> Orphan(before[u], cutoff) && after[u] == before[u].(status := Failed))
    && (forall u, v :: u in Changed(before, after) && v in after && Orphan(after[v], cutoff) ==>
          before[u].startedAt.value <= after[v].startedAt.value)
  }

  /** Running since before the cutoff. */
  predicate Orphan(u: UnitRow, cutoff: int) {
    u.status == Running && u.startedAt != None && u.startedAt.value < cutoff
  }

  function Changed(before: map<nat, UnitRow>, after: map<nat, UnitRow>): set<nat> {
    set u | u in before && u in after && before[u] != after[u]
  }

  ghost predicate NoOrphanLeft(units: map<nat, UnitRow>, cutoff: int) {
    forall u :: u in units ==> !Orphan(units[u], cutoff)
  }

  lemma ChangedArePicked(units: map<nat, UnitRow>, cutoff: int, picked: set<nat>)
    requires picked <= Stale(units, cutoff)
    ensures Changed(units, Marked(units, picked)) == picked
  {
  }

  lemma PickedAreOrphans(units: map<nat, UnitRow>, cutoff: int, picked: set<nat>)
    requires picked <= Stale(units, cutoff) && OldestFirst(units, cutoff, picked)
    ensures OrphansFailed(units, Marked(units, picked), cutoff)
  {
    ChangedArePicked(units, cutoff, picked);
    forall u, v | u in picked && v in units && Orphan(Marked(units, picked)[v], cutoff)
      ensures units[u].startedAt.value <= units[v].startedAt.value
    {
      assert v in Stale(units, cutoff) - picked;
    }
  }

  lemma SweptUnits(units: map<nat, UnitRow>, cutoff: int, picked: set<nat>)
    requires picked <= Stale(units, cutoff) && OldestFirst(units, cutoff, picked)
    ensures Changed(units, Marked(units, picked)) == picked
    ensures OrphansFailed(units, Marked(units, picked), cutoff)
    ensures |picked| == |Stale(units, cutoff)| ==> NoOrphanLeft(Marked(units, picked), cutoff)
  {
    ChangedArePicked(units, cutoff, picked);
    PickedAreOrphans(units, cutoff, picked);
    if |picked| == |Stale(units, cutoff)| {
      DifferenceSize(Stale(units, cutoff), picked);
      assert Stale(units, cutoff) == picked + (Stale(units, cutoff) - picked);
    }
  }

  lemma NothingPicked(db: Db)
    ensures Sweep(db, {}) == db
  {
  }

  // ---- what a sweep achieves ---------------------------------------------------------

  /** One pass of the sweep at a fixed cutoff. */
  ghost predicate Pass(db: Db, db': Db, cutoff: int, limit: nat) {
    exists picked :: picked <= Stale(db.units, cutoff) && |picked| == Min(limit, |Stale(db.units, cutoff)|) && db' == Sweep(db, picked)
  }

  lemma PassShrinks(db: Db, db': Db, cutoff: int, limit: nat)
    requires Pass(db, db', cutoff, limit)
    ensures |Stale(db'.units, cutoff)| == Max(0, |Stale(db.units, cutoff)| - limit)
    ensures Stale(db.units, cutoff) == {} ==> db' == db
  {
    var stale := Stale(db.units, cutoff);
    var picked :| picked <= stale && |picked| == Min(limit, |stale|) && db' == Sweep(db, picked);
    StaleAfter(db.units, picked, cutoff);
    DifferenceSize(stale, picked);
    if stale == {} {
      assert picked == {};
      NothingPicked(db);
    }
  }

  lemma StaleAfter(units: map<nat, UnitRow>, picked: set<nat>, cutoff: int)
    ensures Stale(Marked(units, picked), cutoff) == Stale(units, cutoff) - picked
  {
  }

  ghost predicate Passes(dbs: seq<Db>, cutoff: int, limit: nat) {
    forall i :: 0 <= i < |dbs| - 1 ==> Pass(dbs[i], dbs[i + 1], cutoff, limit)
  }

  /** Every task of the job takes part, as it is stored. */
  lemma ScalesOfMeaning(tasks: map<TaskId, ScaleRow>, job: nat, s: Scale)
    ensures s in ScalesOf(tasks, job) <==> TaskId(job, s) in tasks
    ensures TaskId(job, s) in tasks ==> ScalesOf(tasks, job)[s] == tasks[TaskId(job, s)]
  {
  }

  lemma {:induction false} AfterPasses(dbs: seq<Db>, cutoff: int, limit: nat, i: nat)
    requires i < |dbs| && Passes(dbs, cutoff, limit)
    ensures |Stale(dbs[i].units, cutoff)| == Max(0, |Stale(dbs[0].units, cutoff)| - i * limit)
  {
    if i > 0 {
      AfterPasses(dbs, cutoff, limit, i - 1);
      PassShrinks(dbs[i - 1], dbs[i], cutoff, limit);
      assert i * limit == (i - 1) * limit + limit;
    }
  }

  /** n stale units are gone after exactly ceil(n / limit) passes, and from then on the
      sweep changes nothing. */
  lemma ClearedInCeilPasses(dbs: seq<Db>, cutoff: int, limit: nat, i: nat)
    requires limit > 0 && i < |dbs| && Passes(dbs, cutoff, limit)
    ensures var n := |Stale(dbs[0].units, cutoff)|;
            && (|Stale(dbs[i].units, cutoff)| == 0 <==> i >= CeilDiv(n, limit))
            && (i >= CeilDiv(n, limit) && i + 1 < |dbs| ==> dbs[i + 1] == dbs[i])
  {
    var n := |Stale(dbs[0].units, cutoff)|;
    var c := CeilDiv(n, limit);
    AfterPasses(dbs, cutoff, limit, i);
    CeilDivBounds(n, limit);
    if i >= c {
      MulMono(c, i, limit);
      assert Stale(dbs[i].units, cutoff) == {};
    } else {
      MulMono(i, c - 1, limit);
    }
    if i + 1 < |dbs| {
      PassShrinks(dbs[i], dbs[i + 1], cutoff, limit);
    }
  }

  // ---- passes compose ------------------------------------------------------------------

  lemma MarkedTwice(units: map<nat, UnitRow>, p: set<nat>, q: set<nat>)
    ensures Marked(Marked(units, p), q) == Marked(units, p + q)
    ensures TasksOf(Marked(units, p), q) == TasksOf(units, q) && JobsOf(Marked(units, p), q) == JobsOf(units, q)
  {
  }

  lemma TasksJoin(units: map<nat, UnitRow>, p: set<nat>, q: set<nat>)
    ensures TasksOf(units, p + q) == TasksOf(units, p) + TasksOf(units, q)
    ensures JobsOf(units, p + q) == JobsOf(units, p) + JobsOf(units, q)
  {
  }

  /** Units of a task nobody picked from are as they were. */
  lemma UntouchedTask(units: map<nat, UnitRow>, p: set<nat>, q: set<nat>, t: TaskId, row: ScaleRow)
    requires t !in TasksOf(units, q)
    ensures ReconciledTask(Marked(units, p + q), t, row) == ReconciledTask(Marked(units, p), t, row)
  {
    forall u | u in units && units[u].task == t
      ensures u !in q
    {
    }
    forall status
      ensures UnitsAt(Marked(units, p + q), t, status) == UnitsAt(Marked(units, p), t, status)
    {
    }
    assert UnitsOf(Marked(units, p + q), t) == UnitsOf(Marked(units, p), t);
  }

  /** A task with a unit still to be picked is left alone by the first pass. */
  lemma StillRunningTask(units: map<nat, UnitRow>, p: set<nat>, q: set<nat>, cutoff: int, t: TaskId, row: ScaleRow)
    requires q <= Stale(Marked(units, p), cutoff) && t in TasksOf(units, q)
    ensures ReconciledTask(Marked(units, p), t, row) == row
  {
    var u :| u in q && u in units && units[u].task == t;
    assert u in UnitsAt(Marked(units, p), t, Running);
  }

  lemma TasksTwice(db: Db, p: set<nat>, q: set<nat>, cutoff: int)
    requires q <= Stale(Marked(db.units, p), cutoff)
    ensures SweptTasks(Sweep(db, p), q) == SweptTasks(db, p + q)
  {
    MarkedTwice(db.units, p, q);
    TasksJoin(db.units, p, q);
    var once, twice, both := SweptTasks(db, p), SweptTasks(Sweep(db, p), q), SweptTasks(db, p + q);
    forall t | t in db.tasks
      ensures twice[t] == both[t]
    {
      if t in TasksOf(db.units, q) {
        StillRunningTask(db.units, p, q, cutoff, t, db.tasks[t]);
      } else {
        UntouchedTask(db.units, p, q, t, db.tasks[t]);
      }
    }
  }

  /** What a later pass cannot change: settled scales, and scales nobody picked from. */
  lemma LaterScales(db: Db, p: set<nat>, q: set<nat>, cutoff: int, j: nat)
    requires q <= Stale(Marked(db.units, p), cutoff)
    requires AllTerminal(ScalesOf(SweptTasks(db, p), j)) || j !in JobsOf(db.units, q)
    ensures ScalesOf(SweptTasks(db, p + q), j) == ScalesOf(SweptTasks(db, p), j)
  {
    TasksTwice(db, p, q, cutoff);
    MarkedTwice(db.units, p, q);
    var once, both := SweptTasks(db, p), SweptTasks(db, p + q);
    AllTerminalMeaning(ScalesOf(once, j));
    forall s: Scale | TaskId(j, s) in once
      ensures both[TaskId(j, s)] == once[TaskId(j, s)]
    {
      var t := TaskId(j, s);
      assert s in ScalesOf(once, j);
      if t in TasksOf(db.units, q) {
        assert j in JobsOf(db.units, q);
      }
    }
  }

  lemma JobTwice(db: Db, p: set<nat>, q: set<nat>, cutoff: int, j: nat)
    requires q <= Stale(Marked(db.units, p), cutoff) && j in db.jobs
    ensures Sweep(Sweep(db, p), q).jobs[j] == Sweep(db, p + q).jobs[j]
  {
    TasksTwice(db, p, q, cutoff);
    MarkedTwice(db.units, p, q);
    TasksJoin(db.units, p, q);
    if AllTerminal(ScalesOf(SweptTasks(db, p), j)) || j !in JobsOf(db.units, q) {
      LaterScales(db, p, q, cutoff, j);
    }
  }

  /** Two passes are one pass that picks what both picked. */
  lemma SweepTwice(db: Db, p: set<nat>, q: set<nat>, cutoff: int)
    requires q <= Stale(Marked(db.units, p), cutoff)
    ensures Sweep(Sweep(db, p), q) == Sweep(db, p + q)
  {
    TasksTwice(db, p, q, cutoff);
    MarkedTwice(db.units, p, q);
    forall j | j in db.jobs
      ensures Sweep(Sweep(db, p), q).jobs[j] == Sweep(db, p + q).jobs[j]
    {
      JobTwice(db, p, q, cutoff, j);
    }
  }

  /** However the stale units are divided among passes, the passes together are one sweep. */
  lemma {:induction false} PassesAreOneSweep(dbs: seq<Db>, cutoff: int, limit: nat, i: nat) returns (picked: set<nat>)
    requires i < |dbs| && Passes(dbs, cutoff, limit)
    ensures picked <= Stale(dbs[0].units, cutoff) && |picked| == Min(i * limit, |Stale(dbs[0].units, cutoff)|)
    ensures dbs[i] == Sweep(dbs[0], picked)
  {
    picked := {};
    NothingPicked(dbs[0]);
    if i > 0 {
      picked := PassesAreOneSweep(dbs, cutoff, limit, i - 1);
      assert Pass(dbs[i - 1], dbs[i], cutoff, limit);
      picked := PassAfter(dbs[0], dbs[i - 1], dbs[i], cutoff, limit, picked, (i - 1) * limit);
      assert i * limit == (i - 1) * limit + limit;
    }
  }

  lemma PassAfter(db: Db, before: Db, after: Db, cutoff: int, limit: nat, p: set<nat>, n: nat) returns (picked: set<nat>)
    requires p <= Stale(db.units, cutoff) && |p| == Min(n, |Stale(db.units, cutoff)|) && before == Sweep(db, p)
    requires Pass(before, after, cutoff, limit)
    ensures picked <= Stale(db.units, cutoff) && |picked| == Min(n + limit, |Stale(db.units, cutoff)|) && after == Sweep(db, picked)
  {
    var stale := Stale(db.units, cutoff);
    var q :| q <= Stale(before.units, cutoff) && |q| == Min(limit, |Stale(before.units, cutoff)|) && after == Sweep(before, q);
    StaleAfter(db.units, p, cutoff);
    SweepTwice(db, p, q, cutoff);
    PickedSize(stale, p, q, n, limit);
    picked := p + q;
  }

  lemma PickedSize(stale: set<nat>, p: set<nat>, q: set<nat>, n: nat, limit: nat)
    requires p <= stale && q <= stale - p && |p| == Min(n, |stale|) && |q| == Min(limit, |stale - p|)
    ensures |p + q| == Min(n + limit, |stale|)
  {
    DifferenceSize(stale, p);
    assert p !! q;
  }

  /** Once all stale units are cleared, the store is the one a single unbounded sweep leaves. */
  lemma ClearedIsOneSweep(dbs: seq<Db>, cutoff: int, limit: nat, i: nat)
    requires limit > 0 && i < |dbs| && Passes(dbs, cutoff, limit) && i >= CeilDiv(|Stale(dbs[0].units, cutoff)|, limit)
    ensures dbs[i] == Sweep(dbs[0], Stale(dbs[0].units, cutoff))
  {
    var stale := Stale(dbs[0].units, cutoff);
    var picked := PassesAreOneSweep(dbs, cutoff, limit, i);
    CeilDivBounds(|stale|, limit);
    MulMono(CeilDiv(|stale|, limit), i, limit);
    DifferenceSize(stale, picked);
    assert stale == picked + (stale - picked);
  }

  /** A job interrupted with a unit in flight is never recovered as a success. */
  lemma InterruptedIsNotSuccess(db: Db, picked: set<nat>, u: nat)
    requires u in picked && u in db.units
    requires var t := db.units[u].task; t in db.tasks && db.tasks[t].status.Running? && t.job in db.jobs && db.jobs[t.job].JRunning?
    ensures !Sweep(db, picked).jobs[db.units[u].task.job].JSucceeded?
  {
    var t := db.units[u].task;
    var units := Marked(db.units, picked);
    var tasks := SweptTasks(db, picked);
    assert u in UnitsAt(units, t, Failed);
    var scales := ScalesOf(tasks, t.job);
    assert t == TaskId(t.job, t.scale);
    assert t.scale in scales && scales[t.scale] == ReconciledTask(units, t, db.tasks[t]);
    assert scales[t.scale].status.Running? || Bad(scales[t.scale].status);
    AnyBadMeaning(scales);
    AllTerminalMeaning(scales);
  }

  /** A job with no running unit is out of the sweep's reach: whatever the sweep picks,
      its status and its scale rows stay as they are -- also when it is itself still
      running with every scale settled. */
  lemma OutOfReach(db: Db, picked: set<nat>, cutoff: int, j: nat)
    requires picked <= Stale(db.units, cutoff) && j in db.jobs
    requires forall u :: u in db.units && db.units[u].task.job == j ==> !db.units[u].status.Running?
    ensures Sweep(db, picked).jobs[j] == db.jobs[j]
    ensures ScalesOf(Sweep(db, picked).tasks, j) == ScalesOf(db.tasks, j)
  {
    forall u | u in picked
      ensures db.units[u].task.job != j
    {
    }
  }
}
