/**
  The life of analysis units under faults and concurrency.

  Every unit thread moves through the write sessions of `_run_unit_in_fresh_session`
  and `_execute_running_unit`. Each session is one atomic step that commits or leaves
  the store untouched; what the environment does (a stage raises, a commit is refused,
  the job row is missing) is an `Env` value chosen freely for every step. Threads of
  different units interleave at will, the orphan sweep may strike between any two
  steps, and a crash may wipe all threads at any point, after which another run of the
  same job may start.
*/
module UnitProtocol {
  import opened Statuses

  datatype Key = Key(scale: Scale, startMs: int, endMs: int)

  datatype Outcome = OSucceeded | OFailed | OSkipped

  /** What one attempt at a write session meets. */
  datatype Attempt = Commits | Transient | Permanent

  datatype Frames = FramesFound | FramesEmpty | FramesInsufficient | FramesRaise

  datatype Gate = GatePasses | GateSuppresses | GateSchemaError | GateRaises

  datatype Vlm = VlmAnswers | VlmFails | VlmEscapes

  datatype Env = Env(jobSeen: bool, attempt: Attempt, frames: Frames, gate: Gate, vlm: Vlm)

  /** Where a unit thread stands; `n` counts attempts at the pending write, from 1. */
  datatype Pc =
    | Off                            // not part of the current run
    | Idle                           // dispatched, session not yet opened
    | SelectFrames
    | SkipEmpty(n: nat)              // skip write inside the frame-selection try block
    | SkipInsufficient(n: nat)       // skip write inside its exception handler
    | FailFrames(n: nat)
    | RunGate
    | FailGate(n: nat)
    | SkipGate(n: nat)               // high-frequency scale only
    | PublishDetector(n: nat)        // default scale only
    | CallVlm
    | FailVlm(n: nat)
    | Publish(n: nat, missed: bool)  // missed: an earlier attempt found no job row
    | Guard(n: nat)
    | Done(outcome: Outcome)

  /** A unit row (absent until first claimed), its publication count and its thread. */
  datatype Local = Local(row: Option<TaskStatus>, published: nat, pc: Pc)

  // ---- one step of one unit --------------------------------------------------

  /** `run_db_write_with_retry`: is attempt `n` of `max` followed by another one? */
  predicate Retries(n: nat, max: nat, a: Attempt) {
    a.Transient? && n < max
  }

  function WriteStatus(l: Local, max: nat, n: nat, a: Attempt, status: TaskStatus,
                       again: Pc, done: Pc, raised: Pc): Local {
    if max < 1 then l.(pc := raised)
    else if a.Commits? then l.(row := Some(status), pc := done)
    else if Retries(n, max, a) then l.(pc := again)
    else l.(pc := raised)
  }

  function PublishStep(l: Local, max: nat, n: nat, missed: bool, e: Env): Local {
    var missedNow := missed || !e.jobSeen;
    if max < 1 then l.(pc := Guard(1))
    else if e.attempt.Commits? then
      if e.jobSeen
      then Local(Some(Succeeded), l.published + 1, Done(if missed then OFailed else OSucceeded))
      else l.(pc := Done(OFailed))
    else if Retries(n, max, e.attempt) then l.(pc := Publish(n + 1, missedNow))
    else l.(pc := Guard(1))
  }

  function ClaimStep(l: Local, e: Env): Local {
    if !e.jobSeen || !e.attempt.Commits? then l.(pc := Done(OFailed))
    else if l.row == Some(Succeeded) then l.(pc := Done(OSucceeded))
    else if l.row == Some(Skipped) then l.(pc := Done(OSkipped))
    else l.(row := Some(Running), pc := SelectFrames)
  }

  function GateStep(scale: Scale, l: Local, g: Gate): Local {
    match g
    case GatePasses => l.(pc := CallVlm)
    case GateSuppresses => l.(pc := if scale.DefaultSegment? then PublishDetector(1) else SkipGate(1))
    case GateSchemaError => l.(pc := FailGate(1))
    case GateRaises => l.(pc := Guard(1))
  }

  function UnitStep(scale: Scale, max: nat, l: Local, e: Env): Local {
    match l.pc
    case Off => l
    case Done(_) => l
    case Idle => ClaimStep(l, e)
    case SelectFrames =>
      (match e.frames
       case FramesFound => l.(pc := RunGate)
       case FramesEmpty => l.(pc := SkipEmpty(1))
       case FramesInsufficient => l.(pc := SkipInsufficient(1))
       case FramesRaise => l.(pc := FailFrames(1)))
    case SkipEmpty(n) =>
      WriteStatus(l, max, n, e.attempt, Skipped, SkipEmpty(n + 1), Done(OSkipped), FailFrames(1))
    case SkipInsufficient(n) =>
      WriteStatus(l, max, n, e.attempt, Skipped, SkipInsufficient(n + 1), Done(OSkipped), Guard(1))
    case FailFrames(n) =>
      WriteStatus(l, max, n, e.attempt, Failed, FailFrames(n + 1), Done(OFailed), Guard(1))
    case RunGate => GateStep(scale, l, e.gate)
    case FailGate(n) =>
      WriteStatus(l, max, n, e.attempt, Failed, FailGate(n + 1), Done(OFailed), Guard(1))
    case SkipGate(n) =>
      WriteStatus(l, max, n, e.attempt, Skipped, SkipGate(n + 1), Done(OSkipped), Guard(1))
    case PublishDetector(n) =>
      if max >= 1 && e.attempt.Commits? then Local(Some(Succeeded), l.published + 1, Done(OSucceeded))
      else if max >= 1 && Retries(n, max, e.attempt) then l.(pc := PublishDetector(n + 1))
      else l.(pc := Guard(1))
    case CallVlm =>
      (match e.vlm
       case VlmAnswers => l.(pc := Publish(1, false))
       case VlmFails => l.(pc := FailVlm(1))
       case VlmEscapes => l.(pc := Guard(1)))
    case FailVlm(n) =>
      WriteStatus(l, max, n, e.attempt, Failed, FailVlm(n + 1), Done(OFailed), Guard(1))
    case Publish(n, missed) => PublishStep(l, max, n, missed, e)
    case Guard(n) =>
      WriteStatus(l, max, n, e.attempt, Failed, Guard(n + 1), Done(OFailed), Done(OFailed))
  }

  predicate Halted(pc: Pc) {
    pc.Off? || pc.Done?
  }

  /** Steps a thread may still take: phases left, then attempts left in the phase. */
  function Fuel(max: nat, pc: Pc): (r: nat)
    ensures r == 0 <==> Halted(pc)
  {
    var left := (n: nat) => if n < max then max - n else 0;
    var w := max + 1;
    match pc
    case Off => 0
    case Done(_) => 0
    case Guard(n) => 1 + left(n)
    case Publish(n, _) => 1 + w + left(n)
    case FailVlm(n) => 1 + w + left(n)
    case FailGate(n) => 1 + w + left(n)
    case SkipGate(n) => 1 + w + left(n)
    case PublishDetector(n) => 1 + w + left(n)
    case FailFrames(n) => 1 + w + left(n)
    case SkipInsufficient(n) => 1 + w + left(n)
    case SkipEmpty(n) => 1 + 2 * w + left(n)
    case CallVlm => 1 + 2 * w
    case RunGate => 2 + 2 * w
    case SelectFrames => 3 + 3 * w
    case Idle => 4 + 3 * w
  }

  /** Every live step makes progress, whatever the environment does. */
  lemma StepProgress(scale: Scale, max: nat, l: Local, e: Env)
    requires !Halted(l.pc)
    ensures Fuel(max, UnitStep(scale, max, l, e).pc) < Fuel(max, l.pc)
  {
  }

  // ---- the invariant of one unit ----------------------------------------------

  ghost predicate LocalInv(l: Local) {
    && (l.row == Some(Succeeded) <==> l.published == 1)
    && l.published <= 1
    && l.row != Some(Pending) && l.row != Some(PartialFailed)
    && (!Halted(l.pc) && !l.pc.Idle? ==> l.row == Some(Running) || l.row == Some(Failed))
    && (l.pc == Done(OSucceeded) ==> l.row == Some(Succeeded))
    && (l.pc == Done(OSkipped) ==> l.row == Some(Skipped))
  }

  /** The two moments at which the reported outcome and the stored row part ways:
      a claim that does not go through on a unit that is already finished, and a
      publication that commits after an earlier attempt had found no job row. */
  predicate LosesTrack(max: nat, l: Local, e: Env) {
    || (l.pc.Idle? && (l.row == Some(Succeeded) || l.row == Some(Skipped)) && !(e.jobSeen && e.attempt.Commits?))
    || (max >= 1 && l.pc.Publish? && l.pc.missed && e.jobSeen && e.attempt.Commits?)
  }

  function Strike(l: Local): Local {
    if l.row == Some(Running) then l.(row := Some(Failed)) else l
  }

  lemma StepKeepsLocalInv(scale: Scale, max: nat, l: Local, e: Env)
    requires LocalInv(l)
    ensures LocalInv(UnitStep(scale, max, l, e))
    ensures LocalInv(Strike(l))
  {
  }

  /** A finished thread reported the truth about success and skipping. */
  predicate Truthful(l: Local) {
    l.pc.Done? ==>
      && (l.row == Some(Succeeded) <==> l.pc.outcome.OSucceeded?)
      && (l.row == Some(Skipped) <==> l.pc.outcome.OSkipped?)
  }

  lemma StepTruth(scale: Scale, max: nat, l: Local, e: Env)
    requires LocalInv(l) && !Halted(l.pc)
    ensures Truthful(UnitStep(scale, max, l, e)) <==> !LosesTrack(max, l, e)
  {
  }

  // ---- all units of a job, over any number of runs -------------------------------

  type Units = map<Key, Local>

  datatype Event =
    | Act(key: Key, env: Env)        // one thread takes one step
    | Sweep(keys: set<Key>)          // orphan recovery picks some running rows
    | Reconcile                      // Phase 4.5 commits
    | Crash                          // the process dies: every thread is gone
    | Start(planned: set<Key>)       // a run dispatches its planned units

  predicate AllHalted(s: Units) {
    forall k :: k in s ==> Halted(s[k].pc)
  }

  /** A unit at the start of a run: dispatched when planned, out of the run otherwise. */
  function Dispatch(s: Units, planned: set<Key>, k: Key): Local
    requires k in s.Keys + planned
  {
    if k !in planned then s[k].(pc := Off)
    else if k in s then s[k].(pc := Idle)
    else Local(None, 0, Idle)
  }

  function Apply(max: nat, s: Units, ev: Event): Units {
    match ev
    case Act(k, e) => if k in s then s[k := UnitStep(k.scale, max, s[k], e)] else s
    case Sweep(ks) => map k | k in s :: if k in ks then Strike(s[k]) else s[k]
    case Reconcile => if AllHalted(s) then map k | k in s :: Strike(s[k]) else s
    case Crash => map k | k in s :: s[k].(pc := Off)
    case Start(planned) =>
      if AllHalted(s) then (map k | k in s.Keys + planned :: Dispatch(s, planned, k)) else s
  }

  function Exec(max: nat, s: Units, evs: seq<Event>): Units
    decreases |evs|
  {
    if evs == [] then s else Exec(max, Apply(max, s, evs[0]), evs[1..])
  }

  ghost predicate Inv(s: Units) {
    forall k :: k in s ==> LocalInv(s[k])
  }

  /** What the events other than a thread's step do to a unit: a sweep fails it if it is picked
      and running; Phase 4.5 fails it if it is running and all threads have ended; a crash takes
      its thread and nothing else; a new run dispatches it if it is planned, as it is stored, and
      otherwise leaves it out. */
  lemma EventMeaning(max: nat, s: Units, k: Key, picked: set<Key>, planned: set<Key>)
    requires k in s
    ensures var r := Apply(max, s, Sweep(picked));
            k in r && r[k] == if k in picked && s[k].row == Some(Running) then s[k].(row := Some(Failed)) else s[k]
    ensures AllHalted(s) ==>
              var r := Apply(max, s, Reconcile);
              k in r && r[k] == if s[k].row == Some(Running) then s[k].(row := Some(Failed)) else s[k]
    ensures var r := Apply(max, s, Crash); k in r && r[k] == Local(s[k].row, s[k].published, Off)
    ensures AllHalted(s) ==>
              var r := Apply(max, s, Start(planned));
              && k in r && r[k] == Local(s[k].row, s[k].published, if k in planned then Idle else Off)
              && forall x :: x in planned && x !in s ==> x in r && r[x] == Local(None, 0, Idle)
  {
  }

  lemma ApplyKeepsInv(max: nat, s: Units, ev: Event)
    requires Inv(s)
    ensures Inv(Apply(max, s, ev))
  {
    if ev.Act? && ev.key in s {
      StepKeepsLocalInv(ev.key.scale, max, s[ev.key], ev.env);
    }
  }

  lemma {:induction false} ExecKeepsInv(max: nat, s: Units, evs: seq<Event>)
    requires Inv(s)
    ensures Inv(Exec(max, s, evs))
    decreases |evs|
  {
    if evs != [] {
      ApplyKeepsInv(max, s, evs[0]);
      ExecKeepsInv(max, Apply(max, s, evs[0]), evs[1..]);
    }
  }

  /** Over any history of runs, crashes and sweeps, a window's record is published at
      most once, and its unit is stored as succeeded exactly when it was published. */
  lemma PublishedAtMostOnce(max: nat, evs: seq<Event>, k: Key)
    requires k in Exec(max, map[], evs)
    ensures Exec(max, map[], evs)[k].published <= 1
    ensures Exec(max, map[], evs)[k].row == Some(Succeeded) <==> Exec(max, map[], evs)[k].published == 1
  {
    ExecKeepsInv(max, map[], evs);
  }

  /** A stored success is final: no later run, sweep, crash or retry undoes or repeats it. */
  lemma {:induction false} SuccessIsFinal(max: nat, s: Units, evs: seq<Event>, k: Key)
    requires Inv(s) && k in s && s[k].row == Some(Succeeded)
    ensures k in Exec(max, s, evs)
    ensures Exec(max, s, evs)[k].row == Some(Succeeded) && Exec(max, s, evs)[k].published == 1
    decreases |evs|
  {
    if evs != [] {
      ApplyKeepsInv(max, s, evs[0]);
      SuccessIsFinal(max, Apply(max, s, evs[0]), evs[1..], k);
    }
  }

  // ---- one run: threads and sweeps only, then the Phase 4.5 reconciliation --------

  predicate WithinRun(evs: seq<Event>) {
    forall i :: 0 <= i < |evs| ==> evs[i].Act? || evs[i].Sweep?
  }

  /** Some step of unit `k` in this stretch of the run loses track of its stored row. */
  predicate LosesIn(max: nat, s: Units, evs: seq<Event>, k: Key)
    decreases |evs|
  {
    evs != [] &&
    ((evs[0].Act? && evs[0].key == k && k in s && LosesTrack(max, s[k], evs[0].env))
     || LosesIn(max, Apply(max, s, evs[0]), evs[1..], k))
  }

  lemma {:induction false} TruthOfRun(max: nat, s: Units, evs: seq<Event>, k: Key)
    requires Inv(s) && k in s && WithinRun(evs)
    ensures k in Exec(max, s, evs)
    ensures s[k].pc.Off? ==> Exec(max, s, evs)[k].pc.Off?
    ensures Truthful(Exec(max, s, evs)[k]) <==> Truthful(s[k]) && !LosesIn(max, s, evs, k)
    decreases |evs|
  {
    if evs != [] {
      var s1 := Apply(max, s, evs[0]);
      ApplyKeepsInv(max, s, evs[0]);
      if evs[0].Act? && evs[0].key == k && !Halted(s[k].pc) {
        StepTruth(k.scale, max, s[k], evs[0].env);
      }
      TruthOfRun(max, s1, evs[1..], k);
      if s[k].pc.Done? && !Truthful(s[k]) {
        assert s1[k].pc == s[k].pc;
      }
    }
  }

  /** Whatever stages raise, whatever writes are refused and however threads and sweeps
      interleave: once all threads of a run have halted and Phase 4.5 has committed, no
      unit is running, and a planned unit is stored as succeeded (skipped) exactly when
      the scheduler was told so -- if and only if its thread never lost track. */
  lemma ReconciledRun(max: nat, s0: Units, planned: set<Key>, evs: seq<Event>, k: Key)
    requires Inv(s0) && AllHalted(s0) && WithinRun(evs)
    requires AllHalted(Exec(max, Apply(max, s0, Start(planned)), evs))
    ensures var s1 := Apply(max, s0, Start(planned));
            var s3 := Apply(max, Exec(max, s1, evs), Reconcile);
            && (forall j :: j in s3 ==> s3[j].row != Some(Running))
            && (k in planned ==> k in s3 && s3[k].pc.Done? &&
                                 (Truthful(s3[k]) <==> !LosesIn(max, s1, evs, k)))
  {
    var s1 := Apply(max, s0, Start(planned));
    ApplyKeepsInv(max, s0, Start(planned));
    if k in planned {
      TruthOfRun(max, s1, evs, k);
      NeverOff(max, s1, evs, k);
    }
  }

  lemma {:induction false} NeverOff(max: nat, s: Units, evs: seq<Event>, k: Key)
    requires k in s && !s[k].pc.Off? && WithinRun(evs)
    ensures k in Exec(max, s, evs) && !Exec(max, s, evs)[k].pc.Off?
    decreases |evs|
  {
    if evs != [] {
      NeverOff(max, Apply(max, s, evs[0]), evs[1..], k);
    }
  }

  /** The planned units of one scale stored with a status are exactly those reported so. */
  lemma StoredMatchesReported(max: nat, s0: Units, planned: set<Key>, evs: seq<Event>, scale: Scale)
    requires Inv(s0) && AllHalted(s0) && WithinRun(evs)
    requires AllHalted(Exec(max, Apply(max, s0, Start(planned)), evs))
    requires forall k :: k in planned ==> !LosesIn(max, Apply(max, s0, Start(planned)), evs, k)
    ensures var s3 := Apply(max, Exec(max, Apply(max, s0, Start(planned)), evs), Reconcile);
            && planned <= s3.Keys
            && (set k | k in planned && k.scale == scale && s3[k].row == Some(Succeeded))
               == (set k | k in planned && k.scale == scale && s3[k].pc == Done(OSucceeded))
            && (set k | k in planned && k.scale == scale && s3[k].row == Some(Skipped))
               == (set k | k in planned && k.scale == scale && s3[k].pc == Done(OSkipped))
  {
    var s1 := Apply(max, s0, Start(planned));
    var s3 := Apply(max, Exec(max, s1, evs), Reconcile);
    forall k | k in planned
      ensures k in s3 && s3[k].pc.Done? && Truthful(s3[k])
    {
      ReconciledRun(max, s0, planned, evs, k);
    }
  }

  /** On a first run nothing is stored yet, so with the job row in place no thread can
      lose track: the tallies and the store always agree. */
  lemma {:induction false} FirstRunNeverLoses(max: nat, s: Units, evs: seq<Event>, k: Key)
    requires k in s && WithinRun(evs)
    requires s[k].pc.Idle? ==> s[k].row != Some(Succeeded) && s[k].row != Some(Skipped)
    requires s[k].pc.Publish? ==> !s[k].pc.missed
    requires !s[k].pc.Off?
    requires forall i :: 0 <= i < |evs| && evs[i].Act? ==> evs[i].env.jobSeen
    ensures !LosesIn(max, s, evs, k)
    decreases |evs|
  {
    if evs != [] {
      var s1 := Apply(max, s, evs[0]);
      assert forall i :: 0 <= i < |evs[1..]| ==> evs[1..][i] == evs[i + 1];
      FirstRunNeverLoses(max, s1, evs[1..], k);
    }
  }

  /** The promise fails on a re-run: one refused claim on a unit that an earlier run
      finished makes the scheduler count a failure for a window that is published. */
  lemma RefusedClaimCountsFailure(max: nat, k: Key, e: Env)
    requires e.attempt.Transient?
    ensures var s0 := map[k := Local(Some(Succeeded), 1, Off)];
            var s1 := Apply(max, s0, Start({k}));
            var s3 := Apply(max, Exec(max, s1, [Act(k, e)]), Reconcile);
            && Inv(s0) && AllHalted(Exec(max, s1, [Act(k, e)]))
            && k in s3 && s3[k] == Local(Some(Succeeded), 1, Done(OFailed))
  {
    var s0 := map[k := Local(Some(Succeeded), 1, Off)];
    var s1 := Apply(max, s0, Start({k}));
    assert s1[k] == Local(Some(Succeeded), 1, Idle);
    var s2 := Apply(max, s1, Act(k, e));
    assert Exec(max, s1, [Act(k, e)]) == Exec(max, s2, []) == s2;
  }

  /** The other losing point: an attempt at publishing finds no job row and its commit is
      refused, the retry publishes, and the unit is still reported as failed. */
  lemma LatePublicationCountsFailure(max: nat, scale: Scale, e: Env)
    requires max >= 2 && e.jobSeen && e.attempt.Commits? && e.frames.FramesFound? && e.gate.GatePasses? && e.vlm.VlmAnswers?
    ensures var missing := e.(jobSeen := false, attempt := Transient);
            ExecLocal(scale, max, Local(None, 0, Idle), [e, e, e, e, missing, e]) == Local(Some(Succeeded), 1, Done(OFailed))
  {
    var missing := e.(jobSeen := false, attempt := Transient);
    var l0 := Local(None, 0, Idle);
    var l1 := Local(Some(Running), 0, SelectFrames);
    var l4 := Local(Some(Running), 0, Publish(1, false));
    var l5 := Local(Some(Running), 0, Publish(2, true));
    assert UnitStep(scale, max, l0, e) == l1;
    assert UnitStep(scale, max, l1.(pc := RunGate), e) == l1.(pc := CallVlm) && UnitStep(scale, max, l1.(pc := CallVlm), e) == l4;
    assert UnitStep(scale, max, l4, missing) == l5;
    calc {
      ExecLocal(scale, max, l0, [e, e, e, e, missing, e]);
      ExecLocal(scale, max, l1, [e, e, e, missing, e]);
      ExecLocal(scale, max, l1.(pc := RunGate), [e, e, missing, e]);
      ExecLocal(scale, max, l1.(pc := CallVlm), [e, missing, e]);
      ExecLocal(scale, max, l4, [missing, e]);
      ExecLocal(scale, max, l5, [e]);
      ExecLocal(scale, max, Local(Some(Succeeded), 1, Done(OFailed)), []);
    }
  }

  // ---- the thread pool is equivalent to running units one by one -------------------

  /** The environments unit `k` met, in its own order. */
  function Project(evs: seq<Event>, k: Key): seq<Env> {
    if evs == [] then []
    else (if evs[0].Act? && evs[0].key == k then [evs[0].env] else []) + Project(evs[1..], k)
  }

  function ExecLocal(scale: Scale, max: nat, l: Local, es: seq<Env>): Local
    decreases |es|
  {
    if es == [] then l else ExecLocal(scale, max, UnitStep(scale, max, l, es[0]), es[1..])
  }

  /** However the pool interleaves its threads, each unit ends exactly where it would
      have ended running alone against the same environments. */
  lemma {:induction false} InterleavingIrrelevant(max: nat, s: Units, evs: seq<Event>, k: Key)
    requires k in s && forall i :: 0 <= i < |evs| ==> evs[i].Act?
    ensures k in Exec(max, s, evs)
    ensures Exec(max, s, evs)[k] == ExecLocal(k.scale, max, s[k], Project(evs, k))
    decreases |evs|
  {
    if evs != [] {
      InterleavingIrrelevant(max, Apply(max, s, evs[0]), evs[1..], k);
      var rest := Project(evs[1..], k);
      if evs[0].key == k {
        assert Project(evs, k) == [evs[0].env] + rest;
        assert Project(evs, k)[1..] == rest;
      } else {
        assert Project(evs, k) == rest;
      }
    }
  }

  /** One unit run to its end against an endless supply of environments. */
  function RunAlone(scale: Scale, max: nat, l: Local, env: nat -> Env, i: nat): (r: Local)
    ensures Halted(r.pc) && (!l.pc.Off? ==> r.pc.Done?)
    decreases Fuel(max, l.pc)
  {
    if Halted(l.pc) then l
    else
      StepProgress(scale, max, l, env(i));
      RunAlone(scale, max, UnitStep(scale, max, l, env(i)), env, i + 1)
  }

  /** A thread that has halted stood where `RunAlone` ends on the same environments. */
  lemma {:induction false} AloneMatchesSteps(scale: Scale, max: nat, l: Local, es: seq<Env>, env: nat -> Env, i: nat)
    requires forall j :: 0 <= j < |es| ==> env(i + j) == es[j]
    requires Halted(ExecLocal(scale, max, l, es).pc)
    ensures RunAlone(scale, max, l, env, i) == ExecLocal(scale, max, l, es)
    decreases |es|
  {
    if es == [] {
    } else if Halted(l.pc) {
      HaltedStays(scale, max, l, es);
    } else {
      assert env(i + 0) == es[0];
      assert forall j :: 0 <= j < |es[1..]| ==> env(i + 1 + j) == es[1..][j] by {
        forall j | 0 <= j < |es[1..]| ensures env(i + 1 + j) == es[1..][j] {
          assert env(i + (j + 1)) == es[j + 1];
        }
      }
      AloneMatchesSteps(scale, max, UnitStep(scale, max, l, es[0]), es[1..], env, i + 1);
    }
  }

  /** The environments each unit met, continued in any way. */
  function EnvOf(evs: seq<Event>): Key -> nat -> Env {
    (k: Key) => (i: nat) =>
      if i < |Project(evs, k)| then Project(evs, k)[i] else Env(true, Commits, FramesFound, GatePasses, VlmAnswers)
  }

  /** A unit that halted in an interleaved run ended where it would have ended alone. */
  lemma FinishedPool(max: nat, s: Units, evs: seq<Event>, k: Key)
    requires k in s && forall i :: 0 <= i < |evs| ==> evs[i].Act?
    requires k in Exec(max, s, evs) && Halted(Exec(max, s, evs)[k].pc)
    ensures Exec(max, s, evs)[k] == RunAlone(k.scale, max, s[k], EnvOf(evs)(k), 0)
  {
    InterleavingIrrelevant(max, s, evs, k);
    AloneMatchesSteps(k.scale, max, s[k], Project(evs, k), EnvOf(evs)(k), 0);
  }

  lemma {:induction false} HaltedStays(scale: Scale, max: nat, l: Local, es: seq<Env>)
    requires Halted(l.pc)
    ensures ExecLocal(scale, max, l, es) == l
  {
    if es != [] {
      HaltedStays(scale, max, l, es[1..]);
    }
  }

  lemma {:induction false} RunAloneKeepsInv(scale: Scale, max: nat, l: Local, env: nat -> Env, i: nat)
    requires LocalInv(l)
    ensures LocalInv(RunAlone(scale, max, l, env, i))
    decreases Fuel(max, l.pc)
  {
    if !Halted(l.pc) {
      StepProgress(scale, max, l, env(i));
      StepKeepsLocalInv(scale, max, l, env(i));
      RunAloneKeepsInv(scale, max, UnitStep(scale, max, l, env(i)), env, i + 1);
    }
  }

  /** Alone, with the job row in place and nothing finished beforehand, a unit reports
      exactly what it stored. */
  lemma {:induction false} RunAloneTruthful(scale: Scale, max: nat, l: Local, env: nat -> Env, i: nat)
    requires LocalInv(l) && Truthful(l)
    requires l.pc.Idle? ==> l.row != Some(Succeeded) && l.row != Some(Skipped)
    requires l.pc.Publish? ==> !l.pc.missed
    requires forall j: nat :: env(j).jobSeen
    ensures Truthful(RunAlone(scale, max, l, env, i))
    decreases Fuel(max, l.pc)
  {
    if !Halted(l.pc) {
      StepProgress(scale, max, l, env(i));
      StepKeepsLocalInv(scale, max, l, env(i));
      StepTruth(scale, max, l, env(i));
      RunAloneTruthful(scale, max, UnitStep(scale, max, l, env(i)), env, i + 1);
    }
  }
}
