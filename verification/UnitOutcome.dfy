/**
  Where a unit ends. The unit's life is written here as the straight-line program that the
  source is -- claim, frames, gate, model, publish, each write retried as a whole -- and the
  step-by-step thread of `UnitProtocol` is proved to end where this program ends.
*/
module UnitOutcome {
  import opened Statuses
  import opened UnitProtocol
  import J = JobRun

  datatype Wrote = Wrote(ok: bool, next: nat)

  /** A write retried from attempt `n` on; `next` is the first environment it did not use. */
  function Write(max: nat, env: nat -> Env, i: nat, n: nat): Wrote
    decreases if n < max then max - n else 0
  {
    if max < 1 then Wrote(false, i + 1)
    else if env(i).attempt.Commits? then Wrote(true, i + 1)
    else if env(i).attempt.Transient? && n < max then Write(max, env, i + 1, n + 1)
    else Wrote(false, i + 1)
  }

  /** One of the environments from `i` up to `stop` commits, after transient refusals only. */
  ghost predicate CommitsWithin(env: nat -> Env, i: nat, stop: int) {
    exists j: nat :: i <= j < stop && env(j).attempt.Commits? && forall m: nat :: i <= m < j ==> env(m).attempt.Transient?
  }

  /** A write goes through if and only if one of its `max` attempts commits and all before it
      met a transient refusal. */
  lemma {:induction false} WriteMeaning(max: nat, env: nat -> Env, i: nat, n: nat)
    requires 1 <= n <= max
    ensures Write(max, env, i, n).ok <==> CommitsWithin(env, i, i + max - n + 1)
    decreases max - n
  {
    if env(i).attempt.Commits? {
      assert CommitsWithin(env, i, i + 1);
    } else if env(i).attempt.Transient? && n < max {
      WriteMeaning(max, env, i + 1, n + 1);
      if CommitsWithin(env, i, i + max - n + 1) {
        assert CommitsWithin(env, i + 1, i + max - n + 1);
      }
    }
  }

  // ---- the straight-line program ----------------------------------------------------------

  function Ended(published: nat, status: TaskStatus, o: Outcome): Local {
    Local(Some(status), published, Done(o))
  }

  /** The lifecycle guard: the last attempt at storing a failure. */
  function GuardEnd(max: nat, p: nat, env: nat -> Env, i: nat): Local {
    if Write(max, env, i, 1).ok then Ended(p, Failed, OFailed) else Ended(p, Running, OFailed)
  }

  /** A failure is stored, by the guard if need be. */
  function FailEnd(max: nat, p: nat, env: nat -> Env, i: nat): Local {
    var w := Write(max, env, i, 1);
    if w.ok then Ended(p, Failed, OFailed) else GuardEnd(max, p, env, w.next)
  }

  /** The final publication, retried; `missed` once an attempt has found no job row. */
  function PublishEnd(max: nat, p: nat, env: nat -> Env, i: nat, n: nat, missed: bool): Local
    decreases if n < max then max - n else 0
  {
    var e := env(i);
    if max < 1 then GuardEnd(max, p, env, i + 1)
    else if e.attempt.Commits? then
      if !e.jobSeen then Ended(p, Running, OFailed)
      else Ended(p + 1, Succeeded, if missed then OFailed else OSucceeded)
    else if e.attempt.Transient? && n < max then PublishEnd(max, p, env, i + 1, n + 1, missed || !e.jobSeen)
    else GuardEnd(max, p, env, i + 1)
  }

  function SuppressedEnd(scale: Scale, max: nat, p: nat, env: nat -> Env, i: nat): Local {
    var w := Write(max, env, i, 1);
    if !w.ok then GuardEnd(max, p, env, w.next)
    else if scale.DefaultSegment? then Ended(p + 1, Succeeded, OSucceeded)
    else Ended(p, Skipped, OSkipped)
  }

  function ModelEnd(max: nat, p: nat, env: nat -> Env, i: nat): Local {
    match env(i).vlm
    case VlmAnswers => PublishEnd(max, p, env, i + 1, 1, false)
    case VlmFails => FailEnd(max, p, env, i + 1)
    case VlmEscapes => GuardEnd(max, p, env, i + 1)
  }

  function GateEnd(scale: Scale, max: nat, p: nat, env: nat -> Env, i: nat): Local {
    match env(i).gate
    case GatePasses => ModelEnd(max, p, env, i + 1)
    case GateSuppresses => SuppressedEnd(scale, max, p, env, i + 1)
    case GateSchemaError => FailEnd(max, p, env, i + 1)
    case GateRaises => GuardEnd(max, p, env, i + 1)
  }

  function FramesEnd(scale: Scale, max: nat, p: nat, env: nat -> Env, i: nat): Local {
    var w := Write(max, env, i + 1, 1);
    match env(i).frames
    case FramesFound => GateEnd(scale, max, p, env, i + 1)
    case FramesEmpty => if w.ok then Ended(p, Skipped, OSkipped) else FailEnd(max, p, env, w.next)
    case FramesInsufficient => if w.ok then Ended(p, Skipped, OSkipped) else GuardEnd(max, p, env, w.next)
    case FramesRaise => FailEnd(max, p, env, i + 1)
  }

  /** A dispatched unit, start to end. */
  function Script(scale: Scale, max: nat, row: Option<TaskStatus>, p: nat, env: nat -> Env): Local {
    if !env(0).jobSeen || !env(0).attempt.Commits? then Local(row, p, Done(OFailed))
    else if row == Some(Succeeded) then Local(row, p, Done(OSucceeded))
    else if row == Some(Skipped) then Local(row, p, Done(OSkipped))
    else FramesEnd(scale, max, p, env, 1)
  }

  // ---- the thread ends where the program ends -----------------------------------------------

  datatype Kind = KEmpty | KInsufficient | KFrames | KGate | KSkipGate | KDetector | KVlm | KGuard

  function PcOf(kind: Kind, n: nat): Pc {
    match kind
    case KEmpty => SkipEmpty(n)
    case KInsufficient => SkipInsufficient(n)
    case KFrames => FailFrames(n)
    case KGate => FailGate(n)
    case KSkipGate => SkipGate(n)
    case KDetector => PublishDetector(n)
    case KVlm => FailVlm(n)
    case KGuard => Guard(n)
  }

  /** The end of a write that went through. */
  function Through(kind: Kind, p: nat): Local {
    match kind
    case KEmpty => Ended(p, Skipped, OSkipped)
    case KInsufficient => Ended(p, Skipped, OSkipped)
    case KSkipGate => Ended(p, Skipped, OSkipped)
    case KDetector => Ended(p + 1, Succeeded, OSucceeded)
    case _ => Ended(p, Failed, OFailed)
  }

  /** Where a write that did not go through leads. */
  function Raised(kind: Kind): Pc {
    match kind
    case KEmpty => FailFrames(1)
    case KGuard => Done(OFailed)
    case _ => Guard(1)
  }

  /** A writing thread behaves as one retried write. */
  lemma {:induction false} WriteEnds(scale: Scale, max: nat, p: nat, env: nat -> Env, i: nat, kind: Kind, n: nat)
    ensures var l := Local(Some(Running), p, PcOf(kind, n));
            var w := Write(max, env, i, n);
            RunAlone(scale, max, l, env, i) ==
              if w.ok then Through(kind, p) else RunAlone(scale, max, l.(pc := Raised(kind)), env, w.next)
    decreases if n < max then max - n else 0
  {
    var l := Local(Some(Running), p, PcOf(kind, n));
    StepProgress(scale, max, l, env(i));
    if max >= 1 && env(i).attempt.Transient? && n < max {
      WriteEnds(scale, max, p, env, i + 1, kind, n + 1);
    }
  }

  lemma GuardEnds(scale: Scale, max: nat, p: nat, env: nat -> Env, i: nat)
    ensures RunAlone(scale, max, Local(Some(Running), p, Guard(1)), env, i) == GuardEnd(max, p, env, i)
  {
    WriteEnds(scale, max, p, env, i, KGuard, 1);
  }

  lemma FailEnds(scale: Scale, max: nat, p: nat, env: nat -> Env, i: nat, kind: Kind)
    requires kind == KFrames || kind == KGate || kind == KVlm
    ensures RunAlone(scale, max, Local(Some(Running), p, PcOf(kind, 1)), env, i) == FailEnd(max, p, env, i)
  {
    WriteEnds(scale, max, p, env, i, kind, 1);
    GuardEnds(scale, max, p, env, Write(max, env, i, 1).next);
  }

  lemma {:induction false} PublishEnds(scale: Scale, max: nat, p: nat, env: nat -> Env, i: nat, n: nat, missed: bool)
    ensures RunAlone(scale, max, Local(Some(Running), p, Publish(n, missed)), env, i) == PublishEnd(max, p, env, i, n, missed)
    decreases if n < max then max - n else 0
  {
    StepProgress(scale, max, Local(Some(Running), p, Publish(n, missed)), env(i));
    GuardEnds(scale, max, p, env, i + 1);
    if max >= 1 && env(i).attempt.Transient? && n < max {
      PublishEnds(scale, max, p, env, i + 1, n + 1, missed || !env(i).jobSeen);
    }
  }

  lemma ModelEnds(scale: Scale, max: nat, p: nat, env: nat -> Env, i: nat)
    ensures RunAlone(scale, max, Local(Some(Running), p, CallVlm), env, i) == ModelEnd(max, p, env, i)
  {
    StepProgress(scale, max, Local(Some(Running), p, CallVlm), env(i));
    match env(i).vlm
    case VlmAnswers => PublishEnds(scale, max, p, env, i + 1, 1, false);
    case VlmFails => FailEnds(scale, max, p, env, i + 1, KVlm);
    case VlmEscapes => GuardEnds(scale, max, p, env, i + 1);
  }

  lemma GateEnds(scale: Scale, max: nat, p: nat, env: nat -> Env, i: nat)
    ensures RunAlone(scale, max, Local(Some(Running), p, RunGate), env, i) == GateEnd(scale, max, p, env, i)
  {
    StepProgress(scale, max, Local(Some(Running), p, RunGate), env(i));
    match env(i).gate
    case GatePasses => ModelEnds(scale, max, p, env, i + 1);
    case GateSuppresses =>
      WriteEnds(scale, max, p, env, i + 1, if scale.DefaultSegment? then KDetector else KSkipGate, 1);
      GuardEnds(scale, max, p, env, Write(max, env, i + 1, 1).next);
    case GateSchemaError => FailEnds(scale, max, p, env, i + 1, KGate);
    case GateRaises => GuardEnds(scale, max, p, env, i + 1);
  }

  lemma FramesEnds(scale: Scale, max: nat, p: nat, env: nat -> Env, i: nat)
    ensures RunAlone(scale, max, Local(Some(Running), p, SelectFrames), env, i) == FramesEnd(scale, max, p, env, i)
  {
    StepProgress(scale, max, Local(Some(Running), p, SelectFrames), env(i));
    var next := Write(max, env, i + 1, 1).next;
    match env(i).frames
    case FramesFound => GateEnds(scale, max, p, env, i + 1);
    case FramesEmpty =>
      WriteEnds(scale, max, p, env, i + 1, KEmpty, 1);
      FailEnds(scale, max, p, env, next, KFrames);
    case FramesInsufficient =>
      WriteEnds(scale, max, p, env, i + 1, KInsufficient, 1);
      GuardEnds(scale, max, p, env, next);
    case FramesRaise => FailEnds(scale, max, p, env, i + 1, KFrames);
  }

  /** Whatever happens at every step, the thread of a dispatched unit ends where the
      straight-line program ends. */
  lemma ThreadFollowsScript(scale: Scale, max: nat, row: Option<TaskStatus>, p: nat, env: nat -> Env)
    ensures RunAlone(scale, max, Local(row, p, Idle), env, 0) == Script(scale, max, row, p, env)
  {
    StepProgress(scale, max, Local(row, p, Idle), env(0));
    FramesEnds(scale, max, p, env, 1);
  }

  // ---- where a unit ends when its writes go through -------------------------------------------

  ghost predicate AllGoesThrough(env: nat -> Env) {
    forall i: nat :: env(i).jobSeen && env(i).attempt.Commits?
  }

  /** Published: the model was asked and answered, or the gate made the call unnecessary on the
      default scale. */
  predicate Publishes(scale: Scale, frames: Frames, gate: Gate, vlm: Vlm) {
    frames.FramesFound? && ((gate.GatePasses? && vlm.VlmAnswers?) || (gate.GateSuppresses? && scale.DefaultSegment?))
  }

  /** Skipped: no or too few frames, or the gate suppressed a window of another scale. */
  predicate Skips(scale: Scale, frames: Frames, gate: Gate) {
    frames.FramesEmpty? || frames.FramesInsufficient?
    || (frames.FramesFound? && gate.GateSuppresses? && !scale.DefaultSegment?)
  }

  /** A unit whose job row is seen and whose writes commit -- dispatched for the first time, or
      left failed or running by an earlier run -- is published once and succeeds, is skipped, or
      fails, exactly as its stages decide. */
  lemma UnitEndsAsItsStagesDecide(scale: Scale, max: nat, row: Option<TaskStatus>, env: nat -> Env)
    requires max >= 1 && AllGoesThrough(env) && row != Some(Succeeded) && row != Some(Skipped)
    ensures var r := RunAlone(scale, max, Local(row, 0, Idle), env, 0);
            var frames, gate, vlm := env(1).frames, env(2).gate, env(3).vlm;
            && (r == Local(Some(Succeeded), 1, Done(OSucceeded)) <==> Publishes(scale, frames, gate, vlm))
            && (r == Local(Some(Skipped), 0, Done(OSkipped)) <==> Skips(scale, frames, gate))
            && (r == Local(Some(Failed), 0, Done(OFailed)) <==> !Publishes(scale, frames, gate, vlm) && !Skips(scale, frames, gate))
  {
    ThreadFollowsScript(scale, max, row, 0, env);
  }

  /** A unit an earlier run had finished is left as it is and reported for what it is. */
  lemma FinishedUnitIsKept(scale: Scale, max: nat, status: TaskStatus, p: nat, env: nat -> Env)
    requires status.Succeeded? || status.Skipped?
    requires env(0).jobSeen && env(0).attempt.Commits?
    ensures RunAlone(scale, max, Local(Some(status), p, Idle), env, 0)
         == Local(Some(status), p, Done(if status.Succeeded? then OSucceeded else OSkipped))
  {
    ThreadFollowsScript(scale, max, Some(status), p, env);
  }

  /** With the job row in place, an answered window is published if and only if one of the
      publication's attempts commits after transient refusals only; otherwise the unit ends
      failed, or stays running if the guard cannot write either. */
  lemma {:induction false} AnsweredUnit(max: nat, p: nat, env: nat -> Env, i: nat, n: nat)
    requires 1 <= n <= max && forall j: nat :: env(j).jobSeen
    ensures var r, w := PublishEnd(max, p, env, i, n, false), Write(max, env, i, n);
            r == if w.ok then Ended(p + 1, Succeeded, OSucceeded) else GuardEnd(max, p, env, w.next)
    decreases max - n
  {
    if env(i).attempt.Transient? && n < max {
      AnsweredUnit(max, p, env, i + 1, n + 1);
    }
  }

  /** So in a job: whatever unit of Phase 4 has its job row and its writes in place reports, and
      stores, what its stages decide. */
  lemma ReportFollowsStages(max: nat, env: Key -> nat -> Env, before: map<Key, J.UnitRow>, after: map<Key, J.UnitRow>, k: Key, o: Outcome)
    requires max >= 1 && AllGoesThrough(env(k)) && J.Ran(max, env, before, after, k, o)
    requires k in before ==> before[k].published == 0 && before[k].status != Succeeded && before[k].status != Skipped
    ensures var frames, gate, vlm := env(k)(1).frames, env(k)(2).gate, env(k)(3).vlm;
            && (o == OSucceeded <==> Publishes(k.scale, frames, gate, vlm)) && (o == OSkipped <==> Skips(k.scale, frames, gate))
            && (Publishes(k.scale, frames, gate, vlm) <==> k in after && after[k] == J.UnitRow(Succeeded, 1))
  {
    UnitEndsAsItsStagesDecide(k.scale, max, J.LocalIn(before, k).row, env(k));
  }
}
