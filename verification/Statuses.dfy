/** Job and scale-task statuses, their transition tables, and the verdict rules
    that turn unit counts into a scale status and scale rows into a job status. */
module Statuses {

  datatype Option<+T> = None | Some(value: T)

  datatype JobStatus = JQueued | JRunning | JSucceeded | JPartialFailed | JFailed | JCancelled

  datatype TaskStatus = Pending | Running | Succeeded | PartialFailed | Failed | Skipped

  datatype Scale = DefaultSegment | MotionScan | HighFreqEvent | LowFreqSummary

  predicate CanTransitionJob(current: JobStatus, target: JobStatus) {
    match current
    case JQueued => target.JRunning? || target.JCancelled?
    case JRunning => target.JSucceeded? || target.JPartialFailed? || target.JFailed? || target.JCancelled?
    case JPartialFailed => target.JRunning? || target.JSucceeded?
    case JFailed => target.JRunning?
    case JSucceeded => false
    case JCancelled => false
  }

  predicate CanTransitionTask(current: TaskStatus, target: TaskStatus) {
    match current
    case Pending => target.Running? || target.Skipped?
    case Running => target.Succeeded? || target.PartialFailed? || target.Failed?
    case PartialFailed => target.Running?
    case Failed => target.Running?
    case Succeeded => false
    case Skipped => false
  }

  /** The job table, pair by pair: a job is claimed from the queue, settled from running, and may
      run again after a failure; success and cancellation are final. */
  lemma JobTable(a: JobStatus, b: JobStatus)
    ensures CanTransitionJob(a, b) <==>
              (a, b) in {(JQueued, JRunning), (JQueued, JCancelled),
                         (JRunning, JSucceeded), (JRunning, JPartialFailed), (JRunning, JFailed), (JRunning, JCancelled),
                         (JPartialFailed, JRunning), (JPartialFailed, JSucceeded), (JFailed, JRunning)}
  {
  }

  /** The task table, pair by pair: only a running task is settled, only a pending one skipped;
      success and skipping are final. */
  lemma TaskTable(a: TaskStatus, b: TaskStatus)
    ensures CanTransitionTask(a, b) <==>
              (a, b) in {(Pending, Running), (Pending, Skipped),
                         (Running, Succeeded), (Running, PartialFailed), (Running, Failed),
                         (PartialFailed, Running), (Failed, Running)}
  {
  }

  /** A transition request is honoured when it is legal or asks for the present status. */
  predicate AcceptsTask(current: TaskStatus, target: TaskStatus) {
    current == target || CanTransitionTask(current, target)
  }

  predicate AcceptsJob(current: JobStatus, target: JobStatus) {
    current == target || CanTransitionJob(current, target)
  }

  datatype ScaleRow = ScaleRow(status: TaskStatus, total: nat, succeeded: nat, failed: nat)

  predicate Terminal(s: TaskStatus) {
    !s.Pending? && !s.Running?
  }

  predicate TerminalAt(scales: map<Scale, ScaleRow>, s: Scale) {
    s in scales ==> Terminal(scales[s].status)
  }

  predicate AllTerminal(scales: map<Scale, ScaleRow>) {
    && TerminalAt(scales, DefaultSegment) && TerminalAt(scales, MotionScan)
    && TerminalAt(scales, HighFreqEvent) && TerminalAt(scales, LowFreqSummary)
  }

  lemma AllTerminalMeaning(scales: map<Scale, ScaleRow>)
    ensures AllTerminal(scales) <==> forall s :: s in scales ==> Terminal(scales[s].status)
  {
    forall s | s in scales && AllTerminal(scales)
      ensures Terminal(scales[s].status)
    {
      match s
      case DefaultSegment => assert TerminalAt(scales, DefaultSegment);
      case MotionScan => assert TerminalAt(scales, MotionScan);
      case HighFreqEvent => assert TerminalAt(scales, HighFreqEvent);
      case LowFreqSummary => assert TerminalAt(scales, LowFreqSummary);
    }
  }

  predicate Bad(s: TaskStatus) {
    s.Failed? || s.PartialFailed?
  }

  /** The status `_finalize_scale_task` asks for. */
  function ScaleVerdict(succeeded: nat, failed: nat): TaskStatus {
    if failed > 0 && succeeded > 0 then PartialFailed
    else if failed > 0 then Failed
    else Succeeded
  }

  predicate BadAt(scales: map<Scale, ScaleRow>, s: Scale) {
    s in scales && Bad(scales[s].status)
  }

  /** Some scale failed or partially failed. */
  predicate AnyBad(scales: map<Scale, ScaleRow>) {
    BadAt(scales, DefaultSegment) || BadAt(scales, MotionScan) || BadAt(scales, HighFreqEvent) || BadAt(scales, LowFreqSummary)
  }

  lemma AnyBadMeaning(scales: map<Scale, ScaleRow>)
    ensures AnyBad(scales) <==> exists s :: s in scales && Bad(scales[s].status)
  {
    forall s | s in scales && Bad(scales[s].status)
      ensures AnyBad(scales)
    {
      match s
      case DefaultSegment => assert BadAt(scales, DefaultSegment);
      case MotionScan => assert BadAt(scales, MotionScan);
      case HighFreqEvent => assert BadAt(scales, HighFreqEvent);
      case LowFreqSummary => assert BadAt(scales, LowFreqSummary);
    }
  }

  /** The job status `_reconcile_job` asks for, read off the stored scale rows alone. */
  function StoredVerdict(scales: map<Scale, ScaleRow>): JobStatus {
    if DefaultSegment in scales && scales[DefaultSegment].total > 0 && scales[DefaultSegment].succeeded == 0
    then JFailed
    else if AnyBad(scales) then JPartialFailed
    else JSucceeded
  }
}
