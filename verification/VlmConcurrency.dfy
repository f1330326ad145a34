/**
  The shared VLM scheduler under concurrency. Threads run `VlmScheduler.run` (a
  semaphore, then a lock around the start-interval bookkeeping) and plain database write
  sections; the scheduler's event callbacks append timeline rows under the process-wide
  write lock. Any thread may move at any time, and the clock only moves forward.
*/
module VlmConcurrency {
  import opened Statuses
  import opened Arith
  import opened Sets

  datatype Config = Config(maxConcurrent: nat, minInterval: nat)

  predicate ValidConfig(c: Config) {
    c.maxConcurrent >= 1
  }

  /** The scheduler's event callbacks, by where they are raised. */
  datatype Point =
    | WaitStart
    | WaitFinish
    | IntervalStart(remaining: nat, since: nat)   // the wait announced when the clock read `since`
    | IntervalFinish
    | CallStart(stamp: Option<nat>)  // the recorded start this call belongs to
    | CallEnd                        // call_finish and call_fail alike

  datatype Pc =
    | Outside
    | WantWrite                      // a plain write section, waiting for the write lock
    | Writing
    | Callback(at: Point)            // about to append a timeline row
    | Recording(at: Point)           // holds the write lock while appending it
    | WantPermit
    | WantInterval
    | Measure                        // holds the interval lock, about to read the clock
    | Sleep(until: nat, late: nat)   // `late`: how long the announcing callback took
    | Stamp                          // about to record the start
    | InCall
    | Leaving

  /** A provider call: its recorded start, by position, and when it really began. */
  datatype Call = Call(stamp: Option<nat>, at: nat)

  datatype State = State(
    threads: seq<Pc>, permits: int,
    intervalOwner: Option<nat>, writeOwner: Option<nat>,
    clock: nat, last: nat,
    stamps: seq<nat>,                // recorded starts
    calls: seq<Call>)

  datatype Event =
    | Begin(t: nat)                  // the thread enters the scheduler
    | BeginWrite(t: nat)             // the thread enters a plain write section
    | Go(t: nat)                     // the thread takes its next step
    | Mute(t: nat)                   // a callback with nothing to record
    | Raise(t: nat)                  // a callback raises: everything held is released
    | Tick(d: nat)

  predicate HoldsWrite(pc: Pc) {
    pc.Writing? || pc.Recording?
  }

  predicate IntervalPoint(p: Point) {
    p.IntervalStart? || p.IntervalFinish?
  }

  predicate HoldsInterval(pc: Pc) {
    pc.Measure? || pc.Sleep? || pc.Stamp? || ((pc.Callback? || pc.Recording?) && IntervalPoint(pc.at))
  }

  predicate HoldsPermit(pc: Pc) {
    pc.WantInterval? || HoldsInterval(pc) || pc.InCall? || pc.Leaving?
    || ((pc.Callback? || pc.Recording?) && !pc.at.WaitStart?)
  }

  function After(c: Config, s: State, p: Point): Pc {
    match p
    case WaitStart => WantPermit
    case WaitFinish => if c.minInterval > 0 then WantInterval else Callback(CallStart(None))
    case IntervalStart(d, since) => Sleep(s.clock + d, Max(0, s.clock - since))
    case IntervalFinish => Stamp
    case CallStart(_) => InCall
    case CallEnd => Leaving
  }

  predicate Enabled(c: Config, s: State, ev: Event) {
    match ev
    case Tick(_) => true
    case Begin(t) => t < |s.threads| && s.threads[t].Outside?
    case BeginWrite(t) => t < |s.threads| && s.threads[t].Outside?
    case Mute(t) => t < |s.threads| && s.threads[t].Callback?
    case Raise(t) => t < |s.threads| && (s.threads[t].Callback? || s.threads[t].Recording?)
    case Go(t) =>
      t < |s.threads| &&
      match s.threads[t]
      case Outside => false
      case WantWrite => s.writeOwner.None?
      case Callback(_) => s.writeOwner.None?
      case WantPermit => s.permits > 0
      case WantInterval => s.intervalOwner.None?
      case Sleep(until, _) => s.clock >= until
      case _ => true
  }

  function At(s: State, t: nat, pc: Pc): State
    requires t < |s.threads|
  {
    s.(threads := s.threads[t := pc])
  }

  /** The callback at `p` is over; a call that starts now is noted. */
  function Past(c: Config, s: State, t: nat, p: Point): State
    requires t < |s.threads|
  {
    var s1 := At(s, t, After(c, s, p));
    if p.CallStart? then s1.(calls := s.calls + [Call(p.stamp, s.clock)]) else s1
  }

  function Released(s: State, t: nat): State
    requires t < |s.threads|
  {
    var pc := s.threads[t];
    At(s, t, Outside).(
      permits := if HoldsPermit(pc) then s.permits + 1 else s.permits,
      intervalOwner := if HoldsInterval(pc) then None else s.intervalOwner,
      writeOwner := if HoldsWrite(pc) then None else s.writeOwner)
  }

  function GoStep(c: Config, s: State, t: nat): State
    requires Enabled(c, s, Go(t))
  {
    match s.threads[t]
    case Outside => s
    case WantWrite => At(s, t, Writing).(writeOwner := Some(t))
    case Writing => At(s, t, Outside).(writeOwner := None)
    case Callback(p) => At(s, t, Recording(p)).(writeOwner := Some(t))
    case Recording(p) => Past(c, s, t, p).(writeOwner := None)
    case WantPermit => At(s, t, Callback(WaitFinish)).(permits := s.permits - 1)
    case WantInterval => At(s, t, Measure).(intervalOwner := Some(t))
    case Measure =>
      var elapsed := s.clock - s.last;
      At(s, t, if elapsed < c.minInterval then Callback(IntervalStart(Max(0, c.minInterval - elapsed), s.clock)) else Stamp)
    case Sleep(_, _) => At(s, t, Callback(IntervalFinish))
    case Stamp =>
      At(s, t, Callback(CallStart(Some(|s.stamps|)))).(last := s.clock, stamps := s.stamps + [s.clock], intervalOwner := None)
    case InCall => At(s, t, Callback(CallEnd))
    case Leaving => At(s, t, Outside).(permits := s.permits + 1)
  }

  /** One event; an event that is not enabled does nothing. */
  function Apply(c: Config, s: State, ev: Event): State {
    if !Enabled(c, s, ev) then s
    else
      match ev
      case Tick(d) => s.(clock := s.clock + d)
      case Begin(t) => At(s, t, Callback(WaitStart))
      case BeginWrite(t) => At(s, t, WantWrite)
      case Mute(t) => Past(c, s, t, s.threads[t].at)
      case Raise(t) => Released(s, t)
      case Go(t) => GoStep(c, s, t)
  }

  function Exec(c: Config, s: State, evs: seq<Event>): State
    decreases |evs|
  {
    if evs == [] then s else Exec(c, Apply(c, s, evs[0]), evs[1..])
  }

  function Initial(c: Config, n: nat, clock: nat): State {
    State(seq(n, _ => Outside), c.maxConcurrent, None, None, clock, 0, [], [])
  }

  // ---- counting threads ---------------------------------------------------------------

  function Count(ts: seq<Pc>, p: Pc -> bool): nat {
    if ts == [] then 0 else (if p(ts[0]) then 1 else 0) + Count(ts[1..], p)
  }

  lemma {:induction false} CountUpdate(ts: seq<Pc>, t: nat, pc: Pc, p: Pc -> bool)
    requires t < |ts|
    ensures Count(ts[t := pc], p) == Count(ts, p) - (if p(ts[t]) then 1 else 0) + (if p(pc) then 1 else 0)
  {
    if t == 0 {
      assert ts[t := pc][1..] == ts[1..];
    } else {
      CountUpdate(ts[1..], t - 1, pc, p);
      assert ts[t := pc][1..] == ts[1..][t - 1 := pc];
    }
  }

  lemma {:induction false} CountWeaker(ts: seq<Pc>, p: Pc -> bool, q: Pc -> bool)
    requires forall pc :: p(pc) ==> q(pc)
    ensures Count(ts, p) <= Count(ts, q)
  {
    if ts != [] {
      CountWeaker(ts[1..], p, q);
    }
  }

  lemma {:induction false} CountZero(ts: seq<Pc>, p: Pc -> bool)
    requires forall i :: 0 <= i < |ts| ==> !p(ts[i])
    ensures Count(ts, p) == 0
  {
    if ts != [] {
      CountZero(ts[1..], p);
    }
  }

  /** Past its stamp, not yet in its call. */
  predicate Stamped(pc: Pc) {
    (pc.Callback? || pc.Recording?) && pc.at.CallStart?
  }

  predicate Calling(pc: Pc) {
    pc.InCall?
  }

  // ---- the invariant -------------------------------------------------------------------

  ghost predicate LocksOk(c: Config, s: State) {
    && s.permits >= 0
    && s.permits + Count(s.threads, HoldsPermit) == c.maxConcurrent
    && (forall t :: 0 <= t < |s.threads| ==> (HoldsWrite(s.threads[t]) <==> s.writeOwner == Some(t)))
    && (forall t :: 0 <= t < |s.threads| ==> (HoldsInterval(s.threads[t]) <==> s.intervalOwner == Some(t)))
    && (s.writeOwner.Some? ==> s.writeOwner.value < |s.threads|)
    && (s.intervalOwner.Some? ==> s.intervalOwner.value < |s.threads|)
    && (c.minInterval == 0 ==> forall t :: 0 <= t < |s.threads| ==> !s.threads[t].WantInterval? && !HoldsInterval(s.threads[t]))
  }

  /** What the interval-lock holder knows about the clock. */
  predicate TimeOk(c: Config, s: State, pc: Pc) {
    match pc
    case Sleep(until, late) => until == s.last + c.minInterval + late
    case Stamp => s.clock >= s.last + c.minInterval
    case Callback(p) => PointTimeOk(c, s, p)
    case Recording(p) => PointTimeOk(c, s, p)
    case _ => true
  }

  predicate PointTimeOk(c: Config, s: State, p: Point) {
    match p
    case IntervalStart(d, since) => since + d == s.last + c.minInterval && since <= s.clock
    case IntervalFinish => s.clock >= s.last + c.minInterval
    case _ => true
  }

  ghost predicate Spaced(c: Config, stamps: seq<nat>) {
    forall i :: 0 <= i < |stamps| - 1 ==> stamps[i] + c.minInterval <= stamps[i + 1]
  }

  ghost predicate ClockOk(c: Config, s: State) {
    && s.last <= s.clock
    && (forall t :: 0 <= t < |s.threads| ==> TimeOk(c, s, s.threads[t]))
    && Spaced(c, s.stamps)
    && (s.stamps != [] ==> s.last == s.stamps[|s.stamps| - 1])
    && (c.minInterval > 0 ==> |s.calls| + Count(s.threads, Stamped) <= |s.stamps|)
  }

  ghost predicate Inv(c: Config, s: State) {
    LocksOk(c, s) && ClockOk(c, s)
  }

  lemma InitialInv(c: Config, n: nat, clock: nat)
    requires ValidConfig(c)
    ensures Inv(c, Initial(c, n, clock))
  {
    CountZero(Initial(c, n, clock).threads, HoldsPermit);
    CountZero(Initial(c, n, clock).threads, Stamped);
  }

  /** What the move of a thread from `pc` to `pc'` does to permits and locks. */
  ghost predicate Shape(c: Config, s: State, s': State, t: nat) {
    && t < |s.threads| && |s'.threads| == |s.threads|
    && s'.threads == s.threads[t := s'.threads[t]]
    && (var pc, pc' := s.threads[t], s'.threads[t];
        && s'.permits == s.permits + (if HoldsPermit(pc) then 1 else 0) - (if HoldsPermit(pc') then 1 else 0)
        && s'.permits >= 0
        && (if HoldsWrite(pc') then s'.writeOwner == Some(t) && (s.writeOwner.None? || s.writeOwner == Some(t))
            else if HoldsWrite(pc) then s'.writeOwner == None
            else s'.writeOwner == s.writeOwner)
        && (if HoldsInterval(pc') then s'.intervalOwner == Some(t) && (s.intervalOwner.None? || s.intervalOwner == Some(t))
            else if HoldsInterval(pc) then s'.intervalOwner == None
            else s'.intervalOwner == s.intervalOwner)
        && (c.minInterval == 0 ==> !pc'.WantInterval? && !HoldsInterval(pc')))
  }

  lemma StepShape(c: Config, s: State, ev: Event)
    requires LocksOk(c, s) && Enabled(c, s, ev) && !ev.Tick?
    ensures Shape(c, s, Apply(c, s, ev), ev.t)
  {
    if ev.Go? {
      GoShape(c, s, ev.t);
    } else if ev.Mute? {
      PastPc(c, s, s.threads[ev.t].at);
    }
  }

  /** What a thread holds does not change across a callback, the write lock aside. */
  lemma PastPc(c: Config, s: State, p: Point)
    requires c.minInterval == 0 ==> !IntervalPoint(p)
    ensures var pc := After(c, s, p);
            && HoldsPermit(pc) == HoldsPermit(Callback(p)) && HoldsInterval(pc) == HoldsInterval(Callback(p)) && !HoldsWrite(pc)
            && (c.minInterval == 0 ==> !pc.WantInterval? && !HoldsInterval(pc))
  {
  }

  lemma GoShape(c: Config, s: State, t: nat)
    requires LocksOk(c, s) && Enabled(c, s, Go(t))
    ensures Shape(c, s, GoStep(c, s, t), t)
  {
    if s.threads[t].Recording? {
      PastPc(c, s, s.threads[t].at);
    }
  }

  lemma ShapeKeepsLocks(c: Config, s: State, s': State, t: nat)
    requires LocksOk(c, s) && Shape(c, s, s', t)
    ensures LocksOk(c, s')
  {
    CountUpdate(s.threads, t, s'.threads[t], HoldsPermit);
    assert forall u :: 0 <= u < |s.threads| && u != t ==> s'.threads[u] == s.threads[u];
  }

  /** What such a move does to the clock bookkeeping. */
  ghost predicate TimeShape(c: Config, s: State, s': State, t: nat) {
    && t < |s.threads| && |s'.threads| == |s.threads|
    && s'.threads == s.threads[t := s'.threads[t]]
    && s'.clock == s.clock
    && (if s.threads[t].Stamp?
        then s'.last == s.clock && s'.stamps == s.stamps + [s.clock]
        else s'.last == s.last && s'.stamps == s.stamps)
    && TimeOk(c, s', s'.threads[t])
    && (var was := if Stamped(s.threads[t]) then 1 else 0;
        var now := if Stamped(s'.threads[t]) then 1 else 0;
        var stamped := if s.threads[t].Stamp? then 1 else 0;
        c.minInterval > 0 ==> |s'.calls| + now <= |s.calls| + was + stamped)
  }

  lemma StepTimeShape(c: Config, s: State, ev: Event)
    requires Inv(c, s) && Enabled(c, s, ev) && !ev.Tick?
    ensures TimeShape(c, s, Apply(c, s, ev), ev.t)
  {
    assert TimeOk(c, s, s.threads[ev.t]);
    if ev.Go? {
      GoTimeShape(c, s, ev.t);
    }
  }

  lemma GoTimeShape(c: Config, s: State, t: nat)
    requires Enabled(c, s, Go(t)) && s.last <= s.clock && TimeOk(c, s, s.threads[t])
    ensures TimeShape(c, s, GoStep(c, s, t), t)
  {
  }

  lemma ShapeKeepsClock(c: Config, s: State, s': State, t: nat)
    requires Inv(c, s) && TimeShape(c, s, s', t)
    ensures ClockOk(c, s')
  {
    CountUpdate(s.threads, t, s'.threads[t], Stamped);
    forall u | 0 <= u < |s'.threads|
      ensures TimeOk(c, s', s'.threads[u])
    {
      if u != t {
        assert s'.threads[u] == s.threads[u] && TimeOk(c, s, s.threads[u]);
        if s.threads[t].Stamp? {
          assert s.intervalOwner == Some(t);
          assert !HoldsInterval(s.threads[u]);
        }
      }
    }
    assert TimeOk(c, s, s.threads[t]);
  }

  lemma ApplyKeepsInv(c: Config, s: State, ev: Event)
    requires Inv(c, s)
    ensures Inv(c, Apply(c, s, ev))
  {
    if Enabled(c, s, ev) {
      if ev.Tick? {
        var s' := Apply(c, s, ev);
        forall u | 0 <= u < |s'.threads|
          ensures TimeOk(c, s', s'.threads[u])
        {
          assert TimeOk(c, s, s.threads[u]);
        }
      } else {
        StepShape(c, s, ev);
        ShapeKeepsLocks(c, s, Apply(c, s, ev), ev.t);
        StepTimeShape(c, s, ev);
        ShapeKeepsClock(c, s, Apply(c, s, ev), ev.t);
      }
    }
  }

  lemma {:induction false} ExecKeepsInv(c: Config, s: State, evs: seq<Event>)
    requires Inv(c, s)
    ensures Inv(c, Exec(c, s, evs))
    decreases |evs|
  {
    if evs != [] {
      ApplyKeepsInv(c, s, evs[0]);
      ExecKeepsInv(c, Apply(c, s, evs[0]), evs[1..]);
    }
  }

  // ---- mutual exclusion and permits ------------------------------------------------------

  /** In every interleaving at most `maxConcurrent` provider calls are in flight, permits
      are neither lost nor invented, and the two locks each have one holder at most. */
  lemma CallsBounded(c: Config, n: nat, clock: nat, evs: seq<Event>)
    requires ValidConfig(c)
    ensures var s := Exec(c, Initial(c, n, clock), evs);
            && Count(s.threads, Calling) <= c.maxConcurrent
            && s.permits + Count(s.threads, HoldsPermit) == c.maxConcurrent
            && (forall t, u :: 0 <= t < |s.threads| && 0 <= u < |s.threads| && HoldsWrite(s.threads[t]) && HoldsWrite(s.threads[u]) ==> t == u)
            && (forall t, u :: 0 <= t < |s.threads| && 0 <= u < |s.threads| && HoldsInterval(s.threads[t]) && HoldsInterval(s.threads[u]) ==> t == u)
  {
    var s := Exec(c, Initial(c, n, clock), evs);
    InitialInv(c, n, clock);
    ExecKeepsInv(c, Initial(c, n, clock), evs);
    CountWeaker(s.threads, Calling, HoldsPermit);
  }

  // ---- no deadlock ------------------------------------------------------------------------

  ghost predicate Idle(s: State) {
    forall t :: 0 <= t < |s.threads| ==> s.threads[t].Outside?
  }

  /** The thread can move now, or will once the clock has advanced. */
  predicate CanMove(c: Config, s: State, t: nat) {
    t < |s.threads| && !s.threads[t].Outside? && (Enabled(c, s, Go(t)) || s.threads[t].Sleep?)
  }

  lemma {:induction false} SomeHolder(ts: seq<Pc>, p: Pc -> bool) returns (t: nat)
    requires Count(ts, p) > 0
    ensures t < |ts| && p(ts[t])
  {
    if p(ts[0]) {
      t := 0;
    } else {
      t := SomeHolder(ts[1..], p);
      t := t + 1;
    }
  }

  /** No reachable state is a deadlock: unless every thread is outside, some thread inside
      can move. Following who waits for whom always leads from the semaphore to the
      interval lock to the write lock, whose holder never waits. */
  lemma NoDeadlock(c: Config, s: State) returns (t: nat)
    requires ValidConfig(c) && Inv(c, s) && !Idle(s)
    ensures CanMove(c, s, t)
  {
    if s.writeOwner.Some? {
      t := s.writeOwner.value;
    } else if s.intervalOwner.Some? {
      t := s.intervalOwner.value;
    } else if Count(s.threads, HoldsPermit) > 0 {
      t := SomeHolder(s.threads, HoldsPermit);
    } else {
      t :| 0 <= t < |s.threads| && !s.threads[t].Outside?;
    }
  }

  /** A thread waits for nothing but what others hold: it is admitted exactly while fewer than
      `maxConcurrent` threads are inside, and gets a lock exactly when no thread has it. */
  lemma WaitsOnlyForHolders(c: Config, s: State, t: nat)
    requires Inv(c, s) && t < |s.threads|
    ensures s.threads[t].WantPermit? ==> (Enabled(c, s, Go(t)) <==> Count(s.threads, HoldsPermit) < c.maxConcurrent)
    ensures s.threads[t].WantInterval? ==>
              (Enabled(c, s, Go(t)) <==> forall u :: 0 <= u < |s.threads| ==> !HoldsInterval(s.threads[u]))
    ensures s.threads[t].WantWrite? || s.threads[t].Callback? ==>
              (Enabled(c, s, Go(t)) <==> forall u :: 0 <= u < |s.threads| ==> !HoldsWrite(s.threads[u]))
  {
  }

  /** Steps a thread has left before it is outside again. */
  function Rank(pc: Pc): nat {
    match pc
    case Outside => 0
    case Writing => 1
    case WantWrite => 2
    case Leaving => 1
    case Recording(p) => PointRank(p)
    case Callback(p) => PointRank(p) + 1
    case InCall => 4
    case Stamp => 7
    case Sleep(_, _) => 10
    case Measure => 13
    case WantInterval => 14
    case WantPermit => 17
  }

  function PointRank(p: Point): nat {
    match p
    case CallEnd => 2
    case CallStart(_) => 5
    case IntervalFinish => 8
    case IntervalStart(_, _) => 11
    case WaitFinish => 15
    case WaitStart => 18
  }

  function Work(ts: seq<Pc>): nat {
    if ts == [] then 0 else Rank(ts[0]) + Work(ts[1..])
  }

  lemma {:induction false} WorkUpdate(ts: seq<Pc>, t: nat, pc: Pc)
    requires t < |ts|
    ensures Work(ts[t := pc]) == Work(ts) - Rank(ts[t]) + Rank(pc)
  {
    if t == 0 {
      assert ts[t := pc][1..] == ts[1..];
    } else {
      WorkUpdate(ts[1..], t - 1, pc);
      assert ts[t := pc][1..] == ts[1..][t - 1 := pc];
    }
  }

  /** Steps of threads already inside that actually happen in a run. */
  function Moves(c: Config, s: State, evs: seq<Event>): nat
    decreases |evs|
  {
    if evs == [] then 0
    else (if Enabled(c, s, evs[0]) && !evs[0].Tick? then 1 else 0) + Moves(c, Apply(c, s, evs[0]), evs[1..])
  }

  lemma RankDrops(c: Config, s: State, ev: Event)
    requires !ev.Begin? && !ev.BeginWrite? && !ev.Tick? && Enabled(c, s, ev)
    ensures var s' := Apply(c, s, ev);
            && |s'.threads| == |s.threads| && s'.threads == s.threads[ev.t := s'.threads[ev.t]]
            && Rank(s'.threads[ev.t]) < Rank(s.threads[ev.t])
  {
    if ev.Go? {
      GoDrops(c, s, ev.t);
    } else if ev.Mute? {
      PastDrops(c, s, ev.t, s.threads[ev.t].at);
    }
  }

  lemma PastDrops(c: Config, s: State, t: nat, p: Point)
    requires t < |s.threads|
    ensures var s' := Past(c, s, t, p);
            && |s'.threads| == |s.threads| && s'.threads == s.threads[t := s'.threads[t]]
            && Rank(s'.threads[t]) < PointRank(p)
  {
  }

  lemma GoDrops(c: Config, s: State, t: nat)
    requires Enabled(c, s, Go(t))
    ensures var s' := GoStep(c, s, t);
            && |s'.threads| == |s.threads| && s'.threads == s.threads[t := s'.threads[t]]
            && Rank(s'.threads[t]) < Rank(s.threads[t])
  {
    if s.threads[t].Recording? {
      PastDrops(c, s, t, s.threads[t].at);
    }
  }

  lemma MoveCosts(c: Config, s: State, ev: Event)
    requires !ev.Begin? && !ev.BeginWrite?
    ensures Work(Apply(c, s, ev).threads) + (if Enabled(c, s, ev) && !ev.Tick? then 1 else 0) <= Work(s.threads)
  {
    if Enabled(c, s, ev) && !ev.Tick? {
      RankDrops(c, s, ev);
      WorkUpdate(s.threads, ev.t, Apply(c, s, ev).threads[ev.t]);
    }
  }

  /** Nor can threads block one another forever: once no new work enters, every schedule
      makes at most `Work` moves in all, and by `NoDeadlock` a move exists until all
      threads are outside. */
  lemma {:induction false} Drains(c: Config, s: State, evs: seq<Event>)
    requires forall i :: 0 <= i < |evs| ==> !evs[i].Begin? && !evs[i].BeginWrite?
    ensures Moves(c, s, evs) + Work(Exec(c, s, evs).threads) <= Work(s.threads)
    decreases |evs|
  {
    if evs != [] {
      MoveCosts(c, s, evs[0]);
      Drains(c, Apply(c, s, evs[0]), evs[1..]);
    }
  }

  // ---- the start interval --------------------------------------------------------------------

  lemma {:induction false} SpacedApart(c: Config, stamps: seq<nat>, i: nat, j: nat)
    requires Spaced(c, stamps) && i <= j < |stamps|
    ensures stamps[i] + (j - i) * c.minInterval <= stamps[j]
  {
    if i < j {
      SpacedApart(c, stamps, i, j - 1);
      assert (j - i) * c.minInterval == (j - 1 - i) * c.minInterval + c.minInterval;
    }
  }

  /** Recorded starts are at least `minInterval` apart in every interleaving. */
  lemma StartsSpaced(c: Config, n: nat, clock: nat, evs: seq<Event>, i: nat, j: nat)
    requires ValidConfig(c)
    requires i <= j < |Exec(c, Initial(c, n, clock), evs).stamps|
    ensures var stamps := Exec(c, Initial(c, n, clock), evs).stamps;
            stamps[j] - stamps[i] >= (j - i) * c.minInterval
  {
    InitialInv(c, n, clock);
    ExecKeepsInv(c, Initial(c, n, clock), evs);
    SpacedApart(c, Exec(c, Initial(c, n, clock), evs).stamps, i, j);
  }

  /** And no later than they must be: in every interleaving a thread that has to wait wakes up
      exactly when the interval is over, plus the time its announcing callback took. */
  lemma WakesOnTime(c: Config, n: nat, clock: nat, evs: seq<Event>, t: nat)
    requires ValidConfig(c)
    requires var s := Exec(c, Initial(c, n, clock), evs); t < |s.threads| && s.threads[t].Sleep?
    ensures var s := Exec(c, Initial(c, n, clock), evs);
            && s.threads[t].until == s.last + c.minInterval + s.threads[t].late
            && (Enabled(c, s, Go(t)) <==> s.clock >= s.last + c.minInterval + s.threads[t].late)
  {
    InitialInv(c, n, clock);
    ExecKeepsInv(c, Initial(c, n, clock), evs);
    var s := Exec(c, Initial(c, n, clock), evs);
    assert TimeOk(c, s, s.threads[t]);
  }

  /** The recorded starts that fall into a time span. */
  function InSpan(stamps: seq<nat>, from: nat, span: nat): set<nat> {
    set i: nat | i < |stamps| && from <= stamps[i] <= from + span
  }

  /** Any time span holds at most span / minInterval + 1 recorded starts. */
  lemma StartRate(c: Config, n: nat, clock: nat, evs: seq<Event>, from: nat, span: nat)
    requires ValidConfig(c) && c.minInterval > 0
    ensures |InSpan(Exec(c, Initial(c, n, clock), evs).stamps, from, span)| <= span / c.minInterval + 1
  {
    InitialInv(c, n, clock);
    ExecKeepsInv(c, Initial(c, n, clock), evs);
    RateOf(c, Exec(c, Initial(c, n, clock), evs).stamps, from, span);
  }

  lemma RateOf(c: Config, stamps: seq<nat>, from: nat, span: nat)
    requires c.minInterval > 0 && Spaced(c, stamps)
    ensures |InSpan(stamps, from, span)| <= span / c.minInterval + 1
  {
    var hits := InSpan(stamps, from, span);
    if hits != {} {
      var lo := Least(hits);
      var hi := Greatest(hits);
      SpacedApart(c, stamps, lo, hi);
      QuotientBounds(span, c.minInterval);
      MulStep(span / c.minInterval, hi - lo, c.minInterval);
      BoundedSize(hits, lo, hi);
    }
  }

  /** Over a whole run the provider is called at most clock / minInterval + 1 times. */
  lemma CallBudget(c: Config, n: nat, clock: nat, evs: seq<Event>)
    requires ValidConfig(c) && c.minInterval > 0
    ensures var s := Exec(c, Initial(c, n, clock), evs);
            |s.calls| <= s.clock / c.minInterval + 1
  {
    var s := Exec(c, Initial(c, n, clock), evs);
    InitialInv(c, n, clock);
    ExecKeepsInv(c, Initial(c, n, clock), evs);
    if s.stamps != [] {
      SpacedApart(c, s.stamps, 0, |s.stamps| - 1);
      QuotientBounds(s.clock, c.minInterval);
      MulStep(s.clock / c.minInterval, |s.stamps| - 1, c.minInterval);
    }
  }

  // ---- the provider calls themselves ------------------------------------------------------------

  /** What ties a call, or a thread about to call, to its recorded start. */
  ghost predicate CallsOk(c: Config, s: State) {
    && (forall i :: 0 <= i < |s.stamps| ==> s.stamps[i] <= s.clock)
    && (forall p :: 0 <= p < |s.calls| ==> CallOk(c, s, s.calls[p]))
    && (forall t :: 0 <= t < |s.threads| && Stamped(s.threads[t]) ==> StampOk(c, s, s.threads[t].at.stamp))
  }

  predicate StampOk(c: Config, s: State, stamp: Option<nat>) {
    (c.minInterval > 0 ==> stamp.Some?) && (stamp.Some? ==> stamp.value < |s.stamps|)
  }

  predicate CallOk(c: Config, s: State, x: Call) {
    StampOk(c, s, x.stamp) && (x.stamp.Some? ==> s.stamps[x.stamp.value] <= x.at)
  }

  /** What a move does to the recorded starts and the calls. */
  ghost predicate CallShape(c: Config, s: State, s': State, t: nat) {
    && t < |s.threads| && |s'.threads| == |s.threads| && s'.threads == s.threads[t := s'.threads[t]] && s'.clock == s.clock
    && (s'.stamps == s.stamps || s'.stamps == s.stamps + [s.clock])
    && (s'.calls == s.calls || (Stamped(s.threads[t]) && s'.calls == s.calls + [Call(s.threads[t].at.stamp, s.clock)]))
    && (Stamped(s'.threads[t]) ==>
          || (Stamped(s.threads[t]) && s'.threads[t].at.stamp == s.threads[t].at.stamp)
          || (c.minInterval == 0 && s'.threads[t].at.stamp.None?)
          || (s'.threads[t].at.stamp == Some(|s.stamps|) && |s'.stamps| == |s.stamps| + 1))
  }

  lemma StepCallShape(c: Config, s: State, ev: Event)
    requires Enabled(c, s, ev) && !ev.Tick?
    ensures CallShape(c, s, Apply(c, s, ev), ev.t)
  {
  }

  lemma ShapeKeepsCalls(c: Config, s: State, s': State, t: nat)
    requires CallsOk(c, s) && CallShape(c, s, s', t)
    ensures CallsOk(c, s')
  {
    forall p | 0 <= p < |s'.calls|
      ensures CallOk(c, s', s'.calls[p])
    {
      assert p < |s.calls| ==> CallOk(c, s, s.calls[p]);
    }
  }

  lemma {:induction false} ExecKeepsCalls(c: Config, s: State, evs: seq<Event>)
    requires CallsOk(c, s)
    ensures CallsOk(c, Exec(c, s, evs))
    decreases |evs|
  {
    if evs != [] {
      if Enabled(c, s, evs[0]) && !evs[0].Tick? {
        StepCallShape(c, s, evs[0]);
        ShapeKeepsCalls(c, s, Apply(c, s, evs[0]), evs[0].t);
      }
      ExecKeepsCalls(c, Apply(c, s, evs[0]), evs[1..]);
    }
  }

  /** How long a call was held up between its recorded start and its beginning. */
  function Delay(s: State, x: Call): int
    requires x.stamp.Some? && x.stamp.value < |s.stamps|
  {
    x.at - s.stamps[x.stamp.value]
  }

  /** `x` was recorded before `y`. */
  predicate Earlier(s: State, x: Call, y: Call) {
    x.stamp.Some? && y.stamp.Some? && x.stamp.value < y.stamp.value < |s.stamps|
  }

  /** In every interleaving two calls are as far apart as their recorded starts, give or take
      their delays; so at least as far as the interval asks, less the delay of the first. */
  lemma CallGap(c: Config, n: nat, clock: nat, evs: seq<Event>, x: Call, y: Call)
    requires ValidConfig(c)
    requires var s := Exec(c, Initial(c, n, clock), evs); x in s.calls && y in s.calls && Earlier(s, x, y)
    ensures var s := Exec(c, Initial(c, n, clock), evs);
            var i, j := x.stamp.value, y.stamp.value;
            && y.at - x.at == s.stamps[j] - s.stamps[i] + Delay(s, y) - Delay(s, x)
            && y.at - x.at >= (j - i) * c.minInterval - Delay(s, x)
            && Delay(s, x) >= 0 && Delay(s, y) >= 0
  {
    var s := Exec(c, Initial(c, n, clock), evs);
    ExecKeepsCalls(c, Initial(c, n, clock), evs);
    StartsSpaced(c, n, clock, evs, x.stamp.value, y.stamp.value);
    assert CallOk(c, s, x) && CallOk(c, s, y);
  }

  /** Calls in the order of their recorded starts begin at least `gap` apart. */
  ghost predicate GapsAtLeast(s: State, gap: int) {
    forall x, y :: x in s.calls && y in s.calls && Earlier(s, x, y) ==> y.at - x.at >= gap
  }

  ghost predicate DelaysWithin(s: State, bound: nat) {
    forall x :: x in s.calls && x.stamp.Some? && x.stamp.value < |s.stamps| ==> Delay(s, x) <= bound
  }

  /** In a state that a run reached, the calls keep the interval if and only if no call was held
      up longer than the next one by more than the room between their recorded starts. */
  lemma SpacedExactlyWhen(c: Config, s: State)
    ensures GapsAtLeast(s, c.minInterval)
       <==> forall x, y :: x in s.calls && y in s.calls && Earlier(s, x, y) ==>
              Delay(s, x) - Delay(s, y) <= s.stamps[y.stamp.value] - s.stamps[x.stamp.value] - c.minInterval
  {
  }

  /** Every run whose calls are held up by at most `bound` keeps them `gap` apart. */
  ghost predicate Guaranteed(c: Config, bound: nat, gap: int) {
    forall n: nat, clock: nat, evs: seq<Event> ::
      DelaysWithin(Exec(c, Initial(c, n, clock), evs), bound) ==> GapsAtLeast(Exec(c, Initial(c, n, clock), evs), gap)
  }

  /** The gap that a bound on the delays guarantees is exactly the interval less the bound. */
  lemma GuaranteedGap(c: Config, bound: nat, gap: int)
    requires ValidConfig(c) && 0 < c.minInterval && bound <= c.minInterval
    ensures Guaranteed(c, bound, gap) <==> gap <= c.minInterval - bound
  {
    if gap <= c.minInterval - bound {
      forall n: nat, clock: nat, evs: seq<Event> | DelaysWithin(Exec(c, Initial(c, n, clock), evs), bound)
        ensures GapsAtLeast(Exec(c, Initial(c, n, clock), evs), gap)
      {
        EveryGap(c, n, clock, evs, bound);
      }
    } else {
      var evs := LateSchedule(c, bound);
      var s := Exec(c, Initial(c, 2, c.minInterval), evs);
      assert s.calls[0] in s.calls && s.calls[1] in s.calls && Earlier(s, s.calls[0], s.calls[1]);
      assert !GapsAtLeast(s, gap);
      assert DelaysWithin(s, bound);
    }
  }

  lemma EveryGap(c: Config, n: nat, clock: nat, evs: seq<Event>, bound: nat)
    requires ValidConfig(c) && DelaysWithin(Exec(c, Initial(c, n, clock), evs), bound)
    ensures GapsAtLeast(Exec(c, Initial(c, n, clock), evs), c.minInterval - bound)
  {
    var s := Exec(c, Initial(c, n, clock), evs);
    forall x, y | x in s.calls && y in s.calls && Earlier(s, x, y)
      ensures y.at - x.at >= c.minInterval - bound
    {
      CallGap(c, n, clock, evs, x, y);
      MulMono(1, y.stamp.value - x.stamp.value, c.minInterval);
    }
  }

  /** So the calls themselves are spaced by the interval, as the documentation has it, if and only
      if nothing ever holds a thread up between its recorded start and its call. */
  lemma SpacingNeedsNoDelay(c: Config, bound: nat)
    requires ValidConfig(c) && 0 < c.minInterval
    ensures Guaranteed(c, bound, c.minInterval) <==> bound == 0
  {
    var b := if bound <= c.minInterval then bound else c.minInterval;
    GuaranteedGap(c, b, c.minInterval);
    if Guaranteed(c, bound, c.minInterval) {
      forall n: nat, clock: nat, evs: seq<Event> | DelaysWithin(Exec(c, Initial(c, n, clock), evs), b)
        ensures GapsAtLeast(Exec(c, Initial(c, n, clock), evs), c.minInterval)
      {
        assert DelaysWithin(Exec(c, Initial(c, n, clock), evs), bound);
      }
      assert Guaranteed(c, b, c.minInterval);
    }
  }

  /** Two calls can begin at the very same instant, whatever the interval. */
  lemma CallsCanCoincide(c: Config) returns (evs: seq<Event>)
    requires ValidConfig(c) && 0 < c.minInterval
    ensures var s := Exec(c, Initial(c, 2, c.minInterval), evs);
            |s.calls| == 2 && s.calls[0].at == s.calls[1].at && Earlier(s, s.calls[0], s.calls[1])
  {
    evs := LateSchedule(c, c.minInterval);
  }

  // ---- a schedule that delays one call -----------------------------------------------------------------

  /** A thread entering with all locks free, up to the callback that announces its call. */
  function Approach(t: nat): seq<Event> {
    [Begin(t), Mute(t), Go(t), Mute(t)] + [Go(t), Go(t), Go(t)]
  }

  /** The call and the way out. */
  function Complete(t: nat): seq<Event> {
    [Mute(t), Go(t), Mute(t), Go(t)]
  }

  /** A schedule for one whole call, held up for `d` after its recorded start. */
  lemma TakesTurn(c: Config, s: State, t: nat, d: nat) returns (evs: seq<Event>)
    requires t < |s.threads| && s.threads[t].Outside? && s.permits > 0
    requires s.intervalOwner.None? && s.writeOwner.None?
    requires 0 < c.minInterval <= s.clock - s.last
    ensures Exec(c, s, evs)
         == s.(clock := s.clock + d, last := s.clock, stamps := s.stamps + [s.clock],
               calls := s.calls + [Call(Some(|s.stamps|), s.clock + d)])
  {
    var s1 := StampedBy(s, t);
    var s2 := s1.(clock := s.clock + d);
    ReachesCall(c, s, t);
    Ticks(c, s1, d);
    Completes(c, s2, t);
    assert s2.threads[t := Outside] == s.threads;
    ExecAppend(c, s, Approach(t), [Tick(d)]);
    ExecAppend(c, s, Approach(t) + [Tick(d)], Complete(t));
    evs := Approach(t) + [Tick(d)] + Complete(t);
  }

  function LateState(c: Config, d: nat): State {
    var m := c.minInterval;
    Initial(c, 2, m).(clock := 2 * m, last := 2 * m, stamps := [m, 2 * m], calls := [Call(Some(0), m + d), Call(Some(1), 2 * m)])
  }

  /** Thread 0 is held up for `d`; thread 1 starts as soon as the interval allows. */
  lemma LateSchedule(c: Config, d: nat) returns (evs: seq<Event>)
    requires ValidConfig(c) && 0 < c.minInterval && d <= c.minInterval
    ensures Exec(c, Initial(c, 2, c.minInterval), evs) == LateState(c, d)
  {
    var m := c.minInterval;
    var s0 := Initial(c, 2, m);
    var s1 := s0.(clock := m + d, last := m, stamps := [m], calls := [Call(Some(0), m + d)]);
    var s2 := s1.(clock := 2 * m);
    var first := TakesTurn(c, s0, 0, d);
    assert Exec(c, s0, first) == s1;
    Ticks(c, s1, m - d);
    var second := TakesTurn(c, s2, 1, 0);
    assert Exec(c, s2, second) == LateState(c, d);
    ExecAppend(c, s0, first, [Tick(m - d)]);
    ExecAppend(c, s0, first + [Tick(m - d)], second);
    evs := first + [Tick(m - d)] + second;
  }

  lemma Ticks(c: Config, s: State, d: nat)
    ensures Exec(c, s, [Tick(d)]) == s.(clock := s.clock + d)
  {
    assert Exec(c, s, [Tick(d)]) == Exec(c, Apply(c, s, Tick(d)), []);
  }

  function StampedBy(s: State, t: nat): State
    requires t < |s.threads|
  {
    At(s, t, Callback(CallStart(Some(|s.stamps|)))).(permits := s.permits - 1, last := s.clock, stamps := s.stamps + [s.clock])
  }

  lemma ReachesCall(c: Config, s: State, t: nat)
    requires t < |s.threads| && s.threads[t].Outside? && s.permits > 0
    requires s.intervalOwner.None? && s.writeOwner.None?
    requires 0 < c.minInterval <= s.clock - s.last
    ensures Exec(c, s, Approach(t)) == StampedBy(s, t)
  {
    var m := At(s, t, WantInterval).(permits := s.permits - 1);
    Enters(c, s, t);
    TakesStamp(c, m, t);
    ExecAppend(c, s, [Begin(t), Mute(t), Go(t), Mute(t)], [Go(t), Go(t), Go(t)]);
    assert m.threads[t := Callback(CallStart(Some(|s.stamps|)))] == s.threads[t := Callback(CallStart(Some(|s.stamps|)))];
  }

  lemma Completes(c: Config, s: State, t: nat)
    requires t < |s.threads| && Stamped(s.threads[t]) && s.threads[t].Callback?
    ensures Exec(c, s, Complete(t))
         == At(s, t, Outside).(permits := s.permits + 1, calls := s.calls + [Call(s.threads[t].at.stamp, s.clock)])
  {
    var noted := s.calls + [Call(s.threads[t].at.stamp, s.clock)];
    var s1 := At(s, t, InCall).(calls := noted);
    var s2 := At(s, t, Callback(CallEnd)).(calls := noted);
    var s3 := At(s, t, Leaving).(calls := noted);
    var s4 := At(s, t, Outside).(permits := s.permits + 1, calls := noted);
    assert Apply(c, s, Mute(t)) == s1;
    assert Apply(c, s1, Go(t)) == s2;
    assert Apply(c, s2, Mute(t)) == s3;
    assert Apply(c, s3, Go(t)) == s4;
    calc {
      Exec(c, s, Complete(t));
      Exec(c, s1, [Go(t), Mute(t), Go(t)]);
      Exec(c, s2, [Mute(t), Go(t)]);
      Exec(c, s3, [Go(t)]);
      Exec(c, s4, []);
    }
  }

  lemma Enters(c: Config, s: State, t: nat)
    requires t < |s.threads| && s.threads[t].Outside? && s.permits > 0 && c.minInterval > 0
    ensures Exec(c, s, [Begin(t), Mute(t), Go(t), Mute(t)]) == At(s, t, WantInterval).(permits := s.permits - 1)
  {
    var s1 := At(s, t, Callback(WaitStart));
    var s2 := At(s, t, WantPermit);
    var s3 := At(s, t, Callback(WaitFinish)).(permits := s.permits - 1);
    var s4 := At(s, t, WantInterval).(permits := s.permits - 1);
    assert Apply(c, s, Begin(t)) == s1;
    assert Apply(c, s1, Mute(t)) == s2;
    assert Apply(c, s2, Go(t)) == s3;
    assert Apply(c, s3, Mute(t)) == s4;
    calc {
      Exec(c, s, [Begin(t), Mute(t), Go(t), Mute(t)]);
      Exec(c, s1, [Mute(t), Go(t), Mute(t)]);
      Exec(c, s2, [Go(t), Mute(t)]);
      Exec(c, s3, [Mute(t)]);
      Exec(c, s4, []);
    }
  }

  lemma TakesStamp(c: Config, s: State, t: nat)
    requires t < |s.threads| && s.threads[t].WantInterval? && s.intervalOwner.None?
    requires c.minInterval <= s.clock - s.last
    ensures Exec(c, s, [Go(t), Go(t), Go(t)]) == At(s, t, Callback(CallStart(Some(|s.stamps|)))).(last := s.clock, stamps := s.stamps + [s.clock])
  {
    var s1 := At(s, t, Measure).(intervalOwner := Some(t));
    var s2 := At(s, t, Stamp).(intervalOwner := Some(t));
    var s3 := At(s, t, Callback(CallStart(Some(|s.stamps|)))).(last := s.clock, stamps := s.stamps + [s.clock]);
    assert Apply(c, s, Go(t)) == s1;
    assert Apply(c, s1, Go(t)) == s2;
    assert Apply(c, s2, Go(t)) == s3;
    calc {
      Exec(c, s, [Go(t), Go(t), Go(t)]);
      Exec(c, s1, [Go(t), Go(t)]);
      Exec(c, s2, [Go(t)]);
      Exec(c, s3, []);
    }
  }

  // ---- the earliest recorded start ------------------------------------------------------------------

  /** When a thread that takes the interval lock now may record its start. */
  function DueAt(c: Config, s: State): int {
    Max(s.clock, s.last + c.minInterval)
  }

  /** The thread took the lock, found the interval not yet over, and announced its wait. */
  lemma GoesToSleep(c: Config, s: State, t: nat)
    requires t < |s.threads| && s.threads[t].WantInterval? && s.intervalOwner.None?
    requires s.last <= s.clock < s.last + c.minInterval
    ensures Exec(c, s, [Go(t), Go(t), Mute(t)]) == At(s, t, Sleep(s.last + c.minInterval, 0)).(intervalOwner := Some(t))
  {
    var remaining := s.last + c.minInterval - s.clock;
    var s1 := At(s, t, Measure).(intervalOwner := Some(t));
    var s2 := At(s, t, Callback(IntervalStart(remaining, s.clock))).(intervalOwner := Some(t));
    var s3 := At(s, t, Sleep(s.last + c.minInterval, 0)).(intervalOwner := Some(t));
    assert Apply(c, s, Go(t)) == s1;
    assert Apply(c, s1, Go(t)) == s2;
    assert Apply(c, s2, Mute(t)) == s3;
    calc {
      Exec(c, s, [Go(t), Go(t), Mute(t)]);
      Exec(c, s1, [Go(t), Mute(t)]);
      Exec(c, s2, [Mute(t)]);
      Exec(c, s3, []);
    }
  }

  /** A sleeping thread that is woken on time records its start right then. */
  lemma WakesAndStamps(c: Config, s: State, t: nat)
    requires t < |s.threads| && s.threads[t].Sleep? && s.clock >= s.threads[t].until
    ensures Exec(c, s, [Go(t), Mute(t), Go(t)])
         == At(s, t, Callback(CallStart(Some(|s.stamps|)))).(last := s.clock, stamps := s.stamps + [s.clock], intervalOwner := None)
  {
    var s1 := At(s, t, Callback(IntervalFinish));
    var s2 := At(s, t, Stamp);
    var s3 := At(s, t, Callback(CallStart(Some(|s.stamps|)))).(last := s.clock, stamps := s.stamps + [s.clock], intervalOwner := None);
    assert Apply(c, s, Go(t)) == s1;
    assert Apply(c, s1, Mute(t)) == s2;
    assert Apply(c, s2, Go(t)) == s3;
    calc {
      Exec(c, s, [Go(t), Mute(t), Go(t)]);
      Exec(c, s1, [Mute(t), Go(t)]);
      Exec(c, s2, [Go(t)]);
      Exec(c, s3, []);
    }
  }

  /** For every time elapsed since the last start, a thread that finds the interval lock free and
      is not held up records its start at the first moment the interval allows, and no thread
      could before. */
  lemma StartsWhenDue(c: Config, s: State, t: nat) returns (evs: seq<Event>)
    requires Inv(c, s) && t < |s.threads| && s.threads[t].WantInterval? && s.intervalOwner.None?
    ensures var s' := Exec(c, s, evs);
            && s'.stamps == s.stamps + [DueAt(c, s)] && s'.clock == DueAt(c, s)
            && s'.threads == s.threads[t := Callback(CallStart(Some(|s.stamps|)))]
  {
    if s.clock >= s.last + c.minInterval {
      evs := [Go(t), Go(t), Go(t)];
      TakesStamp(c, s, t);
    } else {
      var s1 := At(s, t, Sleep(s.last + c.minInterval, 0)).(intervalOwner := Some(t));
      var d := s.last + c.minInterval - s.clock;
      var s2 := s1.(clock := s.clock + d);
      GoesToSleep(c, s, t);
      Ticks(c, s1, d);
      WakesAndStamps(c, s2, t);
      ExecAppend(c, s, [Go(t), Go(t), Mute(t)], [Tick(d)]);
      ExecAppend(c, s, [Go(t), Go(t), Mute(t)] + [Tick(d)], [Go(t), Mute(t), Go(t)]);
      evs := [Go(t), Go(t), Mute(t)] + [Tick(d)] + [Go(t), Mute(t), Go(t)];
    }
  }

  lemma {:induction false} ExecAppend(c: Config, s: State, a: seq<Event>, b: seq<Event>)
    ensures Exec(c, s, a + b) == Exec(c, Exec(c, s, a), b)
    decreases |a|
  {
    if a == [] {
      assert a + b == b;
    } else {
      assert (a + b)[1..] == a[1..] + b;
      ExecAppend(c, Apply(c, s, a[0]), a[1..], b);
    }
  }
}
