/** Bounded retries: the VLM call with its two budgets, and the terminal database write. */
module Retry {
  import opened Statuses
  import opened Arith
  import opened UnitProtocol

  datatype Policy = Policy(maxAttempts: int, backoffBaseMs: int, backoffCapMs: int, jitter: real,
                           schemaBudget: int, schemaBackoffMs: int)

  /** `RetryPolicy.__post_init__`. */
  predicate ValidPolicy(p: Policy) {
    && p.maxAttempts >= 1 && p.schemaBudget >= 0
    && p.backoffBaseMs >= 0 && p.backoffCapMs >= 0 && p.schemaBackoffMs >= 0
    && 0.0 <= p.jitter <= 1.0
  }

  /** Stands for a validated observation. */
  type Output = int

  /** A raised error may count against either budget, both or none. */
  datatype AttemptError = AttemptError(transient: bool, schema: bool)

  datatype Reply = Answer(value: Output) | Error(error: AttemptError)

  datatype AttemptRecord = AttemptRecord(attempt: nat, succeeded: bool, transient: bool, backoffMs: Option<real>)

  datatype RetryResult = RetryResult(output: Option<Output>, error: Option<AttemptError>, attempts: nat, details: seq<AttemptRecord>)

  /** `x` doubled `n` times. */
  function Doubled(x: nat, n: nat): nat {
    if n == 0 then x else 2 * Doubled(x, n - 1)
  }

  /** A delay stretched by the jitter sample `draw`, never negative. */
  function Jittered(raw: real, jitter: real, draw: real, cap: real): (ms: real)
    requires 0.0 <= raw <= cap && jitter >= 0.0 && -jitter <= draw <= jitter
    ensures 0.0 <= ms <= cap * (1.0 + jitter)
  {
    ProductLe(raw, cap, 1.0 + draw, 1.0 + jitter);
    ProductLe(raw, cap, 1.0, 1.0 + jitter);
    if jitter <= 0.0 then MaxR(0.0, raw) else MaxR(0.0, raw * (1.0 + draw))
  }

  /** Exponential backoff: at most the capped delay stretched by the jitter. */
  function ComputeBackoff(attempt: int, baseMs: int, capMs: int, jitter: real, draw: real): (ms: real)
    requires capMs >= 0 && jitter >= 0.0 && -jitter <= draw <= jitter
    ensures 0.0 <= ms <= capMs as real * (1.0 + jitter)
  {
    ProductLe(0.0, capMs as real, 0.0, 1.0 + jitter);
    if baseMs <= 0 then 0.0
    else Jittered(MinR(Doubled(baseMs, Max(0, attempt - 1)) as real, capMs as real), jitter, draw, capMs as real)
  }

  /** Without jitter the first delay is the base, and each further one doubles until the cap. */
  lemma BackoffDoubles(attempt: int, baseMs: int, capMs: int)
    requires attempt >= 1 && baseMs > 0 && capMs >= 0
    ensures ComputeBackoff(1, baseMs, capMs, 0.0, 0.0) == MinR(baseMs as real, capMs as real)
    ensures ComputeBackoff(attempt + 1, baseMs, capMs, 0.0, 0.0)
         == MinR(2.0 * ComputeBackoff(attempt, baseMs, capMs, 0.0, 0.0), capMs as real)
  {
    assert Doubled(baseMs, attempt) == 2 * Doubled(baseMs, attempt - 1);
  }

  /** With jitter the delay is the jitter-free one times a factor between 1 - jitter and 1 + jitter. */
  lemma BackoffIsScaled(attempt: int, baseMs: int, capMs: int, jitter: real, draw: real)
    requires capMs >= 0 && 0.0 <= jitter <= 1.0 && -jitter <= draw <= jitter
    ensures ComputeBackoff(attempt, baseMs, capMs, jitter, draw) == ComputeBackoff(attempt, baseMs, capMs, 0.0, 0.0) * (1.0 + draw)
  {
  }

  // ---- histories of attempts ------------------------------------------------------------

  /** One attempt: its reply and mode, and the failure counts once it is over. */
  datatype Step = Step(reply: Reply, strict: bool, provider: nat, schema: nat)

  predicate TransientError(r: Reply) {
    r.Error? && r.error.transient
  }

  predicate SchemaError(r: Reply) {
    r.Error? && r.error.schema
  }

  /** The counts before attempt `i` (from 0). */
  function Before(h: seq<Step>, i: nat): Step
    requires i <= |h|
  {
    if i == 0 then Step(Answer(0), false, 0, 0) else h[i - 1]
  }

  /** Attempt `i` is strict exactly when a schema failure was counted before it, gets the
      reply for its number and mode, and counts its own failure. */
  predicate StepOk(reply: (nat, bool) -> Reply, prev: Step, i: nat, s: Step) {
    && s.strict == (prev.schema > 0)
    && s.reply == reply(i, s.strict)
    && s.provider == prev.provider + (if TransientError(s.reply) then 1 else 0)
    && s.schema == prev.schema + (if SchemaError(s.reply) then 1 else 0)
  }

  predicate StepAt(reply: (nat, bool) -> Reply, h: seq<Step>, i: nat) {
    i < |h| ==> StepOk(reply, Before(h, i), i, h[i])
  }

  ghost predicate History(reply: (nat, bool) -> Reply, h: seq<Step>) {
    forall i: nat :: StepAt(reply, h, i)
  }

  predicate ByProvider(p: Policy, s: Step) {
    TransientError(s.reply) && s.provider < p.maxAttempts
  }

  /** The attempt failed with budget left. */
  predicate Retried(p: Policy, s: Step) {
    ByProvider(p, s) || (SchemaError(s.reply) && s.schema <= p.schemaBudget)
  }

  ghost predicate AllRetried(p: Policy, h: seq<Step>) {
    forall i :: 0 <= i < |h| ==> Retried(p, h[i])
  }

  /** Strict mode is on exactly after the first schema failure. */
  lemma {:induction false} StrictAfterFirstSchemaFailure(reply: (nat, bool) -> Reply, h: seq<Step>, i: nat)
    requires History(reply, h) && i < |h|
    ensures h[i].strict <==> exists j :: 0 <= j < i && SchemaError(h[j].reply)
  {
    if i > 0 {
      StrictAfterFirstSchemaFailure(reply, h, i - 1);
      assert StepAt(reply, h, i) && StepAt(reply, h, i - 1);
    } else {
      assert StepAt(reply, h, 0);
    }
  }

  /** The delay after each attempt under a policy and a stream of jitter samples. */
  function Pace(p: Policy, draw: nat -> real, i: nat, s: Step): Option<real>
    requires ValidPolicy(p) && ValidDraws(p, draw)
  {
    if s.reply.Answer? then None else BackoffFor(p, s.reply.error, s.provider, s.schema, draw(i + 1))
  }

  /** The audit entry of an attempt. */
  function RecordOf(pace: (nat, Step) -> Option<real>, i: nat, s: Step): AttemptRecord {
    AttemptRecord(i + 1, s.reply.Answer?, TransientError(s.reply), pace(i, s))
  }

  ghost predicate ValidDraws(p: Policy, draw: nat -> real) {
    forall i: nat :: -p.jitter <= draw(i) <= p.jitter
  }

  function SleepOf(r: AttemptRecord): real {
    if r.backoffMs.Some? && r.backoffMs.value > 0.0 then r.backoffMs.value else 0.0
  }

  function TotalSleep(details: seq<AttemptRecord>): real {
    if details == [] then 0.0 else TotalSleep(details[..|details| - 1]) + SleepOf(details[|details| - 1])
  }

  lemma AppendSleep(details: seq<AttemptRecord>, r: AttemptRecord)
    ensures TotalSleep(details + [r]) == TotalSleep(details) + SleepOf(r)
  {
    assert (details + [r])[..|details|] == details;
  }

  /** `n` times `x`, by adding. */
  function Times(n: nat, x: real): real {
    if n == 0 then 0.0 else Times(n - 1, x) + x
  }

  function ProviderCap(p: Policy): real {
    p.backoffCapMs as real * (1.0 + p.jitter)
  }

  function SleepBound(p: Policy, providerRetries: nat, schemaRetries: nat): real {
    Times(providerRetries, ProviderCap(p)) + Times(schemaRetries, p.schemaBackoffMs as real)
  }

  lemma {:induction false} TimesIsProduct(n: nat, x: real)
    ensures Times(n, x) == n as real * x
  {
    if n > 0 {
      TimesIsProduct(n - 1, x);
      assert n as real * x == (n - 1) as real * x + x;
    }
  }

  lemma {:induction false} TimesGrows(a: nat, b: nat, x: real)
    requires a <= b && x >= 0.0
    ensures Times(a, x) <= Times(b, x)
    decreases b
  {
    if a < b {
      TimesGrows(a, b - 1, x);
    }
  }

  lemma SleepBoundGrows(p: Policy, a: nat, b: nat, a': nat, b': nat)
    requires ValidPolicy(p) && a <= a' && b <= b'
    ensures SleepBound(p, a, b) <= SleepBound(p, a', b')
  {
    ProductLe(0.0, p.backoffCapMs as real, 0.0, 1.0 + p.jitter);
    TimesGrows(a, a', ProviderCap(p));
    TimesGrows(b, b', p.schemaBackoffMs as real);
  }

  lemma ProductLe(a: real, b: real, x: real, y: real)
    requires 0.0 <= a <= b && x <= y && 0.0 <= y
    ensures a * x <= b * y
  {
    assert a * x <= a * y by { assert a * (y - x) >= 0.0; }
    assert a * y <= b * y by { assert (b - a) * y >= 0.0; }
  }

  /** The delay chosen after a failed attempt, given the updated counters. */
  function BackoffFor(p: Policy, r: AttemptError, providerFailures: nat, schemaFailures: nat, draw: real): (b: Option<real>)
    requires ValidPolicy(p) && -p.jitter <= draw <= p.jitter
    ensures b.Some? ==> 0.0 <= b.value
    ensures r.transient && providerFailures < p.maxAttempts ==> b.Some? && b.value <= ProviderCap(p)
    ensures !(r.transient && providerFailures < p.maxAttempts) && b.Some? ==>
              r.schema && schemaFailures <= p.schemaBudget && b.value == p.schemaBackoffMs as real
  {
    if r.transient && providerFailures < p.maxAttempts then
      Some(ComputeBackoff(providerFailures, p.backoffBaseMs, p.backoffCapMs, p.jitter, draw))
    else if r.schema && schemaFailures <= p.schemaBudget && p.schemaBackoffMs > 0 then Some(p.schemaBackoffMs as real)
    else None
  }

  /** One audit entry per attempt, each the record of its attempt. */
  ghost predicate Audited(pace: (nat, Step) -> Option<real>, h: seq<Step>, details: seq<AttemptRecord>) {
    |details| == |h| && forall i :: 0 <= i < |h| ==> details[i] == RecordOf(pace, i, h[i])
  }

  /** Retries so far, split by the budget that allowed each. */
  ghost predicate Split(p: Policy, h: seq<Step>, a: nat, b: nat) {
    var last := Before(h, |h|);
    a + b == |h| && a <= last.provider && a <= p.maxAttempts - 1 && b <= last.schema && b <= p.schemaBudget
  }

  lemma HistoryGrows(reply: (nat, bool) -> Reply, h: seq<Step>, s: Step)
    requires History(reply, h) && StepOk(reply, Before(h, |h|), |h|, s)
    ensures History(reply, h + [s])
  {
    forall i: nat
      ensures StepAt(reply, h + [s], i)
    {
      assert StepAt(reply, h, i);
    }
  }

  /** One call of the provider, with the counts it leaves. */
  method Attempt(reply: (nat, bool) -> Reply, i: nat, prev: Step) returns (s: Step)
    ensures StepOk(reply, prev, i, s)
  {
    var strictSchema := prev.schema > 0;
    var r := reply(i, strictSchema);
    var providerFailures, schemaFailures := prev.provider, prev.schema;
    if r.Error? {
      if r.error.transient { providerFailures := providerFailures + 1; }
      if r.error.schema { schemaFailures := schemaFailures + 1; }
    }
    s := Step(r, strictSchema, providerFailures, schemaFailures);
  }

  /** One more retried attempt keeps what the loop knows. */
  lemma RetryKeeps(p: Policy, reply: (nat, bool) -> Reply, pace: (nat, Step) -> Option<real>, h: seq<Step>, details: seq<AttemptRecord>,
                   step: Step, record: AttemptRecord, a: nat, b: nat)
    requires History(reply, h + [step]) && AllRetried(p, h) && Split(p, h, a, b) && Audited(pace, h, details)
    requires Retried(p, step) && record == RecordOf(pace, |h|, step)
    ensures AllRetried(p, h + [step]) && Audited(pace, h + [step], details + [record])
    ensures if ByProvider(p, step) then Split(p, h + [step], a + 1, b) else Split(p, h + [step], a, b + 1)
  {
    assert (h + [step])[..|h|] == h;
    SplitGrows(p, reply, h + [step], a, b);
  }

  function ResultOf(s: Step, attempts: nat, details: seq<AttemptRecord>): RetryResult {
    if s.reply.Answer? then RetryResult(Some(s.reply.value), None, attempts, details)
    else RetryResult(None, Some(s.reply.error), attempts, details)
  }

  /** The loop always returns from inside, within both budgets together: the attempts `h`
      were all retried, `last` was not and decides the result, there is one audit entry per
      attempt, and exactly the recorded delays between attempts were slept. */
  method ExecuteVlmWithRetry(p: Policy, reply: (nat, bool) -> Reply, pace: (nat, Step) -> Option<real>)
    returns (res: RetryResult, sleptMs: real, ghost h: seq<Step>, ghost last: Step, ghost pauses: seq<AttemptRecord>)
    requires ValidPolicy(p)
    ensures History(reply, h + [last]) && AllRetried(p, h) && !Retried(p, last)
    ensures 1 <= res.attempts <= p.maxAttempts + p.schemaBudget && |res.details| == res.attempts
    ensures res.output.Some? <==> res.error.None?
    ensures res == ResultOf(last, |h| + 1, pauses + [RecordOf(pace, |h|, last)])
    ensures Audited(pace, h, pauses) && sleptMs == TotalSleep(pauses)
    ensures Conducted(p, reply, RepliesOf(h + [last]))
  {
    var details: seq<AttemptRecord> := [];
    var prev := Step(Answer(0), false, 0, 0);
    var total := p.maxAttempts + p.schemaBudget;
    ghost var a, b := 0, 0;
    var attempt := 1;
    res, sleptMs, h, last, pauses := ResultOf(prev, 0, []), 0.0, [], prev, [];
    while attempt <= total
      invariant 1 <= attempt <= total + 1 && |h| == attempt - 1
      invariant History(reply, h) && AllRetried(p, h) && Split(p, h, a, b)
      invariant prev == Before(h, |h|)
      invariant Audited(pace, h, details) && sleptMs == TotalSleep(details)
      decreases total + 1 - attempt
    {
      var step := Attempt(reply, attempt - 1, prev);
      var record := RecordOf(pace, attempt - 1, step);
      HistoryGrows(reply, h, step);
      if !Retried(p, step) {
        last, pauses := step, details;
        res := ResultOf(step, attempt, details + [record]);
        LoopConducts(p, reply, h, last);
        return;
      }
      AppendSleep(details, record);
      RetryKeeps(p, reply, pace, h, details, step, record, a, b);
      sleptMs := sleptMs + SleepOf(record);
      h, details, prev := h + [step], details + [record], step;
      if ByProvider(p, step) {
        a := a + 1;
      } else {
        b := b + 1;
      }
      attempt := attempt + 1;
    }
    assert false;
  }

  /** The loop runs at the pace the policy prescribes. */
  ghost predicate Prescribed(p: Policy, draw: nat -> real, pace: (nat, Step) -> Option<real>) {
    ValidPolicy(p) && ValidDraws(p, draw) && forall i: nat, s: Step :: pace(i, s) == Pace(p, draw, i, s)
  }

  /** One pause fits into the share of the bound of the budget that allows it. */
  lemma PauseFits(p: Policy, draw: nat -> real, pace: (nat, Step) -> Option<real>, i: nat, s: Step, a: nat, b: nat)
    requires Prescribed(p, draw, pace)
    ensures var pause := SleepOf(RecordOf(pace, i, s));
            && (ByProvider(p, s) ==> SleepBound(p, a, b) + pause <= SleepBound(p, a + 1, b))
            && (!ByProvider(p, s) ==> SleepBound(p, a, b) + pause <= SleepBound(p, a, b + 1))
  {
    assert pace(i, s) == Pace(p, draw, i, s);
    ProductLe(0.0, p.backoffCapMs as real, 0.0, 1.0 + p.jitter);
  }

  lemma {:induction false} SleepOfRetries(p: Policy, reply: (nat, bool) -> Reply, draw: nat -> real,
                                          pace: (nat, Step) -> Option<real>, h: seq<Step>, details: seq<AttemptRecord>)
    returns (a: nat, b: nat)
    requires Prescribed(p, draw, pace)
    requires History(reply, h) && AllRetried(p, h) && Audited(pace, h, details)
    ensures Split(p, h, a, b) && TotalSleep(details) <= SleepBound(p, a, b)
  {
    if h == [] {
      a, b := 0, 0;
    } else {
      var n := |h| - 1;
      PrefixOk(reply, h);
      PrefixAudited(p, pace, h, details);
      a, b := SleepOfRetries(p, reply, draw, pace, h[..n], details[..n]);
      PauseFits(p, draw, pace, n, h[n], a, b);
      SplitGrows(p, reply, h, a, b);
      if ByProvider(p, h[n]) {
        a := a + 1;
      } else {
        b := b + 1;
      }
    }
  }

  lemma PrefixAudited(p: Policy, pace: (nat, Step) -> Option<real>, h: seq<Step>, details: seq<AttemptRecord>)
    requires h != [] && AllRetried(p, h) && Audited(pace, h, details)
    ensures var n := |h| - 1;
            && AllRetried(p, h[..n]) && Audited(pace, h[..n], details[..n])
            && Retried(p, h[n]) && details[n] == RecordOf(pace, n, h[n])
            && TotalSleep(details) == TotalSleep(details[..n]) + SleepOf(RecordOf(pace, n, h[n]))
  {
  }

  /** One more retried attempt uses up one retry of one budget. */
  lemma SplitGrows(p: Policy, reply: (nat, bool) -> Reply, h: seq<Step>, a: nat, b: nat)
    requires h != [] && History(reply, h) && Retried(p, h[|h| - 1]) && Split(p, h[..|h| - 1], a, b)
    ensures if ByProvider(p, h[|h| - 1]) then Split(p, h, a + 1, b) else Split(p, h, a, b + 1)
  {
    PrefixOk(reply, h);
    assert StepAt(reply, h, |h| - 1);
  }

  lemma PrefixOk(reply: (nat, bool) -> Reply, h: seq<Step>)
    requires h != [] && History(reply, h)
    ensures History(reply, h[..|h| - 1])
    ensures Before(h[..|h| - 1], |h| - 1) == Before(h, |h| - 1)
  {
    var init := h[..|h| - 1];
    forall i: nat
      ensures StepAt(reply, init, i)
    {
      assert StepAt(reply, h, i);
    }
  }

  /** One capped, stretched backoff per possible provider retry and one fixed backoff per
      schema retry. */
  function SleepCeiling(p: Policy): real {
    (p.maxAttempts - 1) as real * (p.backoffCapMs as real * (1.0 + p.jitter)) + p.schemaBudget as real * p.schemaBackoffMs as real
  }

  lemma CeilingIsBound(p: Policy)
    requires ValidPolicy(p)
    ensures SleepBound(p, p.maxAttempts - 1, p.schemaBudget) == SleepCeiling(p)
  {
    TimesIsProduct(p.maxAttempts - 1, ProviderCap(p));
    TimesIsProduct(p.schemaBudget, p.schemaBackoffMs as real);
  }

  /** The retries' delays stay within what the two budgets allow together. */
  lemma SleepIsBounded(p: Policy, reply: (nat, bool) -> Reply, draw: nat -> real, pace: (nat, Step) -> Option<real>,
                       h: seq<Step>, details: seq<AttemptRecord>)
    requires Prescribed(p, draw, pace) && History(reply, h) && AllRetried(p, h) && Audited(pace, h, details)
    ensures TotalSleep(details) <= SleepCeiling(p)
  {
    var a, b := SleepOfRetries(p, reply, draw, pace, h, details);
    SleepBoundGrows(p, a, b, p.maxAttempts - 1, p.schemaBudget);
    CeilingIsBound(p);
  }

  // ---- the stopping rule, on the replies alone ------------------------------------------------------

  /** The attempts up to `i` that failed transiently. */
  function TransientsUpTo(rs: seq<Reply>, i: nat): set<nat> {
    set j: nat | j <= i && j < |rs| && rs[j].Error? && rs[j].error.transient
  }

  /** The attempts up to `i` that failed on the schema. */
  function SchemasUpTo(rs: seq<Reply>, i: nat): set<nat> {
    set j: nat | j <= i && j < |rs| && rs[j].Error? && rs[j].error.schema
  }

  /** Another attempt follows attempt `i`: it failed transiently and fewer than `maxAttempts`
      attempts have, or on the schema and at most as many as the schema budget have. */
  predicate GoesOn(p: Policy, rs: seq<Reply>, i: nat)
    requires i < |rs|
  {
    rs[i].Error? &&
    ((rs[i].error.transient && |TransientsUpTo(rs, i)| < p.maxAttempts)
     || (rs[i].error.schema && |SchemasUpTo(rs, i)| <= p.schemaBudget))
  }

  predicate AskedRight(reply: (nat, bool) -> Reply, rs: seq<Reply>, i: nat)
    requires i < |rs|
  {
    rs[i] == reply(i, exists j: nat :: j < i && rs[j].Error? && rs[j].error.schema)
  }

  /** These are the replies of a call: each to a request that is strict exactly after a schema
      failure, going on after all but the last. */
  ghost predicate Conducted(p: Policy, reply: (nat, bool) -> Reply, rs: seq<Reply>) {
    && rs != [] && (forall i: nat :: i < |rs| ==> AskedRight(reply, rs, i))
    && (forall i: nat :: i < |rs| - 1 ==> GoesOn(p, rs, i)) && !GoesOn(p, rs, |rs| - 1)
  }

  function RepliesOf(h: seq<Step>): (rs: seq<Reply>)
    ensures |rs| == |h| && forall i :: 0 <= i < |rs| ==> rs[i] == h[i].reply
  {
    seq(|h|, i requires 0 <= i < |h| => h[i].reply)
  }

  /** One more number. */
  lemma OneMore(all: set<nat>, before: set<nat>, i: nat, hit: bool)
    requires i !in before && forall j :: j in all <==> j in before || (j == i && hit)
    ensures |all| == |before| + if hit then 1 else 0
  {
    assert all == before + if hit then {i} else {};
  }

  /** One more reply adds at most one failure of each kind. */
  lemma NumbersGrow(rs: seq<Reply>, i: nat)
    requires i < |rs|
    ensures |TransientsUpTo(rs, i)| == (if i > 0 then |TransientsUpTo(rs, i - 1)| else 0) + if TransientError(rs[i]) then 1 else 0
    ensures |SchemasUpTo(rs, i)| == (if i > 0 then |SchemasUpTo(rs, i - 1)| else 0) + if SchemaError(rs[i]) then 1 else 0
  {
    OneMore(TransientsUpTo(rs, i), if i > 0 then TransientsUpTo(rs, i - 1) else {}, i, TransientError(rs[i]));
    OneMore(SchemasUpTo(rs, i), if i > 0 then SchemasUpTo(rs, i - 1) else {}, i, SchemaError(rs[i]));
  }

  /** The loop's counters are the numbers of failures so far. */
  lemma {:induction false} CountersAreNumbers(reply: (nat, bool) -> Reply, h: seq<Step>, i: nat)
    requires History(reply, h) && i < |h|
    ensures h[i].provider == |TransientsUpTo(RepliesOf(h), i)| && h[i].schema == |SchemasUpTo(RepliesOf(h), i)|
  {
    assert StepAt(reply, h, i);
    NumbersGrow(RepliesOf(h), i);
    if i > 0 {
      CountersAreNumbers(reply, h, i - 1);
    }
  }

  lemma LoopConducts(p: Policy, reply: (nat, bool) -> Reply, h: seq<Step>, last: Step)
    requires History(reply, h + [last]) && AllRetried(p, h) && !Retried(p, last)
    ensures Conducted(p, reply, RepliesOf(h + [last]))
  {
    var all := h + [last];
    var rs := RepliesOf(all);
    forall i: nat | i < |rs|
      ensures AskedRight(reply, rs, i) && (GoesOn(p, rs, i) <==> Retried(p, all[i]))
    {
      CountersAreNumbers(reply, all, i);
      StrictAfterFirstSchemaFailure(reply, all, i);
      assert StepAt(reply, all, i);
    }
  }

  /** The audit trail, entry by entry: the attempt's number, whether it answered, whether its
      failure was transient, and a delay only if another attempt followed. */
  predicate EntryOf(p: Policy, rs: seq<Reply>, i: nat, entry: AttemptRecord)
    requires i < |rs|
  {
    && entry.attempt == i + 1 && entry.succeeded == rs[i].Answer?
    && entry.transient == (rs[i].Error? && rs[i].error.transient)
    && (!GoesOn(p, rs, i) ==> entry.backoffMs.None?)
  }

  /** The delay after an attempt: the exponential backoff for the number of transient failures so
      far, while those allow another attempt; else the schema backoff, if there is one. */
  lemma PauseAfter(p: Policy, reply: (nat, bool) -> Reply, draw: nat -> real, h: seq<Step>, i: nat)
    requires ValidPolicy(p) && ValidDraws(p, draw) && History(reply, h) && i < |h|
    ensures var rs := RepliesOf(h);
            Pace(p, draw, i, h[i]) ==
              if rs[i].Error? && rs[i].error.transient && |TransientsUpTo(rs, i)| < p.maxAttempts
              then Some(ComputeBackoff(|TransientsUpTo(rs, i)|, p.backoffBaseMs, p.backoffCapMs, p.jitter, draw(i + 1)))
              else if GoesOn(p, rs, i) && p.schemaBackoffMs > 0 then Some(p.schemaBackoffMs as real) else None
  {
    CountersAreNumbers(reply, h, i);
  }

  /** The delays of an audit trail, added up. */
  function BackoffSum(details: seq<AttemptRecord>): real {
    if details == [] then 0.0
    else
      var last := details[|details| - 1].backoffMs;
      BackoffSum(details[..|details| - 1]) + if last.Some? then last.value else 0.0
  }

  lemma {:induction false} SleptIsBackoffSum(details: seq<AttemptRecord>)
    requires forall i :: 0 <= i < |details| && details[i].backoffMs.Some? ==> details[i].backoffMs.value >= 0.0
    ensures TotalSleep(details) == BackoffSum(details)
  {
    if details != [] {
      SleptIsBackoffSum(details[..|details| - 1]);
    }
  }

  lemma {:induction false} LastAddsNothing(pauses: seq<AttemptRecord>, last: AttemptRecord)
    requires last.backoffMs.None?
    ensures BackoffSum(pauses + [last]) == BackoffSum(pauses)
  {
    assert (pauses + [last])[..|pauses|] == pauses;
  }

  /** The whole call with the policy's own backoff. */
  method VlmCallWithRetry(p: Policy, reply: (nat, bool) -> Reply, draw: nat -> real)
    returns (res: RetryResult, sleptMs: real, ghost rs: seq<Reply>)
    requires ValidPolicy(p) && ValidDraws(p, draw)
    ensures 1 <= res.attempts <= p.maxAttempts + p.schemaBudget && |res.details| == res.attempts
    ensures res.output.Some? <==> res.error.None?
    ensures Conducted(p, reply, rs) && res.attempts == |rs|
    ensures match rs[|rs| - 1]
            case Answer(value) => res.output == Some(value)
            case Error(error) => res.error == Some(error)
    ensures forall i: nat :: i < |rs| ==> EntryOf(p, rs, i, res.details[i])
    ensures sleptMs == BackoffSum(res.details) && sleptMs <= SleepCeiling(p)
  {
    var pace := (i: nat, s: Step) => Pace(p, draw, i, s);
    ghost var h, last, pauses;
    res, sleptMs, h, last, pauses := ExecuteVlmWithRetry(p, reply, pace);
    rs := RepliesOf(h + [last]);
    forall i: nat | i < |rs|
      ensures EntryOf(p, rs, i, res.details[i])
    {
      PauseAfter(p, reply, draw, h + [last], i);
      assert res.details[i] == RecordOf(pace, i, (h + [last])[i]);
    }
    SleptIsBackoffSum(pauses);
    assert EntryOf(p, rs, |h|, res.details[|h|]);
    LastAddsNothing(pauses, res.details[|h|]);
    PrefixOk(reply, h + [last]);
    assert (h + [last])[..|h|] == h;
    SleepIsBounded(p, reply, draw, pace, h, pauses);
  }

  /** The replies that use up both budgets: schema failures first, transient ones after. */
  function WorstReplies(p: Policy): (nat, bool) -> Reply {
    (i, strict) => Error(if i < p.schemaBudget then AttemptError(false, true) else AttemptError(true, false))
  }

  lemma {:induction false} WorstCounts(p: Policy, rs: seq<Reply>, i: nat)
    requires ValidPolicy(p) && i < |rs| && forall j: nat :: j < |rs| ==> AskedRight(WorstReplies(p), rs, j)
    ensures |SchemasUpTo(rs, i)| == Min(i + 1, p.schemaBudget) && |TransientsUpTo(rs, i)| == Max(0, i + 1 - p.schemaBudget)
  {
    assert AskedRight(WorstReplies(p), rs, i);
    NumbersGrow(rs, i);
    if i > 0 {
      WorstCounts(p, rs, i - 1);
    }
  }

  /** Each budget can be used to the full: on these replies every call makes exactly
      `maxAttempts + schemaBudget` attempts. */
  lemma BudgetsAreUsable(p: Policy, rs: seq<Reply>)
    requires ValidPolicy(p) && Conducted(p, WorstReplies(p), rs)
    ensures |rs| == p.maxAttempts + p.schemaBudget
  {
    var n := |rs| - 1;
    assert AskedRight(WorstReplies(p), rs, n);
    WorstCounts(p, rs, n);
    var end := p.maxAttempts + p.schemaBudget - 1;
    if end < n {
      assert GoesOn(p, rs, end);
      assert AskedRight(WorstReplies(p), rs, end);
      WorstCounts(p, rs, end);
    }
  }

  /** `run_db_write_with_retry`: stops at the first commit, the first permanent error, or
      the last allowed attempt, having slept 1 + 2 + ... backoffs in between. */
  method RunDbWriteWithRetry(maxAttempts: int, backoffMs: nat, attempt: nat -> Attempt)
    returns (committed: bool, tries: nat, sleptMs: nat)
    ensures maxAttempts < 1 ==> !committed && tries == 0
    ensures maxAttempts >= 1 ==> 1 <= tries <= maxAttempts && (committed <==> attempt(tries - 1).Commits?)
    ensures maxAttempts >= 1 ==> forall i :: 0 <= i < tries - 1 ==> attempt(i).Transient?
    ensures maxAttempts >= 1 && !committed ==> !Retries(tries, maxAttempts, attempt(tries - 1))
    ensures tries >= 1 ==> 2 * sleptMs == backoffMs * (tries * (tries - 1))
  {
    committed, tries, sleptMs := false, 0, 0;
    if maxAttempts < 1 { return; }
    tries := 1;
    while true
      invariant 1 <= tries <= maxAttempts
      invariant forall i :: 0 <= i < tries - 1 ==> attempt(i).Transient?
      invariant 2 * sleptMs == backoffMs * (tries * (tries - 1))
      decreases maxAttempts - tries
    {
      if attempt(tries - 1).Commits? { return true, tries, sleptMs; }
      if tries >= maxAttempts || !attempt(tries - 1).Transient? { return false, tries, sleptMs; }
      NextTriangle(backoffMs, tries);
      sleptMs := sleptMs + backoffMs * tries;
      tries := tries + 1;
    }
  }

  lemma NextTriangle(b: nat, n: nat)
    ensures b * ((n + 1) * n) == b * (n * (n - 1)) + 2 * (b * n)
  {
    assert (n + 1) * n == n * (n - 1) + 2 * n;
    assert b * (n * (n - 1) + 2 * n) == b * (n * (n - 1)) + b * (2 * n);
  }
}
