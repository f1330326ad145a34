/** Search contexts and their revisions: starting a search, refining it, reranking it. */
module SearchRevisions {
  import opened Statuses
  import opened Arith
  import opened Orders
  import opened Sets
  import opened Ranking

  // ---- prefixes and suffixes as the language slices them ----------------------------------------

  /** Where `s[:n]` ends in a list of the given length; negative bounds count from the end. */
  function CutAt(length: nat, n: int): (k: nat)
    ensures k <= length
  {
    if n >= 0 then Min(n, length) else Max(0, length + n)
  }

  function UpTo<T>(s: seq<T>, n: int): seq<T> { s[..CutAt(|s|, n)] }

  function From<T>(s: seq<T>, n: int): seq<T> { s[CutAt(|s|, n)..] }

  // ---- the cross-encoder ------------------------------------------------------------------------------

  /** `_apply_cross_encoder`: `scores` is the reranker's answer, or nothing when it failed. */
  function CrossEncode(ranked: seq<string>, applies: bool, topN: int, scores: Option<map<string, real>>): seq<string> {
    if !applies || ranked == [] || scores.None? then ranked
    else SortBy(UpTo(ranked, topN), Ranking.ByScore(scores.value)) + From(ranked, topN)
  }

  /** The head is permuted and ordered by the reranker's scores, the tail does not move, and
      nothing is lost or added. */
  lemma CrossEncoderPermutesHead(ranked: seq<string>, applies: bool, topN: int, scores: Option<map<string, real>>)
    ensures var r := CrossEncode(ranked, applies, topN, scores);
            && |r| == |ranked| && multiset(r) == multiset(ranked)
            && From(r, topN) == From(ranked, topN) && multiset(UpTo(r, topN)) == multiset(UpTo(ranked, topN))
            && (applies && scores.Some? ==> SortedBy(UpTo(r, topN), Ranking.ByScore(scores.value)) || ranked == [])
  {
    var r := CrossEncode(ranked, applies, topN, scores);
    if applies && ranked != [] && scores.Some? {
      var head, tail := UpTo(ranked, topN), From(ranked, topN);
      var sorted := SortBy(head, Ranking.ByScore(scores.value));
      PrecedesIsOrder(scores.value);
      SortBySorts(head, Ranking.ByScore(scores.value));
      assert ranked == head + tail;
      assert UpTo(r, topN) == sorted && From(r, topN) == tail;
    }
  }

  // ---- refine operations ---------------------------------------------------------------------------------

  datatype RefineOp =
    | NarrowByTags(tags: set<string>)
    | SearchStaticText
    | SearchDynamicText
    | HybridSearchText
    | FilterByAnalysisScale(scales: set<string>)
    | RerankCurrentCandidates
    | ApplyRrfFusion

  predicate Keeps(op: RefineOp, r: Record) {
    match op
    case NarrowByTags(tags) => tags <= r.tags
    case FilterByAnalysisScale(scales) => scales == {} || r.scale in scales
    case _ => true
  }

  function Narrowed(op: RefineOp, records: seq<Record>): (r: seq<Record>)
    ensures forall x :: x in r <==> x in records && Keeps(op, x)
  {
    if records == [] then []
    else
      var n := |records| - 1;
      assert records == records[..n] + [records[n]];
      Narrowed(op, records[..n]) + if Keeps(op, records[n]) then [records[n]] else []
  }

  function ModeOf(op: RefineOp): SearchMode {
    match op
    case SearchStaticText => StaticAttribute
    case SearchDynamicText => DynamicEvent
    case _ => Hybrid
  }

  /** Narrowing by tags ignores the query text. */
  predicate Asks(op: RefineOp, hasQuery: bool) {
    !op.NarrowByTags? && hasQuery
  }

  /** The text index, the vectors and the boosts answer for the candidates only. */
  function Restricted(q: Relevance, ids: set<string>): Relevance {
    q.(staticText := map id | id in q.staticText && id in ids :: q.staticText[id],
       dynamicText := map id | id in q.dynamicText && id in ids :: q.dynamicText[id])
  }

  datatype Config = Config(maxTopK: nat, maxCandidates: nat, maxRevisions: int, ttl: int, idle: int, weights: Weights,
                           vectorEnabled: bool, rerankEnabled: bool, rerankTopN: int)

  /** What the world answers during one call: the records the caller may see, the indexes'
      view of the query, the reranker's scores. */
  datatype World = World(visible: seq<Record>, q: Relevance, rerank: Option<map<string, real>>)

  /** `r` is the fused order of the records; the indexes answered for these records only. */
  ghost predicate IsRanking(records: seq<Record>, hasQuery: bool, mode: SearchMode, wantVector: bool, q: Relevance, w: Weights, r: seq<string>) {
    if records == [] then r == []
    else if !hasQuery then IsOrderOf(FusedByTime(Earliness(records), w), r)
    else IsOrderOf(Fused(Members(IdsOf(records)), Active(Restricted(q, Members(IdsOf(records))), mode, wantVector), w), r)
  }

  /** Ranking never leaves the records it was given and never repeats one. */
  lemma RankingStays(records: seq<Record>, hasQuery: bool, mode: SearchMode, wantVector: bool, q: Relevance, w: Weights, r: seq<string>)
    requires IsRanking(records, hasQuery, mode, wantVector, q, w, r)
    ensures Members(r) <= Members(IdsOf(records)) && Distinct(r)
  {
    if records != [] && hasQuery {
      var ids := Members(IdsOf(records));
      StaysWithinCandidates(ids, Active(Restricted(q, ids), mode, wantVector), w, r);
    }
  }

  method RankWithin(records: seq<Record>, hasQuery: bool, mode: SearchMode, wantVector: bool, q: Relevance, w: Weights)
    returns (r: seq<string>)
    ensures IsRanking(records, hasQuery, mode, wantVector, q, w, r)
  {
    var idSet := set id | id in IdsOf(records);
    assert idSet == Members(IdsOf(records));
    r := Rank(records, hasQuery, mode, wantVector, Restricted(q, idSet), w);
  }

  /** The refined order: the remaining records ranked, and reranked if that was asked for. */
  ghost predicate IsRefinement(cfg: Config, op: RefineOp, records: seq<Record>, hasQuery: bool, world: World, r: seq<string>) {
    exists ranked ::
      && IsRanking(Narrowed(op, records), Asks(op, hasQuery), ModeOf(op), cfg.vectorEnabled,
                   world.q, cfg.weights, ranked)
      && r == if op.RerankCurrentCandidates?
              then CrossEncode(ranked, cfg.rerankEnabled && hasQuery, cfg.rerankTopN, world.rerank) else ranked
  }

  /** A refinement only ever narrows. */
  lemma RefinementNarrows(cfg: Config, op: RefineOp, records: seq<Record>, hasQuery: bool, world: World, r: seq<string>)
    requires IsRefinement(cfg, op, records, hasQuery, world, r)
    ensures Members(r) <= Members(IdsOf(Narrowed(op, records))) && Distinct(r)
  {
    var query := Asks(op, hasQuery);
    var applies := cfg.rerankEnabled && hasQuery;
    var ranked :| IsRanking(Narrowed(op, records), query, ModeOf(op), cfg.vectorEnabled, world.q, cfg.weights, ranked)
               && r == if op.RerankCurrentCandidates? then CrossEncode(ranked, applies, cfg.rerankTopN, world.rerank) else ranked;
    RankingStays(Narrowed(op, records), query, ModeOf(op), cfg.vectorEnabled, world.q, cfg.weights, ranked);
    CrossEncoderPermutesHead(ranked, applies, cfg.rerankTopN, world.rerank);
    SameMembers(ranked, r);
    DistinctPermuted(ranked, r);
  }

  /** `_apply_refine_op`. */
  method ApplyRefineOp(cfg: Config, op: RefineOp, records: seq<Record>, hasQuery: bool, world: World) returns (r: seq<string>)
    ensures IsRefinement(cfg, op, records, hasQuery, world, r)
  {
    r := RankWithin(Narrowed(op, records), Asks(op, hasQuery), ModeOf(op), cfg.vectorEnabled,
                    world.q, cfg.weights);
    if op.RerankCurrentCandidates? {
      r := CrossEncode(r, cfg.rerankEnabled && hasQuery, cfg.rerankTopN, world.rerank);
    }
  }

  // ---- contexts and revisions ------------------------------------------------------------------------------

  datatype Candidate = Candidate(id: string, rank: nat)

  datatype Revision = Revision(context: nat, parent: Option<nat>, candidates: seq<Candidate>)

  datatype ContextStatus = Live | Closed | Expired

  datatype Context = Context(principal: nat, scopeHash: nat, status: ContextStatus, defaultRevision: Option<nat>,
                             lastAccess: int, expiresAt: int)

  datatype Scope = Scope(principal: nat, scopeHash: nat, maySearch: bool)

  datatype Request = Request(base: nat, op: RefineOp, hasQuery: bool, topK: Option<int>)

  datatype Outcome = Done(context: nat, revision: nat) | CapabilityDenied | LimitExceeded | NotFound | ContextExpired

  function Listing(ids: seq<string>): (cs: seq<Candidate>)
    ensures |cs| == |ids| && forall i :: 0 <= i < |cs| ==> cs[i] == Candidate(ids[i], i + 1)
  {
    seq(|ids|, i requires 0 <= i < |ids| => Candidate(ids[i], i + 1))
  }

  function CandidateIds(cs: seq<Candidate>): (ids: seq<string>)
    ensures |ids| == |cs| && forall i :: 0 <= i < |ids| ==> ids[i] == cs[i].id
  {
    seq(|cs|, i requires 0 <= i < |cs| => cs[i].id)
  }

  ghost function IdSet(r: Revision): set<string> {
    Members(CandidateIds(r.candidates))
  }

  function CountFor(revisions: seq<Revision>, c: nat): nat {
    if revisions == [] then 0
    else
      var n := |revisions| - 1;
      CountFor(revisions[..n], c) + if revisions[n].context == c then 1 else 0
  }

  /** Candidates are numbered from one without gaps, distinct, few enough and authorised. */
  ghost predicate CandidatesOk(cfg: Config, cs: seq<Candidate>, allowed: set<string>) {
    && |cs| <= cfg.maxTopK
    && (forall j :: 0 <= j < |cs| ==> cs[j].rank == j + 1)
    && Distinct(CandidateIds(cs)) && Members(CandidateIds(cs)) <= allowed
  }

  /** A revision's candidates are among its parent's, in the same context. */
  ghost predicate Narrows(revisions: seq<Revision>, i: nat)
    requires i < |revisions|
  {
    var r := revisions[i];
    r.parent.Some? ==>
      && r.parent.value < i && revisions[r.parent.value].context == r.context
      && IdSet(r) <= IdSet(revisions[r.parent.value])
  }

  ghost predicate RevisionOk(cfg: Config, contexts: nat, revisions: seq<Revision>, allowed: seq<set<string>>, i: nat)
    requires i < |revisions| && |allowed| == |revisions|
  {
    revisions[i].context < contexts && CandidatesOk(cfg, revisions[i].candidates, allowed[i]) && Narrows(revisions, i)
  }

  ghost predicate WithinLimit(cfg: Config, revisions: seq<Revision>, c: nat) {
    CountFor(revisions, c) <= Max(1, cfg.maxRevisions)
  }

  /** What holds of the stored contexts and revisions between any two calls; `allowed` is the
      set of ids the caller was authorised to see when the revision was made. */
  ghost predicate StoreOk(cfg: Config, contexts: nat, revisions: seq<Revision>, allowed: seq<set<string>>) {
    && |allowed| == |revisions|
    && (forall i: nat :: i < |revisions| ==> RevisionOk(cfg, contexts, revisions, allowed, i))
    && (forall c: nat :: c < contexts ==> WithinLimit(cfg, revisions, c))
  }

  lemma CountAppend(revisions: seq<Revision>, r: Revision, c: nat)
    ensures CountFor(revisions + [r], c) == CountFor(revisions, c) + if r.context == c then 1 else 0
  {
    assert (revisions + [r])[..|revisions|] == revisions;
  }

  lemma {:induction false} NoneYet(revisions: seq<Revision>, c: nat)
    requires forall i :: 0 <= i < |revisions| ==> revisions[i].context < c
    ensures CountFor(revisions, c) == 0
  {
    if revisions != [] {
      NoneYet(revisions[..|revisions| - 1], c);
    }
  }

  lemma AppendKeepsRevision(cfg: Config, contexts: nat, more: nat, revisions: seq<Revision>, allowed: seq<set<string>>,
                            r: Revision, ids: set<string>, i: nat)
    requires |allowed| == |revisions| && i < |revisions| && RevisionOk(cfg, contexts, revisions, allowed, i) && contexts <= more
    ensures RevisionOk(cfg, more, revisions + [r], allowed + [ids], i)
  {
  }

  /** Adding one revision keeps the store in order. */
  lemma AddRevision(cfg: Config, contexts: nat, more: nat, revisions: seq<Revision>, allowed: seq<set<string>>, r: Revision, ids: set<string>)
    requires StoreOk(cfg, contexts, revisions, allowed) && contexts <= more && r.context < more
    requires CandidatesOk(cfg, r.candidates, ids) && Narrows(revisions + [r], |revisions|)
    requires forall c: nat :: c < more ==> WithinLimit(cfg, revisions, c)
    requires CountFor(revisions, r.context) < Max(1, cfg.maxRevisions)
    ensures StoreOk(cfg, more, revisions + [r], allowed + [ids])
  {
    var longer, longerAllowed := revisions + [r], allowed + [ids];
    forall i: nat | i < |longer|
      ensures RevisionOk(cfg, more, longer, longerAllowed, i)
    {
      if i < |revisions| {
        AppendKeepsRevision(cfg, contexts, more, revisions, allowed, r, ids, i);
      }
    }
    forall c: nat | c < more
      ensures WithinLimit(cfg, longer, c)
    {
      assert WithinLimit(cfg, revisions, c);
      CountAppend(revisions, r, c);
    }
  }

  /** The first ids of a list of authorised ids make good candidates. */
  lemma ListingOk(cfg: Config, ordered: seq<string>, k: int, allowed: set<string>)
    requires Distinct(ordered) && Members(ordered) <= allowed
    requires CutAt(|ordered|, k) <= cfg.maxTopK
    ensures CandidatesOk(cfg, Listing(UpTo(ordered, k)), allowed)
    ensures CandidateIds(Listing(UpTo(ordered, k))) == UpTo(ordered, k)
    ensures Members(UpTo(ordered, k)) <= Members(ordered)
  {
    var cut := UpTo(ordered, k);
    assert CandidateIds(Listing(cut)) == cut;
    assert Distinct(cut);
  }

  // ---- what a chain of refinements guarantees ---------------------------------------------------------------

  /** The revision `steps` parents up. */
  function Ancestor(revisions: seq<Revision>, i: nat, steps: nat): Option<nat>
    decreases steps
  {
    if i >= |revisions| then None
    else if steps == 0 then Some(i)
    else if revisions[i].parent.None? then None
    else Ancestor(revisions, revisions[i].parent.value, steps - 1)
  }

  /** Refining never widens: whatever a revision holds, every ancestor holds, and it was
      authorised for both when each was made. */
  lemma {:induction false} NeverWidens(cfg: Config, contexts: nat, revisions: seq<Revision>, allowed: seq<set<string>>, i: nat, steps: nat)
    requires StoreOk(cfg, contexts, revisions, allowed) && i < |revisions|
    ensures var a := Ancestor(revisions, i, steps);
            a.Some? ==>
              && a.value < |revisions| && revisions[a.value].context == revisions[i].context
              && IdSet(revisions[i]) <= IdSet(revisions[a.value]) && IdSet(revisions[i]) <= allowed[a.value]
    decreases steps
  {
    assert RevisionOk(cfg, contexts, revisions, allowed, i);
    if steps > 0 && revisions[i].parent.Some? {
      NeverWidens(cfg, contexts, revisions, allowed, revisions[i].parent.value, steps - 1);
    }
  }

  // ---- the service ------------------------------------------------------------------------------------------

  predicate PastItsTime(x: Context, now: int) {
    x.status.Live? && x.expiresAt < now
  }

  /** Live contexts past their time become expired. */
  function ExpireAll(contexts: seq<Context>, now: int): (r: seq<Context>)
    ensures |r| == |contexts|
  {
    seq(|contexts|, i requires 0 <= i < |contexts| =>
      if PastItsTime(contexts[i], now) then contexts[i].(status := Expired) else contexts[i])
  }

  predicate Owned(contexts: seq<Context>, c: nat, scope: Scope) {
    c < |contexts| && contexts[c].principal == scope.principal
  }

  /** The context may be used: same scope as when it was made, not closed, within its time to
      live, and not idle for too long. */
  predicate Usable(cfg: Config, x: Context, scope: Scope, now: int) {
    x.scopeHash == scope.scopeHash && x.status.Live? && now <= x.expiresAt && now <= x.lastAccess + cfg.idle
  }

  /** Why a context cannot be used, if it cannot. */
  function Refusal(cfg: Config, contexts: seq<Context>, c: nat, scope: Scope, now: int): Option<Outcome> {
    if !Owned(contexts, c, scope) then Some(NotFound)
    else if !Usable(cfg, contexts[c], scope, now) then Some(ContextExpired)
    else None
  }

  /** Sweeping away contexts past their time is invisible to callers: from then on every call is
      answered as it would have been without the sweep. */
  lemma SweepIsInvisible(cfg: Config, contexts: seq<Context>, swept: int, c: nat, scope: Scope, now: int)
    requires swept <= now
    ensures Refusal(cfg, ExpireAll(contexts, swept), c, scope, now) == Refusal(cfg, contexts, c, scope, now)
  {
  }

  ghost predicate StatusesKept(before: seq<Context>, after: seq<Context>) {
    |before| <= |after| && forall i :: 0 <= i < |before| ==> after[i].status == before[i].status
  }

  function ByIds(visible: seq<Record>, ids: set<string>): (r: seq<Record>)
    ensures forall x :: x in r <==> x in visible && x.id in ids
  {
    if visible == [] then []
    else
      var n := |visible| - 1;
      assert visible == visible[..n] + [visible[n]];
      ByIds(visible[..n], ids) + if visible[n].id in ids then [visible[n]] else []
  }

  /** The base revision's candidates, fetched again under the caller's scope. */
  function Reloaded(cfg: Config, base: Revision, world: World): seq<Record> {
    var ids := CandidateIds(UpTo(base.candidates, cfg.maxCandidates));
    ByIds(world.visible, set id | id in ids)
  }

  function TopK(cfg: Config, topK: Option<int>): int {
    Min(if topK.Some? then topK.value else cfg.maxTopK, cfg.maxTopK)
  }

  class SearchService {
    const cfg: Config
    var contexts: seq<Context>
    var revisions: seq<Revision>
    ghost var allowed: seq<set<string>>

    ghost predicate Valid()
      reads this
    {
      StoreOk(cfg, |contexts|, revisions, allowed)
    }

    constructor (cfg: Config)
      ensures this.cfg == cfg && contexts == [] && revisions == [] && Valid()
    {
      this.cfg := cfg;
      contexts, revisions, allowed := [], [], [];
    }

    /** Appends an immutable revision and makes it the context's default. */
    method PersistRevision(c: nat, parent: Option<nat>, ids: seq<string>, now: int, ghost permitted: set<string>)
      requires c < |contexts|
      modifies this
      ensures contexts == old(contexts)[c := old(contexts)[c].(defaultRevision := Some(|old(revisions)|), lastAccess := now)]
      ensures revisions == old(revisions) + [Revision(c, parent, Listing(ids))]
      ensures allowed == old(allowed) + [permitted]
    {
      contexts := contexts[c := contexts[c].(defaultRevision := Some(|revisions|), lastAccess := now)];
      revisions, allowed := revisions + [Revision(c, parent, Listing(ids))], allowed + [permitted];
    }

    /** `start_search`: a new context with one revision of at most `topK` visible records. */
    method StartSearch(scope: Scope, hasQuery: bool, mode: SearchMode, topK: nat, now: int, world: World)
      returns (out: Outcome, ghost ordered: seq<string>)
      requires Valid()
      modifies this
      ensures Valid()
      ensures !scope.maySearch ==> out == CapabilityDenied
      ensures scope.maySearch && topK > cfg.maxTopK ==> out == LimitExceeded
      ensures !out.Done? ==> contexts == old(contexts) && revisions == old(revisions)
      ensures StatusesKept(old(contexts), contexts)
      ensures scope.maySearch && topK <= cfg.maxTopK ==>
                && out == Done(|old(contexts)|, |old(revisions)|)
                && contexts == old(contexts)
                     + [Context(scope.principal, scope.scopeHash, Live, Some(|old(revisions)|), now, now + cfg.ttl)]
                && |revisions| == |old(revisions)| + 1 && revisions[..|old(revisions)|] == old(revisions)
                && var r := revisions[|old(revisions)|];
                   && r == Revision(|old(contexts)|, None, Listing(UpTo(ordered, topK)))
                   && IsRanking(world.visible, hasQuery, mode, cfg.vectorEnabled, world.q, cfg.weights, ordered)
                   && IdSet(r) <= Members(IdsOf(world.visible))
    {
      ordered := [];
      if !scope.maySearch {
        out := CapabilityDenied;
        return;
      }
      if topK > cfg.maxTopK {
        out := LimitExceeded;
        return;
      }
      var ranked := RankWithin(world.visible, hasQuery, mode, cfg.vectorEnabled, world.q, cfg.weights);
      ordered := ranked;
      RankingStays(world.visible, hasQuery, mode, cfg.vectorEnabled, world.q, cfg.weights, ranked);
      var ids := UpTo(ranked, topK);
      var c := |contexts|;
      ghost var permitted := Members(IdsOf(world.visible));
      ListingOk(cfg, ordered, topK, permitted);
      NewContext(cfg, c, revisions, allowed, Revision(c, None, Listing(ids)), permitted);
      contexts := contexts + [Context(scope.principal, scope.scopeHash, Live, None, now, now + cfg.ttl)];
      out := Done(c, |revisions|);
      PersistRevision(c, None, ids, now, permitted);
    }

    /** `_active_context`, inside the caller's session: what it stores before it raises is rolled
        back with the session. */
    method ActiveContext(c: nat, scope: Scope, now: int) returns (refusal: Option<Outcome>)
      modifies this`contexts
      ensures refusal == Refusal(cfg, old(contexts), c, scope, now)
      ensures refusal.None? ==> contexts == old(contexts)
    {
      if c >= |contexts| || contexts[c].principal != scope.principal { return Some(NotFound); }
      if contexts[c].scopeHash != scope.scopeHash {
        contexts := contexts[c := contexts[c].(status := Closed)];
        return Some(ContextExpired);
      }
      if !contexts[c].status.Live? { return Some(ContextExpired); }
      if now > contexts[c].expiresAt || now > contexts[c].lastAccess + cfg.idle {
        contexts := ExpireAll(contexts, now);
        return Some(ContextExpired);
      }
      refusal := None;
    }

    /** `refine_search` as one session: one more revision, narrower than its base and authorised
        now; or a refusal that leaves everything as it was. */
    method RefineSearch(c: nat, req: Request, scope: Scope, now: int, world: World)
      returns (out: Outcome, ghost ordered: seq<string>)
      requires Valid()
      modifies this
      ensures Valid()
      ensures out == RefineOutcome(cfg, old(contexts), old(revisions), c, req, scope, now)
      ensures !out.Done? ==> contexts == old(contexts) && revisions == old(revisions) && allowed == old(allowed)
      ensures out.Done? ==>
                && |revisions| == |old(revisions)| + 1 && revisions[..|old(revisions)|] == old(revisions)
                && contexts == old(contexts)[c := old(contexts)[c].(defaultRevision := Some(out.revision), lastAccess := now)]
                && var r := revisions[|old(revisions)|];
                   && r == Revision(c, Some(req.base), Listing(UpTo(ordered, TopK(cfg, req.topK))))
                   && IsRefinement(cfg, req.op, Reloaded(cfg, old(revisions)[req.base], world), req.hasQuery, world, ordered)
                   && IdSet(r) <= IdSet(old(revisions)[req.base]) * Members(IdsOf(world.visible))
    {
      ordered := [];
      out := CapabilityDenied;
      if !scope.maySearch { return; }
      var before := contexts;
      var refusal := ActiveContext(c, scope, now);
      if refusal.Some? {
        contexts := before;  // the session rolls back
        out := refusal.value;
        return;
      }
      out := NotFound;
      if req.base >= |revisions| || revisions[req.base].context != c { return; }
      var refined := Refined(req, world);
      ordered := refined;
      var k := TopK(cfg, req.topK);
      var count := CountFor(revisions, c);
      out := LimitExceeded;
      if count >= cfg.maxRevisions { return; }
      ghost var permitted := Members(IdsOf(world.visible));
      AddRefinement(cfg, |contexts|, revisions, allowed, c, req.base, refined, k, permitted);
      out := Done(c, |revisions|);
      PersistRevision(c, Some(req.base), UpTo(refined, k), now, permitted);
    }

    /** The base revision's candidates that are still authorised, refined. */
    method Refined(req: Request, world: World) returns (ordered: seq<string>)
      requires req.base < |revisions|
      ensures IsRefinement(cfg, req.op, Reloaded(cfg, revisions[req.base], world), req.hasQuery, world, ordered)
      ensures Distinct(ordered) && Members(ordered) <= IdSet(revisions[req.base]) * Members(IdsOf(world.visible))
    {
      var records := Reloaded(cfg, revisions[req.base], world);
      ordered := ApplyRefineOp(cfg, req.op, records, req.hasQuery, world);
      RefinementNarrows(cfg, req.op, records, req.hasQuery, world, ordered);
      ReloadedIds(cfg, revisions[req.base], world, Narrowed(req.op, records));
    }

    /** `batch_refine_search` as one session: all refinements are stored, in input order, or the
        first one that is refused undoes the others. Which of the two, and why, follows from the
        stored state alone. */
    method BatchRefine(c: nat, reqs: seq<Request>, scope: Scope, now: int, worlds: seq<World>) returns (out: BatchOutcome)
      requires Valid() && |worlds| == |reqs|
      modifies this
      ensures Valid()
      ensures out.BatchDone? ==> |out.outs| == |reqs|
      ensures out.BatchRefused? || BatchSoFar(Stored(cfg, old(contexts), old(revisions)), contexts, revisions, c, reqs, scope, now, out.outs)
      ensures out.BatchRefused? ==> contexts == old(contexts) && revisions == old(revisions)
      ensures out.BatchDone? || RefusedAt(Stored(cfg, old(contexts), old(revisions)), c, reqs, scope, now, out.at, out.why)
    {
      var before, kept := contexts, revisions;
      ghost var permitted := allowed;
      ghost var at := Stored(cfg, contexts, revisions);
      var outs := [];
      while |outs| < |reqs|
        invariant |outs| <= |reqs| && Valid()
        invariant BatchSoFar(at, contexts, revisions, c, reqs, scope, now, outs)
        decreases |reqs| - |outs|
      {
        BatchStep(at, contexts, revisions, c, reqs, scope, now, outs);
        ghost var had, were := contexts, revisions;
        var next;
        ghost var ordered;
        next, ordered := RefineSearch(c, reqs[|outs|], scope, now, worlds[|outs|]);
        if !next.Done? {
          contexts, revisions, allowed := before, kept, permitted;  // the session rolls back
          return BatchRefused(|outs|, next);
        }
        BatchGrows(at, had, were, contexts, revisions, c, reqs, scope, now, outs, next);
        outs := outs + [next];
      }
      out := BatchDone(outs);
    }

    /** `close_context`: only the owner closes a context. */
    method CloseContext(c: nat, scope: Scope) returns (ok: bool)
      requires Valid()
      modifies this`contexts
      ensures Valid() && ok == Owned(old(contexts), c, scope)
      ensures contexts == if ok then old(contexts)[c := old(contexts)[c].(status := Closed)] else old(contexts)
    {
      ok := c < |contexts| && contexts[c].principal == scope.principal;
      if ok {
        contexts := contexts[c := contexts[c].(status := Closed)];
      }
    }

    /** `sweep_contexts`: the one call that stores an expiry. */
    method SweepContexts(now: int) returns (expired: nat)
      requires Valid()
      modifies this`contexts
      ensures Valid() && contexts == ExpireAll(old(contexts), now)
      ensures expired == |set i | 0 <= i < |old(contexts)| && PastItsTime(old(contexts)[i], now)|
    {
      expired := 0;
      var before := contexts;
      var i := 0;
      ghost var hit: set<int> := {};
      while i < |before|
        invariant 0 <= i <= |before| && |contexts| == |before|
        invariant forall j :: 0 <= j < |before| ==> contexts[j] == if j < i then ExpireAll(before, now)[j] else before[j]
        invariant hit == set j | 0 <= j < i && PastItsTime(before[j], now)
        invariant expired == |hit|
      {
        if before[i].status.Live? && before[i].expiresAt < now {
          contexts := contexts[i := contexts[i].(status := Expired)];
          expired := expired + 1;
          hit := hit + {i};
        }
        i := i + 1;
      }
    }
  }

  // ---- batches -----------------------------------------------------------------------------------------

  datatype BatchOutcome = BatchDone(outs: seq<Outcome>) | BatchRefused(at: nat, why: Outcome)

  /** The contexts after `i` refinements of a batch. */
  function BatchContexts(contexts: seq<Context>, revisions: nat, c: nat, now: int, i: nat): (r: seq<Context>)
    ensures |r| == |contexts|
  {
    if i == 0 || c >= |contexts| then contexts
    else contexts[c := contexts[c].(defaultRevision := Some(revisions + i - 1), lastAccess := now)]
  }

  /** The stored state a batch starts from. */
  datatype Stored = Stored(cfg: Config, contexts: seq<Context>, revisions: seq<Revision>)

  /** `i` revisions were appended, each a child of the base its request names. */
  ghost predicate BatchStored(c: nat, reqs: seq<Request>, before: seq<Revision>, after: seq<Revision>, i: nat) {
    && i <= |reqs| && |after| == |before| + i && after[..|before|] == before
    && CountFor(after, c) == CountFor(before, c) + i
    && forall p :: |before| <= p < |after| ==> after[p].context == c && after[p].parent == Some(reqs[p - |before|].base)
  }

  /** The first requests all went through, as the stored state says they would. */
  ghost predicate BatchSoFar(at: Stored, contexts: seq<Context>, revisions: seq<Revision>, c: nat, reqs: seq<Request>, scope: Scope,
                             now: int, outs: seq<Outcome>) {
    && BatchStored(c, reqs, at.revisions, revisions, |outs|)
    && contexts == BatchContexts(at.contexts, |at.revisions|, c, now, |outs|)
    && forall j: nat :: j < |outs| ==>
         outs[j] == Done(c, |at.revisions| + j) && outs[j] == StepOutcome(at, c, reqs[j], scope, now, j)
  }

  /** Request `i` is the first the stored state refuses, for this reason. */
  ghost predicate RefusedAt(at: Stored, c: nat, reqs: seq<Request>, scope: Scope, now: int, i: nat, why: Outcome) {
    && i < |reqs| && !why.Done? && why == StepOutcome(at, c, reqs[i], scope, now, i)
    && forall j: nat :: j < i ==> StepOutcome(at, c, reqs[j], scope, now, j).Done?
  }

  lemma StoredGrows(c: nat, reqs: seq<Request>, before: seq<Revision>, were: seq<Revision>, after: seq<Revision>, i: nat)
    requires BatchStored(c, reqs, before, were, i) && i < |reqs|
    requires |after| == |were| + 1 && after[..|were|] == were
    requires after[|were|].context == c && after[|were|].parent == Some(reqs[i].base)
    ensures BatchStored(c, reqs, before, after, i + 1)
  {
    assert after == were + [after[|were|]];
    CountAppend(were, after[|were|], c);
    assert after[..|before|] == were[..|before|];
  }

  lemma BatchGrows(at: Stored, had: seq<Context>, were: seq<Revision>, contexts: seq<Context>, revisions: seq<Revision>, c: nat,
                   reqs: seq<Request>, scope: Scope, now: int, outs: seq<Outcome>, next: Outcome)
    requires |outs| < |reqs| && BatchSoFar(at, had, were, c, reqs, scope, now, outs)
    requires next == StepOutcome(at, c, reqs[|outs|], scope, now, |outs|) && next == Done(c, |were|) && c < |had|
    requires |revisions| == |were| + 1 && revisions[..|were|] == were
    requires revisions[|were|].context == c && revisions[|were|].parent == Some(reqs[|outs|].base)
    requires contexts == had[c := had[c].(defaultRevision := Some(|were|), lastAccess := now)]
    ensures BatchSoFar(at, contexts, revisions, c, reqs, scope, now, outs + [next])
  {
    StoredGrows(c, reqs, at.revisions, were, revisions, |outs|);
  }

  /** The answer to request `i` of a batch whose earlier requests all went through: the context
      was just used, the earlier refinements count and can serve as bases. */
  function StepOutcome(at: Stored, c: nat, req: Request, scope: Scope, now: int, i: nat): Outcome {
    if i == 0 then RefineOutcome(at.cfg, at.contexts, at.revisions, c, req, scope, now)
    else if at.cfg.idle < 0 then ContextExpired
    else if req.base >= |at.revisions| + i || (req.base < |at.revisions| && at.revisions[req.base].context != c) then NotFound
    else if CountFor(at.revisions, c) + i >= at.cfg.maxRevisions then LimitExceeded
    else Done(c, |at.revisions| + i)
  }

  lemma BatchStep(at: Stored, contexts: seq<Context>, revisions: seq<Revision>, c: nat, reqs: seq<Request>, scope: Scope, now: int,
                  outs: seq<Outcome>)
    requires |outs| < |reqs| && BatchSoFar(at, contexts, revisions, c, reqs, scope, now, outs)
    ensures RefineOutcome(at.cfg, contexts, revisions, c, reqs[|outs|], scope, now) == StepOutcome(at, c, reqs[|outs|], scope, now, |outs|)
  {
    if |outs| > 0 {
      assert outs[0] == StepOutcome(at, c, reqs[0], scope, now, 0);
      var base, n := reqs[|outs|].base, |at.revisions|;
      if base < n {
        assert revisions[base] == revisions[..n][base];
      }
    }
  }

  /** What a refinement answers, from the stored state alone. */
  function RefineOutcome(cfg: Config, contexts: seq<Context>, revisions: seq<Revision>, c: nat, req: Request, scope: Scope, now: int): Outcome {
    if !scope.maySearch then CapabilityDenied
    else
      var refusal := Refusal(cfg, contexts, c, scope, now);
      if refusal.Some? then refusal.value
      else if req.base >= |revisions| || revisions[req.base].context != c then NotFound
      else if CountFor(revisions, c) >= cfg.maxRevisions then LimitExceeded
      else Done(c, |revisions|)
  }

  lemma NewContext(cfg: Config, c: nat, revisions: seq<Revision>, allowed: seq<set<string>>, r: Revision, ids: set<string>)
    requires StoreOk(cfg, c, revisions, allowed) && r.context == c && r.parent.None? && CandidatesOk(cfg, r.candidates, ids)
    ensures StoreOk(cfg, c + 1, revisions + [r], allowed + [ids])
  {
    forall i: nat | i < |revisions|
      ensures revisions[i].context < c
    {
      assert RevisionOk(cfg, c, revisions, allowed, i);
    }
    NoneYet(revisions, c);
    AddRevision(cfg, c, c + 1, revisions, allowed, r, ids);
  }

  lemma ReloadedIds(cfg: Config, base: Revision, world: World, records: seq<Record>)
    requires forall x :: x in records ==> x in Reloaded(cfg, base, world)
    ensures Members(IdsOf(records)) <= IdSet(base) * Members(IdsOf(world.visible))
  {
    forall id | id in IdsOf(records)
      ensures id in IdSet(base) && id in IdsOf(world.visible)
    {
      var i :| 0 <= i < |records| && records[i].id == id;
      assert records[i] in records && records[i] in world.visible;
      var j :| 0 <= j < |world.visible| && world.visible[j] == records[i];
      assert IdsOf(world.visible)[j] == id;
      var cut := CandidateIds(UpTo(base.candidates, cfg.maxCandidates));
      assert id in cut;
      var k :| 0 <= k < |cut| && cut[k] == id;
      assert CandidateIds(base.candidates)[k] == id;
    }
  }

  /** A refinement of a revision of the context is a good next revision. */
  lemma AddRefinement(cfg: Config, contexts: nat, revisions: seq<Revision>, allowed: seq<set<string>>, c: nat, base: nat,
                      ordered: seq<string>, k: int, permitted: set<string>)
    requires StoreOk(cfg, contexts, revisions, allowed) && c < contexts && base < |revisions| && revisions[base].context == c
    requires CountFor(revisions, c) < cfg.maxRevisions
    requires Distinct(ordered) && Members(ordered) <= IdSet(revisions[base]) * permitted
    ensures var r := Revision(c, Some(base), Listing(UpTo(ordered, k)));
            && StoreOk(cfg, contexts, revisions + [r], allowed + [permitted])
            && IdSet(r) <= IdSet(revisions[base]) * permitted
  {
    RefinedFits(cfg, contexts, revisions, allowed, base, ordered, k);
    ListingOk(cfg, ordered, k, permitted);
    AddRevision(cfg, contexts, contexts, revisions, allowed, Revision(c, Some(base), Listing(UpTo(ordered, k))), permitted);
  }

  /** Fewer candidates than the base has, so even a negative bound stays within the limit. */
  lemma RefinedFits(cfg: Config, contexts: nat, revisions: seq<Revision>, allowed: seq<set<string>>, base: nat, ordered: seq<string>, k: int)
    requires StoreOk(cfg, contexts, revisions, allowed) && base < |revisions|
    requires Distinct(ordered) && Members(ordered) <= IdSet(revisions[base])
    ensures CutAt(|ordered|, k) <= cfg.maxTopK
  {
    assert RevisionOk(cfg, contexts, revisions, allowed, base);
    MembersSize(ordered);
    MembersSize(CandidateIds(revisions[base].candidates));
    SubsetSize(Members(ordered), IdSet(revisions[base]));
  }

  // ---- what a refinement answers ---------------------------------------------------------------------------

  /** How many of `n` results a request gets: at most the service's limit; a negative number drops
      that many from the end. */
  lemma ResultCount(cfg: Config, topK: Option<int>, n: nat)
    ensures var kept := CutAt(n, TopK(cfg, topK));
            && (topK.None? ==> kept == if n < cfg.maxTopK then n else cfg.maxTopK)
            && (topK.Some? && topK.value >= 0 ==>
                  && kept <= topK.value && kept <= cfg.maxTopK && kept <= n
                  && (kept == topK.value || kept == cfg.maxTopK || kept == n))
            && (topK.Some? && topK.value < 0 ==> kept == if n + topK.value > 0 then n + topK.value else 0)
  {
  }

  /** The record meets the operation's filter: all the wanted tags, or one of the wanted scales when
      any are named; other operations filter nothing. */
  predicate Meets(op: RefineOp, x: Record) {
    && (op.NarrowByTags? ==> forall t :: t in op.tags ==> t in x.tags)
    && (op.FilterByAnalysisScale? && op.scales != {} ==> x.scale in op.scales)
  }

  lemma NarrowedMeaning(op: RefineOp, records: seq<Record>)
    ensures forall x :: x in Narrowed(op, records) <==> x in records && Meets(op, x)
  {
    forall x
      ensures Keeps(op, x) <==> Meets(op, x)
    {
    }
  }

  /** Without query text -- and always for narrowing by tags -- a refinement answers with exactly the
      reloaded records that meet its filter. */
  lemma {:induction false} AnswerWithoutQuery(cfg: Config, op: RefineOp, records: seq<Record>, hasQuery: bool, world: World, r: seq<string>, id: string)
    requires IsRefinement(cfg, op, records, hasQuery, world, r) && (op.NarrowByTags? || !hasQuery)
    ensures id in r <==> exists x :: x in records && Meets(op, x) && x.id == id
  {
    NarrowedMeaning(op, records);
    var narrowed := Narrowed(op, records);
    var ranked :| IsRanking(narrowed, Asks(op, hasQuery), ModeOf(op), cfg.vectorEnabled, world.q, cfg.weights, ranked)
               && r == if op.RerankCurrentCandidates? then CrossEncode(ranked, cfg.rerankEnabled && hasQuery, cfg.rerankTopN, world.rerank) else ranked;
    assert r == ranked;
    IdsExactly(narrowed, id);
    if narrowed != [] {
      assert id in r <==> id in Members(r);
      assert Members(r) == Earliness(narrowed).Keys;
    }
  }

  lemma {:induction false} IdsExactly(records: seq<Record>, id: string)
    ensures id in IdsOf(records) <==> exists x :: x in records && x.id == id
  {
    if id in IdsOf(records) {
      var i :| 0 <= i < |records| && records[i].id == id;
      assert records[i] in records;
    }
    if exists x :: x in records && x.id == id {
      var x :| x in records && x.id == id;
      InIds(records, x);
    }
  }

  /** The side of the records a text operation searches. */
  predicate KnownTo(op: RefineOp, q: Relevance, vectors: bool, id: string) {
    match op
    case SearchStaticText => id in q.staticText || (vectors && id in q.staticVector)
    case SearchDynamicText => id in q.dynamicText || (vectors && id in q.dynamicVector)
    case _ => id in q.staticText || id in q.dynamicText || (vectors && (id in q.staticVector || id in q.dynamicVector))
  }

  /** With query text it answers with those among them that the operation's side of the index knows,
      or with all of them when it knows none. */
  lemma {:induction false} AnswerWithQuery(cfg: Config, op: RefineOp, records: seq<Record>, world: World, r: seq<string>, id: string)
    requires IsRefinement(cfg, op, records, true, world, r) && !op.NarrowByTags?
    ensures id in r <==>
              && (exists x :: x in records && Meets(op, x) && x.id == id)
              && (KnownTo(op, world.q, cfg.vectorEnabled, id)
                  || forall x :: x in records && Meets(op, x) ==> !KnownTo(op, world.q, cfg.vectorEnabled, x.id))
  {
    NarrowedMeaning(op, records);
    var narrowed := Narrowed(op, records);
    var ranked :| IsRanking(narrowed, Asks(op, true), ModeOf(op), cfg.vectorEnabled, world.q, cfg.weights, ranked)
               && r == if op.RerankCurrentCandidates? then CrossEncode(ranked, cfg.rerankEnabled && true, cfg.rerankTopN, world.rerank) else ranked;
    CrossEncoderPermutesHead(ranked, cfg.rerankEnabled && true, cfg.rerankTopN, world.rerank);
    SameMembers(ranked, r);
    IdsExactly(narrowed, id);
    if narrowed != [] {
      RankedIdsMeaning(op, narrowed, world.q, cfg.vectorEnabled, cfg.weights, ranked, id);
    }
  }

  lemma {:induction false} RankedIdsMeaning(op: RefineOp, records: seq<Record>, q: Relevance, vectors: bool, w: Weights, r: seq<string>, id: string)
    requires records != [] && IsRanking(records, true, ModeOf(op), vectors, q, w, r)
    ensures id in r <==>
              id in IdsOf(records) && (KnownTo(op, q, vectors, id) || forall x :: x in records ==> !KnownTo(op, q, vectors, x.id))
  {
    var ids := Members(IdsOf(records));
    var answer := Restricted(q, ids);
    RankedExactlyWhen(ids, answer, ModeOf(op), vectors, w, id);
    assert id in r <==> id in Members(r);
    forall x | x in ids
      ensures Known(answer, ModeOf(op), vectors, x) <==> KnownTo(op, q, vectors, x)
    {
    }
    forall y | y in records
      ensures y.id in ids
    {
      InIds(records, y);
    }
    forall x | x in ids
      ensures exists y :: y in records && y.id == x
    {
      IdsExactly(records, x);
    }
  }

  /** The revisions of a context, counted. */
  lemma {:induction false} CountForMeaning(revisions: seq<Revision>, c: nat)
    ensures CountFor(revisions, c) == |set i | 0 <= i < |revisions| && revisions[i].context == c|
  {
    if revisions != [] {
      var n := |revisions| - 1;
      CountForMeaning(revisions[..n], c);
      var before := set i | 0 <= i < n && revisions[..n][i].context == c;
      var all := set i | 0 <= i < |revisions| && revisions[i].context == c;
      assert all == before + if revisions[n].context == c then {n} else {};
    }
  }

  /** Everything authorised comes back: as long as a base is no longer than the reload limit, the
      reloaded records are exactly the visible ones among its candidates. */
  lemma {:induction false} ReloadedMeaning(cfg: Config, base: Revision, world: World, x: Record)
    requires |base.candidates| <= cfg.maxCandidates
    ensures x in Reloaded(cfg, base, world) <==> x in world.visible && exists i :: 0 <= i < |base.candidates| && base.candidates[i].id == x.id
  {
    assert UpTo(base.candidates, cfg.maxCandidates) == base.candidates;
    var ids := CandidateIds(base.candidates);
    assert x.id in ids <==> exists i :: 0 <= i < |base.candidates| && base.candidates[i].id == x.id by {
      if x.id in ids {
        var i :| 0 <= i < |ids| && ids[i] == x.id;
        assert base.candidates[i].id == x.id;
      }
      if exists i :: 0 <= i < |base.candidates| && base.candidates[i].id == x.id {
        var i :| 0 <= i < |base.candidates| && base.candidates[i].id == x.id;
        assert ids[i] == x.id;
      }
    }
  }
}
