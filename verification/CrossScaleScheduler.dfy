/** Dispatch order and tallying of the cross-scale unit scheduler. */
module CrossScaleScheduler {
  import opened Statuses
  import opened UnitProtocol
  import opened Arith
  import opened Orders

  /** Where the i-th default unit is dispatched when `h` high-frequency units compete. */
  function DefaultPos(i: nat, quota: nat, h: nat): int { i + Min((i + 1) * quota, h) }

  /** Where the j-th high-frequency unit is dispatched when `d` default units compete. */
  function HighFreqPos(j: nat, quota: nat, d: nat): int
    requires quota > 0
  {
    j + Min(j / quota, d)
  }

  function Quota(highFreqQuota: int): (q: nat)
    ensures q >= 1 && (q == highFreqQuota || (q == 1 && highFreqQuota < 1))
  {
    if highFreqQuota < 1 then 1 else highFreqQuota
  }

  ghost predicate Dispatched<T>(ordered: seq<T>, hf: seq<T>, df: seq<T>, quota: nat, hi: nat, di: nat)
    requires quota > 0 && hi <= |hf| && di <= |df|
  {
    && |ordered| == hi + di
    && (forall i :: 0 <= i < di ==>
          0 <= DefaultPos(i, quota, |hf|) < |ordered| && ordered[DefaultPos(i, quota, |hf|)] == df[i])
    && (forall j :: 0 <= j < hi ==>
          0 <= HighFreqPos(j, quota, |df|) < |ordered| && ordered[HighFreqPos(j, quota, |df|)] == hf[j])
    && multiset(ordered) == multiset(hf[..hi]) + multiset(df[..di])
  }

  lemma TakeOneMore<T>(s: seq<T>, n: nat)
    requires n < |s|
    ensures multiset(s[..n + 1]) == multiset(s[..n]) + multiset{s[n]}
  {
    assert s[..n + 1] == s[..n] + [s[n]];
  }

  /** One round's batch of high-frequency units lands on the promised positions. */
  lemma BatchExtends<T>(ordered: seq<T>, hf: seq<T>, df: seq<T>, quota: nat, r: nat, hi: nat, hi': nat, di: nat)
    requires quota > 0 && hi <= hi' <= |hf| && di <= |df|
    requires hi == Min(r * quota, |hf|) && hi' <= r * quota + quota && di == Min(r, |df|)
    requires Dispatched(ordered, hf, df, quota, hi, di)
    ensures Dispatched(ordered + hf[hi..hi'], hf, df, quota, hi', di)
  {
    var longer := ordered + hf[hi..hi'];
    forall j | 0 <= j < hi'
      ensures 0 <= HighFreqPos(j, quota, |df|) < |longer| && longer[HighFreqPos(j, quota, |df|)] == hf[j]
    {
      if j >= hi {
        QuotientUnique(j, quota, r);
      }
    }
    assert hf[..hi'] == hf[..hi] + hf[hi..hi'];
  }

  lemma DefaultExtends<T>(ordered: seq<T>, hf: seq<T>, df: seq<T>, quota: nat, hi: nat, di: nat)
    requires quota > 0 && hi <= |hf| && di < |df| && hi == Min((di + 1) * quota, |hf|)
    requires Dispatched(ordered, hf, df, quota, hi, di)
    ensures Dispatched(ordered + [df[di]], hf, df, quota, hi, di + 1)
  {
    TakeOneMore(df, di);
  }

  /** The inner loop: up to `quota` more high-frequency units. */
  method EmitBatch<T>(before: seq<T>, hf: seq<T>, hi0: nat, quota: nat) returns (ordered: seq<T>, hi: nat)
    requires hi0 <= |hf|
    ensures hi == Min(hi0 + quota, |hf|)
    ensures ordered == before + hf[hi0..hi]
  {
    var emitted := 0;
    ordered, hi := before, hi0;
    while hi < |hf| && emitted < quota
      invariant 0 <= emitted <= quota && hi0 <= hi <= |hf| && hi == hi0 + emitted
      invariant ordered == before + hf[hi0..hi]
      decreases |hf| - hi
    {
      ordered := ordered + [hf[hi]];
      hi := hi + 1;
      emitted := emitted + 1;
    }
  }

  /** One round: a batch of high-frequency units and one default unit. */
  lemma RoundExtends<T>(before: seq<T>, hf: seq<T>, df: seq<T>, quota: nat, r: nat, hi: nat, hi': nat, di: nat)
    requires quota > 0 && hi == Min(r * quota, |hf|) && hi' == Min(hi + quota, |hf|) && di == Min(r, |df|)
    requires Dispatched(before, hf, df, quota, hi, di)
    ensures hi' == Min((r + 1) * quota, |hf|)
    ensures di < |df| ==> Dispatched(before + hf[hi..hi'] + [df[di]], hf, df, quota, hi', di + 1)
    ensures di == |df| ==> Dispatched(before + hf[hi..hi'], hf, df, quota, hi', di)
  {
    NextRound(r, quota, |hf|);
    BatchExtends(before, hf, df, quota, r, hi, hi', di);
    if di < |df| {
      DefaultExtends(before + hf[hi..hi'], hf, df, quota, hi', di);
    }
  }

  /** Every unit is dispatched exactly once, each list keeps its order, and every unit's
      position is known in closed form, so neither scale can starve the other. */
  method DispatchOrder<T>(hf: seq<T>, df: seq<T>, highFreqQuota: int) returns (ordered: seq<T>)
    ensures Dispatched(ordered, hf, df, Quota(highFreqQuota), |hf|, |df|)
  {
    var quota := Quota(highFreqQuota);
    ordered := [];
    var hi, di := 0, 0;
    ghost var r := 0;
    while hi < |hf| || di < |df|
      invariant 0 <= hi <= |hf| && 0 <= di <= |df|
      invariant hi == Min(r * quota, |hf|) && di == Min(r, |df|)
      invariant Dispatched(ordered, hf, df, quota, hi, di)
      decreases |hf| - hi + |df| - di
    {
      RoundExtends(ordered, hf, df, quota, r, hi, Min(hi + quota, |hf|), di);
      ordered, hi := EmitBatch(ordered, hf, hi, quota);
      if di < |df| {
        ordered, di := ordered + [df[di]], di + 1;
      } else if hi >= |hf| {
        break;
      }
      r := r + 1;
    }
  }

  lemma NextRound(r: nat, quota: nat, h: nat)
    ensures Min((r + 1) * quota, h) == Min(Min(r * quota, h) + quota, h)
  {
    assert (r + 1) * quota == r * quota + quota;
  }

  /** Dispatch positions grow with the index in each list. */
  lemma PositionsGrow(i: nat, i': nat, quota: nat, h: nat, d: nat)
    requires quota > 0 && i < i'
    ensures DefaultPos(i, quota, h) < DefaultPos(i', quota, h)
    ensures HighFreqPos(i, quota, d) < HighFreqPos(i', quota, d)
  {
    MulMono(i + 1, i' + 1, quota);
    QuotientMono(i, i', quota);
  }

  /** No two units share a dispatch position. */
  lemma PositionsDisjoint(i: nat, j: nat, quota: nat, h: nat, d: nat)
    requires quota > 0 && i < d && j < h
    ensures DefaultPos(i, quota, h) != HighFreqPos(j, quota, d)
  {
    var q := j / quota;
    QuotientBounds(j, quota);
    MulStep(i, q, quota);
    MulMono(if q <= i then q else i, i, quota);
    assert (i + 1) * quota == i * quota + quota;
  }

  /** No starvation: between two neighbouring default units at most `quota` high-frequency units
      are dispatched, and exactly that many while there are enough of them. */
  lemma DefaultNeverStarves(i: nat, highFreqQuota: int, h: nat)
    ensures var q := Max(1, highFreqQuota);
            && DefaultPos(0, Quota(highFreqQuota), h) <= q
            && DefaultPos(i + 1, Quota(highFreqQuota), h) - DefaultPos(i, Quota(highFreqQuota), h) <= q + 1
            && ((i + 2) * q <= h ==> DefaultPos(i + 1, Quota(highFreqQuota), h) - DefaultPos(i, Quota(highFreqQuota), h) == q + 1)
  {
    var q := Quota(highFreqQuota);
    assert (i + 2) * q == (i + 1) * q + q;
  }

  // ---- tallying ------------------------------------------------------------------

  datatype ScaleResult = ScaleResult(total: nat, succeeded: nat, failed: nat, skipped: nat)

  datatype Report = Report(scale: Scale, outcome: Outcome)

  function ResultOf(scale: Scale, total: nat, done: multiset<Report>): ScaleResult {
    ScaleResult(total, done[Report(scale, OSucceeded)], done[Report(scale, OFailed)], done[Report(scale, OSkipped)])
  }

  method Tally(counter: array<nat>, outcome: Outcome)
    requires counter.Length == 4
    modifies counter
    ensures counter[0] == old(counter[0])
    ensures counter[1] == old(counter[1]) + (if outcome.OSucceeded? then 1 else 0)
    ensures counter[2] == old(counter[2]) + (if outcome.OFailed? then 1 else 0)
    ensures counter[3] == old(counter[3]) + (if outcome.OSkipped? then 1 else 0)
  {
    if outcome.OSucceeded? {
      counter[1] := counter[1] + 1;
    } else if outcome.OSkipped? {
      counter[3] := counter[3] + 1;
    } else {
      counter[2] := counter[2] + 1;
    }
  }

  /** The per-scale results are a function of the bag of reports: no completion order
      of the pool can change them. */
  method Aggregate(defaultUnits: nat, highFreqUnits: nat, done: seq<Report>)
    returns (ds: ScaleResult, hf: ScaleResult)
    requires forall i :: 0 <= i < |done| ==> done[i].scale.DefaultSegment? || done[i].scale.HighFreqEvent?
    ensures ds == ResultOf(DefaultSegment, defaultUnits, multiset(done))
    ensures hf == ResultOf(HighFreqEvent, highFreqUnits, multiset(done))
  {
    var dc := new nat[4](i => if i == 0 then defaultUnits else 0);
    var hc := new nat[4](i => if i == 0 then highFreqUnits else 0);
    var n := 0;
    while n < |done|
      invariant 0 <= n <= |done|
      invariant ScaleResult(dc[0], dc[1], dc[2], dc[3]) == ResultOf(DefaultSegment, defaultUnits, multiset(done[..n]))
      invariant ScaleResult(hc[0], hc[1], hc[2], hc[3]) == ResultOf(HighFreqEvent, highFreqUnits, multiset(done[..n]))
    {
      TakeOneMore(done, n);
      if done[n].scale.DefaultSegment? {
        Tally(dc, done[n].outcome);
      } else {
        Tally(hc, done[n].outcome);
      }
      n := n + 1;
    }
    assert done[..|done|] == done;
    ds := ScaleResult(dc[0], dc[1], dc[2], dc[3]);
    hf := ScaleResult(hc[0], hc[1], hc[2], hc[3]);
  }

  /** The reports of units that finished in the order `keys`. */
  function ReportsOf(keys: seq<Key>, outcomes: map<Key, Outcome>): seq<Report>
    requires forall k :: k in keys ==> k in outcomes
  {
    if keys == [] then []
    else
      var n := |keys| - 1;
      ReportsOf(keys[..n], outcomes) + [Report(keys[n].scale, outcomes[keys[n]])]
  }

  /** The units of a scale that reported a given outcome. */
  function UnitsWith(keys: seq<Key>, outcomes: map<Key, Outcome>, scale: Scale, o: Outcome): (r: set<Key>)
    requires forall k :: k in keys ==> k in outcomes
    ensures forall k :: k in r <==> k in keys && k.scale == scale && outcomes[k] == o
  {
    if keys == [] then {}
    else
      var n := |keys| - 1;
      var before := UnitsWith(keys[..n], outcomes, scale, o);
      assert keys == keys[..n] + [keys[n]];
      if keys[n].scale == scale && outcomes[keys[n]] == o then before + {keys[n]} else before
  }

  /** One report per unit: a scale's count of an outcome is the number of its units that
      ended so. */
  lemma {:induction false} CountsAreSets(keys: seq<Key>, outcomes: map<Key, Outcome>, scale: Scale, o: Outcome)
    requires Distinct(keys) && forall k :: k in keys ==> k in outcomes
    ensures multiset(ReportsOf(keys, outcomes))[Report(scale, o)] == |UnitsWith(keys, outcomes, scale, o)|
  {
    if keys == [] {
    } else {
      CountsAreSets(keys[..|keys| - 1], outcomes, scale, o);
      LastReport(keys, outcomes, Report(scale, o));
      LastUnit(keys, outcomes, scale, o);
    }
  }

  lemma LastReport(keys: seq<Key>, outcomes: map<Key, Outcome>, r: Report)
    requires keys != [] && forall k :: k in keys ==> k in outcomes
    ensures var n := |keys| - 1;
            multiset(ReportsOf(keys, outcomes))[r] ==
              multiset(ReportsOf(keys[..n], outcomes))[r] + (if Report(keys[n].scale, outcomes[keys[n]]) == r then 1 else 0)
  {
  }

  lemma LastUnit(keys: seq<Key>, outcomes: map<Key, Outcome>, scale: Scale, o: Outcome)
    requires keys != [] && Distinct(keys) && forall k :: k in keys ==> k in outcomes
    ensures var n := |keys| - 1;
            |UnitsWith(keys, outcomes, scale, o)| == |UnitsWith(keys[..n], outcomes, scale, o)|
              + (if keys[n].scale == scale && outcomes[keys[n]] == o then 1 else 0)
  {
    var n := |keys| - 1;
    assert keys[n] !in keys[..n];
  }

  /** The three counts of a scale together make up all its units. */
  lemma CountsSumToTotal(keys: seq<Key>, outcomes: map<Key, Outcome>, scale: Scale)
    requires Distinct(keys) && forall k :: k in keys ==> k in outcomes
    ensures var r := ResultOf(scale, 0, multiset(ReportsOf(keys, outcomes)));
            r.succeeded + r.failed + r.skipped == |set k | k in keys && k.scale == scale|
  {
    CountsAreSets(keys, outcomes, scale, OSucceeded);
    CountsAreSets(keys, outcomes, scale, OFailed);
    CountsAreSets(keys, outcomes, scale, OSkipped);
    var a := UnitsWith(keys, outcomes, scale, OSucceeded);
    var b := UnitsWith(keys, outcomes, scale, OFailed);
    var c := UnitsWith(keys, outcomes, scale, OSkipped);
    var all := set k | k in keys && k.scale == scale;
    SplitInThree(all, a, b, c);
  }

  lemma SplitInThree(all: set<Key>, a: set<Key>, b: set<Key>, c: set<Key>)
    requires forall k :: k in all <==> k in a || k in b || k in c
    requires a !! b && a !! c && b !! c
    ensures |all| == |a| + |b| + |c|
  {
    assert all == a + b + c;
  }
}
