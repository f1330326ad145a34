/** Reciprocal rank fusion: from relevance scores to an ordered list of record ids. */
module Ranking {
  import opened Arith
  import opened Orders
  import opened Sets

  // ---- the order of ids --------------------------------------------------------------------

  /** Strings compared character by character. */
  predicate IdLe(a: string, b: string) {
    a == [] || (b != [] && (a[0] < b[0] || (a[0] == b[0] && IdLe(a[1..], b[1..]))))
  }

  lemma {:induction false} IdLeTotal(a: string, b: string)
    ensures IdLe(a, b) || IdLe(b, a)
    ensures IdLe(a, b) && IdLe(b, a) ==> a == b
  {
    if a != [] && b != [] && a[0] == b[0] {
      IdLeTotal(a[1..], b[1..]);
      assert a == [a[0]] + a[1..] && b == [b[0]] + b[1..];
    }
  }

  lemma {:induction false} IdLeTransitive(a: string, b: string, c: string)
    ensures IdLe(a, b) && IdLe(b, c) ==> IdLe(a, c)
  {
    if a != [] && b != [] && c != [] {
      IdLeTransitive(a[1..], b[1..], c[1..]);
    }
  }

  /** `a` comes first: it is a beginning of `b`, or has the smaller character where they differ. */
  ghost predicate DiffersAt(a: string, b: string, i: nat) {
    i <= |a| && i <= |b| && a[..i] == b[..i] && (i == |a| || (i < |b| && a[i] < b[i]))
  }

  lemma {:induction false} IdLeMeaning(a: string, b: string)
    ensures IdLe(a, b) <==> exists i: nat :: DiffersAt(a, b, i)
  {
    if a == [] {
      assert DiffersAt(a, b, 0);
    } else if b != [] {
      IdLeMeaning(a[1..], b[1..]);
      if a[0] < b[0] {
        assert DiffersAt(a, b, 0);
      } else if a[0] == b[0] && IdLe(a[1..], b[1..]) {
        var i: nat :| DiffersAt(a[1..], b[1..], i);
        assert a[..i + 1] == [a[0]] + a[1..][..i] && b[..i + 1] == [b[0]] + b[1..][..i];
        assert DiffersAt(a, b, i + 1);
      }
      if exists i: nat :: DiffersAt(a, b, i) {
        var i: nat :| DiffersAt(a, b, i);
        if i > 0 {
          assert a[..i][0] == b[..i][0];
          assert a[1..][..i - 1] == a[..i][1..] && b[1..][..i - 1] == b[..i][1..];
          assert DiffersAt(a[1..], b[1..], i - 1);
        }
      }
    }
  }

  // ---- ordering by score ----------------------------------------------------------------------

  function Get(m: map<string, real>, id: string): real {
    if id in m then m[id] else 0.0
  }

  /** Higher score first, ids breaking ties. */
  predicate Precedes(m: map<string, real>, a: string, b: string) {
    Get(m, a) > Get(m, b) || (Get(m, a) == Get(m, b) && IdLe(a, b))
  }

  function ByScore(m: map<string, real>): (string, string) -> bool {
    (a, b) => Precedes(m, a, b)
  }

  lemma PrecedesIsOrder(m: map<string, real>)
    ensures TotalPreorder(ByScore(m))
    ensures forall a, b :: Precedes(m, a, b) && Precedes(m, b, a) ==> a == b
  {
    forall a, b
      ensures Precedes(m, a, b) || Precedes(m, b, a)
      ensures Precedes(m, a, b) && Precedes(m, b, a) ==> a == b
    {
      IdLeTotal(a, b);
    }
    forall a, b, c
      ensures Precedes(m, a, b) && Precedes(m, b, c) ==> Precedes(m, a, c)
    {
      IdLeTransitive(a, b, c);
    }
  }

  /** `r` lists the ids of `m`, best first. */
  ghost predicate IsOrderOf(m: map<string, real>, r: seq<string>) {
    Distinct(r) && Members(r) == m.Keys && SortedBy(r, ByScore(m))
  }

  /** The order is a function of the scores alone. */
  lemma OrderIsUnique(m: map<string, real>, a: seq<string>, b: seq<string>)
    requires IsOrderOf(m, a) && IsOrderOf(m, b)
    ensures a == b
  {
    PrecedesIsOrder(m);
    DistinctSameMembers(a, b);
    SortedUnique(a, b, ByScore(m));
  }

  /** The ids of a set in some order. */
  method Listed(ids: set<string>) returns (r: seq<string>)
    ensures Distinct(r) && Members(r) == ids
  {
    r := [];
    var left := ids;
    while left != {}
      invariant left <= ids && Distinct(r) && Members(r) == ids - left
      decreases |left|
    {
      var id :| id in left;
      assert id !in r by {
        assert id !in Members(r);
      }
      MembersAppend(r, id);
      r, left := r + [id], left - {id};
    }
  }

  /** `order_candidates`. */
  method OrderCandidates(fused: map<string, real>) returns (r: seq<string>)
    ensures IsOrderOf(fused, r)
  {
    var items := Listed(fused.Keys);
    r := SortBy(items, ByScore(fused));
    PrecedesIsOrder(fused);
    SortBySorts(items, ByScore(fused));
    DistinctPermuted(items, r);
    SameMembers(items, r);
  }

  // ---- rank maps ---------------------------------------------------------------------------------

  /** The ids placed before `id`. */
  ghost function Ahead(scores: map<string, real>, id: string): set<string> {
    set x | x in scores && x != id && Precedes(scores, x, id)
  }

  /** Ranks count from one: one more than the number of ids placed before. */
  ghost function RankMap(scores: map<string, real>): map<string, nat> {
    map id | id in scores :: |Ahead(scores, id)| + 1
  }

  lemma PositionIsRank(scores: map<string, real>, r: seq<string>, i: nat)
    requires IsOrderOf(scores, r) && i < |r|
    ensures |Ahead(scores, r[i])| == i
  {
    PrecedesIsOrder(scores);
    var before := r[..i];
    MembersSize(before);
    forall x
      ensures x in Ahead(scores, r[i]) <==> x in before
    {
      if x in scores {
        assert x in Members(r);
        var j :| 0 <= j < |r| && r[j] == x;
        assert j < i ==> ByScore(scores)(r[j], r[i]) && before[j] == x;
        assert i < j ==> ByScore(scores)(r[i], r[j]);
      } else {
        assert x !in Members(r);
      }
    }
    assert Ahead(scores, r[i]) == Members(before);
  }

  /** Positions of a list, counted from one. */
  method Numbered(ordered: seq<string>) returns (ranks: map<string, nat>)
    requires Distinct(ordered)
    ensures ranks.Keys == Members(ordered) && forall j :: 0 <= j < |ordered| ==> ranks[ordered[j]] == j + 1
  {
    ranks := map[];
    for i := 0 to |ordered|
      invariant ranks.Keys == Members(ordered[..i])
      invariant forall j :: 0 <= j < i ==> ordered[j] in ranks && ranks[ordered[j]] == j + 1
    {
      ranks := ranks[ordered[i] := i + 1];
      MembersAppend(ordered[..i], ordered[i]);
      assert ordered[..i + 1] == ordered[..i] + [ordered[i]];
    }
    assert ordered[..|ordered|] == ordered;
  }

  lemma NumberedIsRankMap(scores: map<string, real>, ordered: seq<string>, ranks: map<string, nat>)
    requires IsOrderOf(scores, ordered) && ranks.Keys == Members(ordered)
    requires forall j :: 0 <= j < |ordered| ==> ranks[ordered[j]] == j + 1
    ensures ranks == RankMap(scores)
  {
    forall id | id in scores
      ensures ranks[id] == RankMap(scores)[id]
    {
      assert id in Members(ordered);
      var i :| 0 <= i < |ordered| && ordered[i] == id;
      PositionIsRank(scores, ordered, i);
    }
  }

  /** `to_rank_map`: sorting and numbering gives every id its rank. */
  method ToRankMap(scores: map<string, real>) returns (ranks: map<string, nat>)
    ensures ranks == RankMap(scores)
  {
    var ordered := OrderCandidates(scores);
    ranks := Numbered(ordered);
    NumberedIsRankMap(scores, ordered, ranks);
  }

  /** A record placed before another has the smaller rank. */
  lemma BetterHasSmallerRank(scores: map<string, real>, a: string, b: string)
    requires a in scores && b in scores && a != b && Precedes(scores, a, b)
    ensures RankMap(scores)[a] < RankMap(scores)[b]
  {
    PrecedesIsOrder(scores);
    var ahead := Ahead(scores, a) + {a};
    forall x | x in ahead
      ensures x in Ahead(scores, b)
    {
      assert ByScore(scores)(a, b) && (x == a || ByScore(scores)(x, a));
      assert ByScore(scores)(x, b);
    }
    assert ahead <= Ahead(scores, b);
    assert |ahead| == |Ahead(scores, a)| + 1;
    SubsetSize(ahead, Ahead(scores, b));
  }

  // ---- fusion ------------------------------------------------------------------------------------------

  datatype Weights = Weights(k: nat, wStatic: real, wDynamic: real, wVector: real, maxTagBoost: real, maxScaleBoost: real)

  predicate NonNegative(w: Weights) {
    w.wStatic >= 0.0 && w.wDynamic >= 0.0 && w.wVector >= 0.0
  }

  datatype Channels = Channels(staticRanks: map<string, nat>, dynamicRanks: map<string, nat>, vectorRanks: map<string, nat>,
                               tagBoost: map<string, real>, scaleBoost: map<string, real>)

  /** What one rank list adds to a score; rank zero counts as no rank. */
  function Component(weight: real, k: nat, ranks: map<string, nat>, id: string): real {
    if id in ranks && ranks[id] > 0 then weight * Reciprocal(ranks[id] + k) else 0.0
  }

  function Reciprocal(n: nat): real {
    if n == 0 then 0.0 else 1.0 / n as real
  }

  function Boost(cap: real, boosts: map<string, real>, id: string): real {
    var b := Get(boosts, id);
    if cap <= b then cap else b
  }

  function FusedScore(c: Channels, w: Weights, id: string): real {
    Component(w.wStatic, w.k, c.staticRanks, id) + Component(w.wDynamic, w.k, c.dynamicRanks, id)
    + Component(w.wVector, w.k, c.vectorRanks, id)
    + Boost(w.maxTagBoost, c.tagBoost, id) + Boost(w.maxScaleBoost, c.scaleBoost, id)
  }

  /** A list adds its weight divided by the rank plus the smoothing constant, or nothing where the
      record has no rank. */
  lemma ComponentMeaning(weight: real, k: nat, ranks: map<string, nat>, id: string)
    ensures if id in ranks && ranks[id] > 0 then Component(weight, k, ranks, id) * (ranks[id] + k) as real == weight
            else Component(weight, k, ranks, id) == 0.0
  {
    if id in ranks && ranks[id] > 0 {
      var n := ranks[id] + k;
      assert Reciprocal(n) * n as real == 1.0;
      assert weight * Reciprocal(n) * n as real == weight * (Reciprocal(n) * n as real);
    }
  }

  /** A boost counts up to its cap, and a record without one counts zero. */
  lemma BoostMeaning(cap: real, boosts: map<string, real>, id: string)
    ensures var b := if id in boosts then boosts[id] else 0.0;
            Boost(cap, boosts, id) <= cap && Boost(cap, boosts, id) <= b && (Boost(cap, boosts, id) == cap || Boost(cap, boosts, id) == b)
  {
  }

  /** `rrf_fuse`: every candidate, and nothing else, gets its fused score. */
  method RrfFuse(ids: seq<string>, c: Channels, w: Weights) returns (fused: map<string, real>)
    ensures fused.Keys == Members(ids) && forall id :: id in fused ==> fused[id] == FusedScore(c, w, id)
  {
    fused := map[];
    for i := 0 to |ids|
      invariant fused.Keys == Members(ids[..i])
      invariant forall id :: id in fused ==> fused[id] == FusedScore(c, w, id)
    {
      fused := fused[ids[i] := FusedScore(c, w, ids[i])];
    }
    assert ids[..|ids|] == ids;
  }

  lemma ReciprocalShrinks(m: nat, n: nat)
    requires 0 < m <= n
    ensures 0.0 < Reciprocal(n) <= Reciprocal(m)
    ensures m < n ==> Reciprocal(n) < Reciprocal(m)
  {
    var x, y := Reciprocal(m), Reciprocal(n);
    assert x * m as real == 1.0 && y * n as real == 1.0 && y > 0.0;
    assert y * n as real == y * m as real + y * (n - m) as real;
    CancelFactor(y, x, m as real);
    CancelFactor(x, y, m as real);
  }

  lemma Scale(weight: real, x: real, y: real)
    requires weight >= 0.0 && 0.0 <= x <= y
    ensures 0.0 <= weight * x <= weight * y
    ensures weight > 0.0 && x < y ==> weight * x < weight * y
  {
  }

  /** `a` is ranked at least as well as `b`: wherever `b` has a rank, `a` has one no larger. */
  predicate RankedAsWell(ranks: map<string, nat>, a: string, b: string) {
    b in ranks && ranks[b] > 0 ==> a in ranks && 0 < ranks[a] <= ranks[b]
  }

  lemma ComponentGrows(weight: real, k: nat, ranks: map<string, nat>, a: string, b: string)
    requires weight >= 0.0 && RankedAsWell(ranks, a, b)
    ensures Component(weight, k, ranks, a) >= Component(weight, k, ranks, b) >= 0.0
  {
    if b in ranks && ranks[b] > 0 {
      ReciprocalShrinks(ranks[a] + k, ranks[b] + k);
      Scale(weight, Reciprocal(ranks[b] + k), Reciprocal(ranks[a] + k));
    } else if a in ranks && ranks[a] > 0 {
      ReciprocalShrinks(ranks[a] + k, ranks[a] + k);
      Scale(weight, 0.0, Reciprocal(ranks[a] + k));
    }
  }

  /** `a` is at least as good as `b` in every rank list and every boost. */
  predicate Dominates(c: Channels, a: string, b: string) {
    && RankedAsWell(c.staticRanks, a, b) && RankedAsWell(c.dynamicRanks, a, b) && RankedAsWell(c.vectorRanks, a, b)
    && Get(c.tagBoost, a) >= Get(c.tagBoost, b) && Get(c.scaleBoost, a) >= Get(c.scaleBoost, b)
  }

  lemma DominantScoresHigher(c: Channels, w: Weights, a: string, b: string)
    requires NonNegative(w) && Dominates(c, a, b)
    ensures FusedScore(c, w, a) >= FusedScore(c, w, b)
  {
    ComponentGrows(w.wStatic, w.k, c.staticRanks, a, b);
    ComponentGrows(w.wDynamic, w.k, c.dynamicRanks, a, b);
    ComponentGrows(w.wVector, w.k, c.vectorRanks, a, b);
  }

  ghost predicate PlacedBefore(r: seq<string>, a: string, b: string) {
    exists i, j :: 0 <= i < j < |r| && r[i] == a && r[j] == b
  }

  lemma OrderDecides(m: map<string, real>, r: seq<string>, a: string, b: string)
    requires IsOrderOf(m, r) && a in m && b in m && a != b
    ensures PlacedBefore(r, a, b) <==> Precedes(m, a, b)
  {
    PrecedesIsOrder(m);
    assert a in Members(r) && b in Members(r);
    var i :| 0 <= i < |r| && r[i] == a;
    var j :| 0 <= j < |r| && r[j] == b;
    assert i < j ==> ByScore(m)(r[i], r[j]);
    assert j < i ==> ByScore(m)(r[j], r[i]);
    if PlacedBefore(r, a, b) {
      var x, y :| 0 <= x < y < |r| && r[x] == a && r[y] == b;
      assert ByScore(m)(r[x], r[y]);
    }
  }

  // ---- ranking a set of records -----------------------------------------------------------------------

  datatype Record = Record(id: string, time: int, tags: set<string>, scale: string)

  datatype SearchMode = StaticAttribute | DynamicEvent | Hybrid | AutoByExternalAi

  /** What the text index and the stored vectors say about the candidates, and the boosts. */
  datatype Relevance = Relevance(staticText: map<string, real>, dynamicText: map<string, real>,
                                 staticVector: map<string, real>, dynamicVector: map<string, real>,
                                 tagBoost: map<string, real>, scaleBoost: map<string, real>)

  function IdsOf(records: seq<Record>): (ids: seq<string>)
    ensures |ids| == |records| && forall i :: 0 <= i < |ids| ==> ids[i] == records[i].id
  {
    seq(|records|, i requires 0 <= i < |records| => records[i].id)
  }

  /** The channels that answer: text and vectors count only where the mode asks for them. */
  function Active(q: Relevance, mode: SearchMode, wantVector: bool): Relevance {
    var useStatic, useDynamic := mode != DynamicEvent, mode != StaticAttribute;
    q.(staticText := if useStatic then q.staticText else map[],
       dynamicText := if useDynamic then q.dynamicText else map[],
       staticVector := if useStatic && wantVector then q.staticVector else map[],
       dynamicVector := if useDynamic && wantVector then q.dynamicVector else map[])
  }

  /** The higher of the two cosines of the candidates that have one. */
  function Combined(ids: set<string>, q: Relevance): map<string, real> {
    map id | id in ids && (id in q.staticVector || id in q.dynamicVector) ::
      if id !in q.staticVector then q.dynamicVector[id]
      else if id !in q.dynamicVector then q.staticVector[id]
      else if q.staticVector[id] <= q.dynamicVector[id] then q.dynamicVector[id] else q.staticVector[id]
  }

  ghost function ChannelsOf(ids: set<string>, q: Relevance): Channels {
    Channels(RankMap(q.staticText), RankMap(q.dynamicText), RankMap(Combined(ids, q)), q.tagBoost, q.scaleBoost)
  }

  /** Candidates some channel matched, or all when none did. */
  ghost function Matched(ids: set<string>, q: Relevance): set<string> {
    var matched := q.staticText.Keys + q.dynamicText.Keys + Combined(ids, q).Keys;
    if matched != {} then matched else ids
  }

  /** The fused score of every ranked record: a function of the set of candidate ids. */
  ghost function Fused(ids: set<string>, q: Relevance, w: Weights): map<string, real> {
    map id | id in Matched(ids, q) :: FusedScore(ChannelsOf(ids, q), w, id)
  }

  /** The text index answers within the ids it was asked about. */
  predicate WithinIds(q: Relevance, ids: set<string>) {
    q.staticText.Keys <= ids && q.dynamicText.Keys <= ids
  }

  /** The latest record of an id. */
  function TimeOf(records: seq<Record>, id: string): int {
    if records == [] then 0
    else if records[|records| - 1].id == id then records[|records| - 1].time
    else TimeOf(records[..|records| - 1], id)
  }

  /** Earlier is better: ordering by these scores is ordering by time and then id. */
  function Earliness(records: seq<Record>): map<string, real> {
    map id | id in IdsOf(records) :: -(TimeOf(records, id) as real)
  }

  /** The only rank list is the chronological one. */
  function OnlyStatic(ranks: map<string, nat>): Channels {
    Channels(ranks, map[], map[], map[], map[])
  }

  ghost function FusedByTime(earliness: map<string, real>, w: Weights): map<string, real> {
    map id | id in earliness :: FusedScore(OnlyStatic(RankMap(earliness)), w, id)
  }

  method RankByTime(records: seq<Record>, w: Weights) returns (r: seq<string>)
    ensures IsOrderOf(FusedByTime(Earliness(records), w), r)
  {
    var ordered := OrderCandidates(Earliness(records));
    var ranks := Numbered(ordered);
    NumberedIsRankMap(Earliness(records), ordered, ranks);
    var fused := RrfFuse(ordered, OnlyStatic(ranks), w);
    assert fused == FusedByTime(Earliness(records), w);
    r := OrderCandidates(fused);
  }

  lemma FusedIs(ids: set<string>, q: Relevance, w: Weights, c: Channels, fused: map<string, real>)
    requires c == ChannelsOf(ids, q) && fused.Keys == Matched(ids, q)
    requires forall id :: id in fused ==> fused[id] == FusedScore(c, w, id)
    ensures fused == Fused(ids, q, w)
  {
  }

  /** The rank lists of a query, and the candidates they match. */
  method ChannelsFor(ids: seq<string>, q: Relevance) returns (channels: Channels, rankedIds: seq<string>)
    ensures channels == ChannelsOf(Members(ids), q) && Members(rankedIds) == Matched(Members(ids), q)
  {
    var idSet := set id | id in ids;
    assert idSet == Members(ids);
    var vector := Combined(idSet, q);
    var staticRanks := ToRankMap(q.staticText);
    var dynamicRanks := ToRankMap(q.dynamicText);
    var vectorRanks := ToRankMap(vector);
    channels := Channels(staticRanks, dynamicRanks, vectorRanks, q.tagBoost, q.scaleBoost);
    var matched := staticRanks.Keys + dynamicRanks.Keys + vectorRanks.Keys;
    rankedIds := ids;
    if matched != {} {
      rankedIds := Listed(matched);
    }
  }

  method RankByQuery(ids: seq<string>, q: Relevance, w: Weights) returns (r: seq<string>)
    ensures IsOrderOf(Fused(Members(ids), q, w), r)
  {
    var channels, rankedIds := ChannelsFor(ids, q);
    var fused := RrfFuse(rankedIds, channels, w);
    FusedIs(Members(ids), q, w, channels, fused);
    r := OrderCandidates(fused);
  }

  /** `_rank`: with a query, the fused order of the matched candidates; without one, the
      fused order of all candidates ranked by time. */
  method Rank(records: seq<Record>, hasQuery: bool, mode: SearchMode, wantVector: bool, q: Relevance, w: Weights)
    returns (r: seq<string>)
    ensures records == [] ==> r == []
    ensures records != [] && !hasQuery ==> IsOrderOf(FusedByTime(Earliness(records), w), r)
    ensures records != [] && hasQuery ==> IsOrderOf(Fused(Members(IdsOf(records)), Active(q, mode, wantVector), w), r)
  {
    if records == [] {
      r := [];
    } else if !hasQuery {
      r := RankByTime(records, w);
    } else {
      r := RankByQuery(IdsOf(records), Active(q, mode, wantVector), w);
    }
  }

  /** Nothing but candidates comes back, and none twice. */
  lemma StaysWithinCandidates(ids: set<string>, q: Relevance, w: Weights, r: seq<string>)
    requires WithinIds(q, ids) && IsOrderOf(Fused(ids, q, w), r)
    ensures Members(r) <= ids && Distinct(r)
    ensures ids != {} ==> r != []
  {
    assert Matched(ids, q) <= ids;
    if ids != {} {
      var id :| id in Matched(ids, q);
      assert id in Members(r);
    }
  }

  /** The order in which records come does not matter with a query. */
  lemma QueryOrderDependsOnSet(a: seq<Record>, b: seq<Record>, q: Relevance, w: Weights, ra: seq<string>, rb: seq<string>)
    requires Members(a) == Members(b)
    requires IsOrderOf(Fused(Members(IdsOf(a)), q, w), ra) && IsOrderOf(Fused(Members(IdsOf(b)), q, w), rb)
    ensures ra == rb
  {
    var m := Fused(Members(IdsOf(a)), q, w);
    assert m == Fused(Members(IdsOf(b)), q, w) by {
      SameIds(a, b);
      SameIds(b, a);
      assert Members(IdsOf(a)) == Members(IdsOf(b));
    }
    OrderIsUnique(m, ra, rb);
  }

  lemma SameIds(a: seq<Record>, b: seq<Record>)
    requires Members(a) == Members(b)
    ensures Members(IdsOf(a)) <= Members(IdsOf(b))
  {
    forall id | id in Members(IdsOf(a))
      ensures id in Members(IdsOf(b))
    {
      var i :| 0 <= i < |a| && a[i].id == id;
      assert a[i] in Members(b);
      var j :| 0 <= j < |b| && b[j] == a[i];
      assert IdsOf(b)[j] == id;
    }
  }

  ghost predicate UniqueIds(records: seq<Record>) {
    forall x, y :: x in records && y in records && x.id == y.id ==> x == y
  }

  lemma {:induction false} TimeOfRecord(records: seq<Record>, x: Record)
    requires UniqueIds(records) && x in records
    ensures TimeOf(records, x.id) == x.time
  {
    var n := |records| - 1;
    assert records == records[..n] + [records[n]];
    if records[n].id != x.id {
      TimeOfRecord(records[..n], x);
    }
  }

  lemma SameTime(a: seq<Record>, b: seq<Record>, id: string)
    requires Members(a) == Members(b) && UniqueIds(a) && UniqueIds(b) && id in IdsOf(a)
    ensures TimeOf(a, id) == TimeOf(b, id)
  {
    var i :| 0 <= i < |a| && a[i].id == id;
    assert a[i] in Members(b);
    TimeOfRecord(a, a[i]);
    TimeOfRecord(b, a[i]);
  }

  lemma UniqueIdsOfSet(a: seq<Record>, b: seq<Record>)
    requires Members(a) == Members(b) && UniqueIds(a)
    ensures UniqueIds(b)
  {
    assert forall x :: x in b ==> x in Members(a);
  }

  lemma SameDomain(a: seq<Record>, b: seq<Record>)
    requires Members(a) == Members(b)
    ensures forall id :: id in IdsOf(a) <==> id in IdsOf(b)
  {
    SameIds(a, b);
    SameIds(b, a);
    forall id
      ensures id in IdsOf(a) <==> id in IdsOf(b)
    {
      assert id in Members(IdsOf(a)) <==> id in Members(IdsOf(b));
    }
  }

  lemma EarlinessOfSet(a: seq<Record>, b: seq<Record>)
    requires Members(a) == Members(b) && UniqueIds(a)
    ensures Earliness(a) == Earliness(b)
  {
    SameDomain(a, b);
    forall id | id in IdsOf(a)
      ensures TimeOf(a, id) == TimeOf(b, id)
    {
      UniqueIdsOfSet(a, b);
      SameTime(a, b, id);
    }
  }

  /** Nor does it without one. */
  lemma TimeOrderDependsOnSet(a: seq<Record>, b: seq<Record>, w: Weights, ra: seq<string>, rb: seq<string>)
    requires Members(a) == Members(b) && UniqueIds(a)
    requires IsOrderOf(FusedByTime(Earliness(a), w), ra) && IsOrderOf(FusedByTime(Earliness(b), w), rb)
    ensures ra == rb
  {
    EarlinessOfSet(a, b);
    OrderIsUnique(FusedByTime(Earliness(a), w), ra, rb);
  }

  // ---- without a query the order is chronological ---------------------------------------------------

  lemma OnlyStaticScore(ranks: map<string, nat>, w: Weights, id: string)
    ensures FusedScore(OnlyStatic(ranks), w, id)
         == Component(w.wStatic, w.k, ranks, id) + Boost(w.maxTagBoost, map[], "") + Boost(w.maxScaleBoost, map[], "")
  {
  }

  lemma TimeComponent(earliness: map<string, real>, weight: real, k: nat, a: string, b: string)
    requires a in earliness && b in earliness && a != b && Precedes(earliness, a, b)
    ensures weight > 0.0 ==> Component(weight, k, RankMap(earliness), a) > Component(weight, k, RankMap(earliness), b)
    ensures weight == 0.0 ==> Component(weight, k, RankMap(earliness), a) == Component(weight, k, RankMap(earliness), b)
  {
    BetterHasSmallerRank(earliness, a, b);
    Weighted(weight, RankMap(earliness)[a] + k, RankMap(earliness)[b] + k);
  }

  lemma Weighted(weight: real, m: nat, n: nat)
    requires 0 < m < n
    ensures weight > 0.0 ==> weight * Reciprocal(m) > weight * Reciprocal(n)
    ensures weight == 0.0 ==> weight * Reciprocal(m) == weight * Reciprocal(n)
  {
    ReciprocalShrinks(m, n);
    if weight > 0.0 {
      Scale(weight, Reciprocal(n), Reciprocal(m));
    }
  }

  lemma TimeScore(earliness: map<string, real>, w: Weights, a: string, b: string)
    requires a in earliness && b in earliness && a != b && Precedes(earliness, a, b)
    ensures w.wStatic > 0.0 ==> Get(FusedByTime(earliness, w), a) > Get(FusedByTime(earliness, w), b)
    ensures w.wStatic == 0.0 ==> Get(FusedByTime(earliness, w), a) == Get(FusedByTime(earliness, w), b)
  {
    TimeComponent(earliness, w.wStatic, w.k, a, b);
    OnlyStaticScore(RankMap(earliness), w, a);
    OnlyStaticScore(RankMap(earliness), w, b);
  }

  /** With a positive static weight the result is exactly chronological, ids breaking ties. */
  lemma NoQueryIsChronological(earliness: map<string, real>, w: Weights, r: seq<string>)
    requires w.wStatic > 0.0 && IsOrderOf(FusedByTime(earliness, w), r)
    ensures IsOrderOf(earliness, r)
  {
    PrecedesIsOrder(earliness);
    forall i, j | 0 <= i < j < |r|
      ensures ByScore(earliness)(r[i], r[j])
    {
      assert r[i] in Members(r) && r[j] in Members(r);
      assert ByScore(FusedByTime(earliness, w))(r[i], r[j]);
      assert ByScore(earliness)(r[i], r[j]) || ByScore(earliness)(r[j], r[i]);
      if Precedes(earliness, r[j], r[i]) {
        TimeScore(earliness, w, r[j], r[i]);
      }
    }
  }

  /** With a zero static weight time is lost and only the ids order the result. */
  lemma ZeroWeightIsIdOrder(earliness: map<string, real>, w: Weights, r: seq<string>)
    requires w.wStatic == 0.0 && IsOrderOf(FusedByTime(earliness, w), r)
    ensures forall i, j :: 0 <= i < j < |r| ==> IdLe(r[i], r[j])
  {
    PrecedesIsOrder(earliness);
    forall i, j | 0 <= i < j < |r|
      ensures IdLe(r[i], r[j])
    {
      assert r[i] in Members(r) && r[j] in Members(r);
      assert ByScore(FusedByTime(earliness, w))(r[i], r[j]);
      assert ByScore(earliness)(r[i], r[j]) || ByScore(earliness)(r[j], r[i]);
      if Precedes(earliness, r[i], r[j]) {
        TimeScore(earliness, w, r[i], r[j]);
      } else {
        TimeScore(earliness, w, r[j], r[i]);
      }
    }
  }

  // ---- a record that is nowhere worse is not placed after ---------------------------------------------

  /** At least as relevant, and where the two tie the id decides for `a`. */
  predicate AsRelevant(s: map<string, real>, a: string, b: string) {
    b in s ==> a in s && (s[a] > s[b] || (s[a] == s[b] && IdLe(a, b)))
  }

  lemma AsRelevantIsRanked(s: map<string, real>, a: string, b: string)
    requires AsRelevant(s, a, b)
    ensures RankedAsWell(RankMap(s), a, b)
  {
    if b in s && a != b {
      BetterHasSmallerRank(s, a, b);
    }
  }

  predicate NowhereWorse(ids: set<string>, q: Relevance, a: string, b: string) {
    && AsRelevant(q.staticText, a, b) && AsRelevant(q.dynamicText, a, b) && AsRelevant(Combined(ids, q), a, b)
    && Get(q.tagBoost, a) >= Get(q.tagBoost, b) && Get(q.scaleBoost, a) >= Get(q.scaleBoost, b)
  }

  /** Once `b` is returned, a candidate `a` that is nowhere worse is returned too; it is placed
      before `b`, unless both end with the same fused score and the id of `b` is smaller. */
  lemma NowhereWorseComesFirst(ids: set<string>, q: Relevance, w: Weights, r: seq<string>, a: string, b: string)
    requires NonNegative(w) && IsOrderOf(Fused(ids, q, w), r) && a in ids && a != b && b in r
    requires NowhereWorse(ids, q, a, b)
    ensures a in r
    ensures PlacedBefore(r, a, b) <==> Fused(ids, q, w)[a] > Fused(ids, q, w)[b] || IdLe(a, b)
    ensures Fused(ids, q, w)[a] >= Fused(ids, q, w)[b]
  {
    var m := Fused(ids, q, w);
    assert b in Members(r) && b in m;
    assert a in m;
    assert a in Members(r);
    AsRelevantIsRanked(q.staticText, a, b);
    AsRelevantIsRanked(q.dynamicText, a, b);
    AsRelevantIsRanked(Combined(ids, q), a, b);
    DominantScoresHigher(ChannelsOf(ids, q), w, a, b);
    OrderDecides(m, r, a, b);
  }

  // ---- and a record that is somewhere worse can be placed after ---------------------------------------

  function MinOf(boosts: map<string, real>, a: string, b: string): real {
    MinR(Get(boosts, a), Get(boosts, b))
  }

  /** Weights that count nothing: both boosts are capped where the two records agree. */
  function NoWeight(c: Channels, k: nat, a: string, b: string): Weights {
    Weights(k, 0.0, 0.0, 0.0, MinOf(c.tagBoost, a, b), MinOf(c.scaleBoost, a, b))
  }

  /** A list that weighs nothing adds nothing, and the capped boosts add the same to both. */
  lemma NoWeightScore(c: Channels, k: nat, a: string, b: string, id: string, w: Weights)
    requires id == a || id == b
    requires w.k == k && w.maxTagBoost == MinOf(c.tagBoost, a, b) && w.maxScaleBoost == MinOf(c.scaleBoost, a, b)
    ensures FusedScore(c, w, id)
         == Component(w.wStatic, k, c.staticRanks, id) + Component(w.wDynamic, k, c.dynamicRanks, id)
            + Component(w.wVector, k, c.vectorRanks, id) + MinOf(c.tagBoost, a, b) + MinOf(c.scaleBoost, a, b)
  {
  }

  lemma NothingWeighed(k: nat, ranks: map<string, nat>, id: string)
    ensures Component(0.0, k, ranks, id) == 0.0
  {
  }

  lemma NoWeightTies(c: Channels, k: nat, a: string, b: string)
    ensures FusedScore(c, NoWeight(c, k, a, b), a) == FusedScore(c, NoWeight(c, k, a, b), b)
  {
  }

  /** One channel alone decides. */
  lemma OneChannelDecides(c: Channels, k: nat, a: string, b: string, w: Weights)
    requires var none := NoWeight(c, k, a, b);
             w in {none.(wStatic := 1.0), none.(wDynamic := 1.0), none.(wVector := 1.0)}
    requires w.wStatic == 1.0 ==> Component(1.0, k, c.staticRanks, a) < Component(1.0, k, c.staticRanks, b)
    requires w.wDynamic == 1.0 ==> Component(1.0, k, c.dynamicRanks, a) < Component(1.0, k, c.dynamicRanks, b)
    requires w.wVector == 1.0 ==> Component(1.0, k, c.vectorRanks, a) < Component(1.0, k, c.vectorRanks, b)
    ensures FusedScore(c, w, a) < FusedScore(c, w, b)
  {
    NoWeightScore(c, k, a, b, a, w);
    NoWeightScore(c, k, a, b, b, w);
    forall ranks, id | ranks in {c.staticRanks, c.dynamicRanks, c.vectorRanks} && id in {a, b}
      ensures Component(0.0, k, ranks, id) == 0.0
    {
      NothingWeighed(k, ranks, id);
    }
  }

  /** Where `a` is worse in a channel, that channel alone scores it lower. */
  lemma WorseChannelLoses(s: map<string, real>, k: nat, a: string, b: string)
    requires !AsRelevant(s, a, b)
    ensures Component(1.0, k, RankMap(s), a) < Component(1.0, k, RankMap(s), b)
  {
    var ranks := RankMap(s);
    ReciprocalShrinks(ranks[b] + k, ranks[b] + k);
    if a in s {
      PrecedesIsOrder(s);
      IdLeTotal(a, b);
      assert a != b && Precedes(s, b, a);
      BetterHasSmallerRank(s, b, a);
      ReciprocalShrinks(ranks[b] + k, ranks[a] + k);
    }
  }

  /** Where `a` is somewhere worse, some non-negative weights score it strictly lower, for every
      smoothing constant; their caps are not negative either where the boosts are not. */
  lemma SomewhereWorseLoses(ids: set<string>, q: Relevance, k: nat, a: string, b: string) returns (w: Weights)
    requires !NowhereWorse(ids, q, a, b)
    ensures NonNegative(w) && w.k == k && FusedScore(ChannelsOf(ids, q), w, a) < FusedScore(ChannelsOf(ids, q), w, b)
    ensures (forall id :: Get(q.tagBoost, id) >= 0.0 && Get(q.scaleBoost, id) >= 0.0) ==> w.maxTagBoost >= 0.0 && w.maxScaleBoost >= 0.0
  {
    var c := ChannelsOf(ids, q);
    var none := NoWeight(c, k, a, b);
    if !AsRelevant(q.staticText, a, b) {
      WorseChannelLoses(q.staticText, k, a, b);
      w := none.(wStatic := 1.0);
      OneChannelDecides(c, k, a, b, w);
    } else if !AsRelevant(q.dynamicText, a, b) {
      WorseChannelLoses(q.dynamicText, k, a, b);
      w := none.(wDynamic := 1.0);
      OneChannelDecides(c, k, a, b, w);
    } else if !AsRelevant(Combined(ids, q), a, b) {
      WorseChannelLoses(Combined(ids, q), k, a, b);
      w := none.(wVector := 1.0);
      OneChannelDecides(c, k, a, b, w);
    } else if Get(q.tagBoost, a) < Get(q.tagBoost, b) {
      w := none.(maxTagBoost := Get(q.tagBoost, b));
    } else {
      w := none.(maxScaleBoost := Get(q.scaleBoost, b));
    }
  }

  /** No non-negative weights score `a` below `b` if and only if `a` is nowhere worse: at least as
      relevant in every channel, with the smaller id where the two tie, and boosted as much. */
  lemma NeverBelowExactlyWhen(ids: set<string>, q: Relevance, k: nat, a: string, b: string)
    ensures NowhereWorse(ids, q, a, b)
       <==> forall w :: NonNegative(w) && w.k == k ==> FusedScore(ChannelsOf(ids, q), w, a) >= FusedScore(ChannelsOf(ids, q), w, b)
  {
    if NowhereWorse(ids, q, a, b) {
      AsRelevantIsRanked(q.staticText, a, b);
      AsRelevantIsRanked(q.dynamicText, a, b);
      AsRelevantIsRanked(Combined(ids, q), a, b);
      forall w | NonNegative(w) && w.k == k
        ensures FusedScore(ChannelsOf(ids, q), w, a) >= FusedScore(ChannelsOf(ids, q), w, b)
      {
        DominantScoresHigher(ChannelsOf(ids, q), w, a, b);
      }
    } else {
      var w := SomewhereWorseLoses(ids, q, k, a, b);
    }
  }

  /** All non-negative weights place `a` before `b`. */
  ghost predicate AlwaysFirst(ids: set<string>, q: Relevance, k: nat, a: string, b: string) {
    forall w :: NonNegative(w) && w.k == k ==> Precedes(Fused(ids, q, w), a, b)
  }

  /** Among returned records, `a` comes before `b` under all non-negative weights if and only if it
      is nowhere worse and has the smaller id. */
  lemma FirstExactlyWhen(ids: set<string>, q: Relevance, k: nat, a: string, b: string)
    requires a in Matched(ids, q) && b in Matched(ids, q) && a != b
    ensures AlwaysFirst(ids, q, k, a, b) <==> NowhereWorse(ids, q, a, b) && IdLe(a, b)
  {
    NeverBelowExactlyWhen(ids, q, k, a, b);
    var c := ChannelsOf(ids, q);
    if AlwaysFirst(ids, q, k, a, b) {
      var none := NoWeight(c, k, a, b);
      NoWeightTies(c, k, a, b);
      assert NonNegative(none) && Precedes(Fused(ids, q, none), a, b);
      forall w | NonNegative(w) && w.k == k
        ensures FusedScore(c, w, a) >= FusedScore(c, w, b)
      {
        assert Precedes(Fused(ids, q, w), a, b);
      }
    }
  }

  /** In particular a tie costs: whenever `a` ties with a smaller id in some channel, however much
      more relevant it is in all others, weights exist that place it after. */
  lemma TieInOneChannelCanReverse(ids: set<string>, q: Relevance, k: nat, a: string, b: string) returns (w: Weights)
    requires a != b && IdLe(b, a)
    requires || (a in q.staticText && b in q.staticText && q.staticText[a] == q.staticText[b])
             || (a in q.dynamicText && b in q.dynamicText && q.dynamicText[a] == q.dynamicText[b])
             || (a in Combined(ids, q) && b in Combined(ids, q) && Combined(ids, q)[a] == Combined(ids, q)[b])
    ensures NonNegative(w) && w.k == k && FusedScore(ChannelsOf(ids, q), w, a) < FusedScore(ChannelsOf(ids, q), w, b)
  {
    IdLeTotal(a, b);
    w := SomewhereWorseLoses(ids, q, k, a, b);
  }

  // ---- what the channels, the modes and the order mean for the answer -------------------------------

  /** Some channel the mode asks for knows the record: its text, or, where vectors count, a cosine. */
  predicate Known(q: Relevance, mode: SearchMode, wantVector: bool, id: string) {
    || (mode != DynamicEvent && (id in q.staticText || (wantVector && id in q.staticVector)))
    || (mode != StaticAttribute && (id in q.dynamicText || (wantVector && id in q.dynamicVector)))
  }

  /** A candidate is ranked if and only if some channel knows it, or none knows any candidate. */
  lemma RankedExactlyWhen(ids: set<string>, q: Relevance, mode: SearchMode, wantVector: bool, w: Weights, id: string)
    requires WithinIds(q, ids)
    ensures id in Fused(ids, Active(q, mode, wantVector), w) <==>
              id in ids && (Known(q, mode, wantVector, id) || forall x :: x in ids ==> !Known(q, mode, wantVector, x))
  {
    var a := Active(q, mode, wantVector);
    forall x
      ensures x in a.staticText.Keys + a.dynamicText.Keys + Combined(ids, a).Keys <==> x in ids && Known(q, mode, wantVector, x)
    {
    }
  }

  /** A mode that asks for one side ignores the other: what the other side's text and vectors say
      cannot change the answer; nor can any vector when vectors are off. */
  lemma IgnoredChannels(q1: Relevance, q2: Relevance, wantVector: bool)
    requires q1.tagBoost == q2.tagBoost && q1.scaleBoost == q2.scaleBoost
    ensures q1.staticText == q2.staticText && (wantVector ==> q1.staticVector == q2.staticVector) ==>
              Active(q1, StaticAttribute, wantVector) == Active(q2, StaticAttribute, wantVector)
    ensures q1.dynamicText == q2.dynamicText && (wantVector ==> q1.dynamicVector == q2.dynamicVector) ==>
              Active(q1, DynamicEvent, wantVector) == Active(q2, DynamicEvent, wantVector)
    ensures q1.staticText == q2.staticText && q1.dynamicText == q2.dynamicText ==>
              Active(q1, Hybrid, false) == Active(q2, Hybrid, false)
  {
  }

  /** The other modes use everything, and a side that is asked for is used as it is. */
  lemma UsedChannels(q: Relevance)
    ensures Active(q, Hybrid, true) == q && Active(q, AutoByExternalAi, true) == q
    ensures Active(q, StaticAttribute, true).staticText == q.staticText && Active(q, StaticAttribute, true).staticVector == q.staticVector
    ensures Active(q, DynamicEvent, true).dynamicText == q.dynamicText && Active(q, DynamicEvent, true).dynamicVector == q.dynamicVector
    ensures forall mode, v :: Active(q, mode, v).tagBoost == q.tagBoost && Active(q, mode, v).scaleBoost == q.scaleBoost
  {
  }

  /** The vector relevance is the larger cosine a candidate has. */
  lemma CombinedMeaning(ids: set<string>, q: Relevance, id: string)
    ensures id in Combined(ids, q) <==> id in ids && (id in q.staticVector || id in q.dynamicVector)
    ensures id in Combined(ids, q) ==>
              && (id in q.staticVector ==> Combined(ids, q)[id] >= q.staticVector[id])
              && (id in q.dynamicVector ==> Combined(ids, q)[id] >= q.dynamicVector[id])
              && ((id in q.staticVector && Combined(ids, q)[id] == q.staticVector[id])
                  || (id in q.dynamicVector && Combined(ids, q)[id] == q.dynamicVector[id]))
  {
  }

  /** Without a query the earlier record comes first, and of two at the same time the one with the
      smaller id; no record is missing. */
  lemma {:induction false} EarlierComesFirst(records: seq<Record>, w: Weights, r: seq<string>, x: Record, y: Record)
    requires w.wStatic > 0.0 && UniqueIds(records) && IsOrderOf(FusedByTime(Earliness(records), w), r)
    requires x in records && y in records && x != y
    ensures x.id in r && y.id in r
    ensures PlacedBefore(r, x.id, y.id) <==> x.time < y.time || (x.time == y.time && IdLe(x.id, y.id))
  {
    var earliness := Earliness(records);
    NoQueryIsChronological(earliness, w, r);
    TimeOfRecord(records, x);
    TimeOfRecord(records, y);
    InIds(records, x);
    InIds(records, y);
    assert x.id in Members(r) && y.id in Members(r);
    OrderDecides(earliness, r, x.id, y.id);
  }

  lemma {:induction false} InIds(records: seq<Record>, x: Record)
    requires x in records
    ensures x.id in IdsOf(records) && x.id in Earliness(records)
  {
    var i :| 0 <= i < |records| && records[i] == x;
    assert IdsOf(records)[i] == x.id;
  }
}
