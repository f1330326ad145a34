/** Choosing the frames of a segment that are sent to the model. */
module FrameSelection {
  import opened Statuses
  import opened Arith
  import opened Orders

  datatype Frame = Frame(index: int, ts: int, motion: real, scene: real, blur: real, brightness: real)

  datatype Params = Params(wMotion: real, wScene: real, wQuality: real, minBlur: real, bins: Option<int>)

  datatype Strategy = Uniform | TopScore | BinsThenScore

  predicate QualityOk(p: Params, f: Frame) {
    f.blur >= p.minBlur && 16.0 <= f.brightness <= 240.0
  }

  function Sharpness(f: Frame): real {
    (if f.blur <= 500.0 then f.blur else 500.0) / 500.0
  }

  function Composite(p: Params, f: Frame): real {
    p.wMotion * f.motion + p.wScene * f.scene + p.wQuality * Sharpness(f)
  }

  /** `f` is at least as good as `g`: a higher score, or the same score and an earlier frame. */
  predicate Better(p: Params, f: Frame, g: Frame) {
    BetterBy(Composite(p, f), f.index, Composite(p, g), g.index)
  }

  predicate BetterBy(a: real, i: int, b: real, j: int) {
    a > b || (a == b && i <= j)
  }

  function ByScore(p: Params): (Frame, Frame) -> bool {
    (f, g) => Better(p, f, g)
  }

  predicate TimeLe(f: Frame, g: Frame) {
    f.ts < g.ts || (f.ts == g.ts && f.index <= g.index)
  }

  /** Frame indices identify frames. */
  ghost predicate UniqueIndices(s: seq<Frame>) {
    forall i, j :: 0 <= i < j < |s| ==> s[i].index != s[j].index
  }

  lemma ScoreOrder(p: Params)
    ensures TotalPreorder(ByScore(p))
  {
  }

  lemma UniqueIsTieless(s: seq<Frame>, p: Params)
    requires UniqueIndices(s)
    ensures Distinct(s) && NoTies(s, TimeLe) && NoTies(s, ByScore(p))
    ensures forall f, g :: f in s && g in s && f.index == g.index ==> f == g
    ensures forall f, g :: f in s && g in s && Better(p, f, g) && Better(p, g, f) ==> f == g
  {
  }

  // ---- eligible frames -------------------------------------------------------------------

  function Filter(p: Params, s: seq<Frame>): (r: seq<Frame>)
    ensures forall f :: f in r <==> f in s && QualityOk(p, f)
  {
    if s == [] then []
    else
      var n := |s| - 1;
      assert s == s[..n] + [s[n]];
      Filter(p, s[..n]) + if QualityOk(p, s[n]) then [s[n]] else []
  }

  lemma {:induction false} FilterKeepsOrder(p: Params, s: seq<Frame>)
    requires SortedBy(s, TimeLe)
    ensures SortedBy(Filter(p, s), TimeLe)
  {
    if s != [] {
      var n := |s| - 1;
      FilterKeepsOrder(p, s[..n]);
      var r := Filter(p, s[..n]);
      assert forall i :: 0 <= i < |r| ==> r[i] in s[..n];
    }
  }

  lemma {:induction false} FilterKeepsUnique(p: Params, s: seq<Frame>)
    requires UniqueIndices(s)
    ensures UniqueIndices(Filter(p, s))
  {
    if s != [] {
      var n := |s| - 1;
      FilterKeepsUnique(p, s[..n]);
      var r := Filter(p, s[..n]);
      assert forall i :: 0 <= i < |r| ==> r[i] in s[..n];
    }
  }

  function Ordered(scores: seq<Frame>): seq<Frame> {
    SortBy(scores, TimeLe)
  }

  /** The frames that pass the quality gate, or all of them when none does. */
  function Eligible(p: Params, ordered: seq<Frame>): seq<Frame> {
    var passed := Filter(p, ordered);
    if passed != [] then passed else ordered
  }

  lemma OrderedFacts(scores: seq<Frame>)
    ensures SortedBy(Ordered(scores), TimeLe) && multiset(Ordered(scores)) == multiset(scores)
    ensures UniqueIndices(scores) ==> UniqueIndices(Ordered(scores))
  {
    SortBySorts(scores, TimeLe);
    if UniqueIndices(scores) {
      var o := Ordered(scores);
      SameMembers(scores, o);
      assert Distinct(scores);
      DistinctPermuted(scores, o);
      assert forall f, g :: f in scores && g in scores && f.index == g.index ==> f == g;
      forall i, j | 0 <= i < j < |o|
        ensures o[i].index != o[j].index
      {
        assert o[i] in scores && o[j] in scores && o[i] != o[j];
      }
    }
  }

  /** The order in which frames arrive does not matter. */
  lemma OrderedIsCanonical(a: seq<Frame>, b: seq<Frame>)
    requires UniqueIndices(a) && multiset(a) == multiset(b)
    ensures Ordered(a) == Ordered(b)
  {
    OrderedFacts(a);
    SortBySorts(b, TimeLe);
    UniqueIsTieless(Ordered(a), Params(0.0, 0.0, 0.0, 0.0, None));
    SortedUnique(Ordered(a), Ordered(b), TimeLe);
  }

  // ---- the best k frames around a set that must be in --------------------------------------

  /** `r` holds as many of `e` as the budget allows, all of `must`, and beyond `must` only
      frames better than everything left out. */
  ghost predicate IsTop(p: Params, e: seq<Frame>, must: set<Frame>, k: nat, r: seq<Frame>) {
    && Distinct(r) && |r| == Min(k, |e|)
    && (forall f :: f in r ==> f in e)
    && (forall f :: f in must ==> f in r)
    && (forall f, g :: f in r && f !in must && g in e && g !in r ==> Better(p, f, g))
  }

  /** Two selections cannot each hold a frame the other lacks. */
  lemma NoExchange(p: Params, e: seq<Frame>, must: set<Frame>, k: nat, a: seq<Frame>, b: seq<Frame>, f: Frame, g: Frame)
    requires UniqueIndices(e) && IsTop(p, e, must, k, a) && IsTop(p, e, must, k, b) && f in a && g in b
    ensures f in b || g in a
  {
    assert f !in b && g !in a ==> Better(p, f, g) && Better(p, g, f);
    UniqueIsTieless(e, p);
  }

  /** The selection is determined: two selections have the same frames. */
  lemma TopIsUnique(p: Params, e: seq<Frame>, must: set<Frame>, k: nat, a: seq<Frame>, b: seq<Frame>)
    requires UniqueIndices(e) && IsTop(p, e, must, k, a) && IsTop(p, e, must, k, b)
    ensures Members(a) == Members(b)
  {
    MembersSize(a);
    MembersSize(b);
    var onlyA, onlyB := Members(a) - Members(b), Members(b) - Members(a);
    var both := Members(a) * Members(b);
    assert Members(a) == onlyA + both && Members(b) == onlyB + both;
    assert |onlyA| == |onlyB|;
    if onlyA != {} {
      var f :| f in onlyA;
      var g :| g in onlyB;
      NoExchange(p, e, must, k, a, b, f, g);
    }
  }

  // ---- time buckets ----------------------------------------------------------------------------

  datatype Bins = Bins(t0: int, span: nat, count: nat)

  ghost predicate BinsOk(b: Bins, e: seq<Frame>) {
    b.span > 0 && b.count > 0 && forall f :: f in e ==> b.t0 <= f.ts < b.t0 + b.span
  }

  function Bucket(b: Bins, f: Frame): int
    requires b.span > 0
  {
    Min(b.count - 1, (f.ts - b.t0) * b.count / b.span)
  }

  /** Buckets divide the span evenly: bucket `i` holds the frames from `t0 + i/count` of the
      span up to `t0 + (i+1)/count` of it. */
  lemma BucketBounds(b: Bins, f: Frame)
    requires b.span > 0 && b.count > 0 && b.t0 <= f.ts < b.t0 + b.span
    ensures 0 <= Bucket(b, f) < b.count
    ensures Bucket(b, f) * b.span <= (f.ts - b.t0) * b.count < (Bucket(b, f) + 1) * b.span
  {
    var x := (f.ts - b.t0) * b.count;
    QuotientBounds(x, b.span);
    MulMono(f.ts - b.t0, b.span - 1, b.count);
    MulMono(b.span - 1, b.span, b.count);
    assert (b.span - 1) * b.count == b.span * b.count - b.count;
    assert x < b.count * b.span;
    MulStep(b.count - 1, x / b.span, b.span);
    QuotientMono(0, x, b.span);
    assert (x / b.span + 1) * b.span == (x / b.span) * b.span + b.span;
  }

  /** Best frame of its bucket. */
  ghost predicate Wins(p: Params, b: Bins, e: seq<Frame>, f: Frame)
    requires b.span > 0
  {
    f in e && forall g :: g in e && Bucket(b, g) == Bucket(b, f) ==> Better(p, f, g)
  }

  ghost function Winners(p: Params, b: Bins, e: seq<Frame>): set<Frame>
    requires b.span > 0
  {
    set f | f in e && Wins(p, b, e, f)
  }

  /** The first best frame. */
  function BestOf(p: Params, s: seq<Frame>): (w: Frame)
    requires s != []
    ensures w in s && forall g :: g in s ==> Better(p, w, g)
  {
    var n := |s| - 1;
    assert s == s[..n] + [s[n]];
    if n == 0 then s[n]
    else
      var w := BestOf(p, s[..n]);
      if Better(p, w, s[n]) then w else s[n]
  }

  function InBucket(b: Bins, e: seq<Frame>, i: int): (r: seq<Frame>)
    requires b.span > 0
    ensures forall f :: f in r <==> f in e && Bucket(b, f) == i
  {
    if e == [] then []
    else
      var n := |e| - 1;
      assert e == e[..n] + [e[n]];
      InBucket(b, e[..n], i) + if Bucket(b, e[n]) == i then [e[n]] else []
  }

  /** Every frame is matched or beaten by the winner of its bucket. */
  lemma BucketHasWinner(p: Params, b: Bins, e: seq<Frame>, g: Frame) returns (w: Frame)
    requires b.span > 0 && g in e
    ensures w in Winners(p, b, e) && Bucket(b, w) == Bucket(b, g) && Better(p, w, g)
  {
    assert g in InBucket(b, e, Bucket(b, g));
    w := BestOf(p, InBucket(b, e, Bucket(b, g)));
  }

  /** Whatever is left out, the best frame of its own bucket is in and at least as good. */
  lemma LeftOutIsDominated(p: Params, b: Bins, e: seq<Frame>, k: nat, r: seq<Frame>, g: Frame)
    requires b.span > 0 && IsTop(p, e, Winners(p, b, e), k, r) && g in e && g !in r
    ensures exists w :: w in r && Bucket(b, w) == Bucket(b, g) && Better(p, w, g)
  {
    var w := BucketHasWinner(p, b, e, g);
  }

  /** One pass over the eligible frames fills the buckets. */
  method FillBuckets(b: Bins, e: seq<Frame>) returns (buckets: seq<seq<Frame>>)
    requires BinsOk(b, e)
    ensures |buckets| == b.count && forall i :: 0 <= i < b.count ==> buckets[i] == InBucket(b, e, i)
  {
    buckets := seq(b.count, _ => []);
    var n := 0;
    while n < |e|
      invariant 0 <= n <= |e| && |buckets| == b.count
      invariant forall i :: 0 <= i < b.count ==> buckets[i] == InBucket(b, e[..n], i)
    {
      BucketBounds(b, e[n]);
      var i := Min(b.count - 1, (e[n].ts - b.t0) * b.count / b.span);
      assert e[..n + 1][..n] == e[..n];
      buckets := buckets[i := buckets[i] + [e[n]]];
      n := n + 1;
    }
    assert e[..n] == e;
  }

  ghost predicate PicksBelow(p: Params, b: Bins, e: seq<Frame>, i: int, picked: seq<Frame>)
    requires b.span > 0
  {
    && Distinct(picked) && |picked| <= i
    && forall f :: f in picked <==> f in Winners(p, b, e) && Bucket(b, f) < i
  }

  lemma PickNext(p: Params, b: Bins, e: seq<Frame>, i: nat, picked: seq<Frame>)
    requires b.span > 0 && UniqueIndices(e) && PicksBelow(p, b, e, i, picked)
    ensures var s := InBucket(b, e, i);
            PicksBelow(p, b, e, i + 1, if s == [] then picked else picked + [BestOf(p, s)])
  {
    var s := InBucket(b, e, i);
    UniqueIsTieless(e, p);
    if s == [] {
      forall f | f in Winners(p, b, e)
        ensures Bucket(b, f) != i
      {
        assert f !in s;
      }
    } else {
      var w := BestOf(p, s);
      forall f | f in Winners(p, b, e) && Bucket(b, f) == i
        ensures f == w
      {
        assert f in s && Better(p, w, f) && Better(p, f, w);
      }
    }
  }

  /** The best frames of the first `i` buckets. */
  function BestUpTo(p: Params, b: Bins, e: seq<Frame>, i: nat): (picked: seq<Frame>)
    requires b.span > 0
    ensures |picked| <= i && forall f :: f in picked ==> f in e
  {
    if i == 0 then []
    else
      var s := InBucket(b, e, i - 1);
      BestUpTo(p, b, e, i - 1) + if s == [] then [] else [BestOf(p, s)]
  }

  lemma {:induction false} BestAreWinners(p: Params, b: Bins, e: seq<Frame>, i: nat)
    requires BinsOk(b, e) && UniqueIndices(e)
    ensures PicksBelow(p, b, e, i, BestUpTo(p, b, e, i))
  {
    if i > 0 {
      BestAreWinners(p, b, e, i - 1);
      PickNext(p, b, e, i - 1, BestUpTo(p, b, e, i - 1));
    } else {
      forall f | f in e
        ensures Bucket(b, f) >= 0
      {
        BucketBounds(b, f);
      }
    }
  }

  /** The best frame of every non-empty bucket. */
  method PickWinners(p: Params, b: Bins, e: seq<Frame>, buckets: seq<seq<Frame>>) returns (picked: seq<Frame>)
    requires BinsOk(b, e) && |buckets| == b.count && forall i :: 0 <= i < b.count ==> buckets[i] == InBucket(b, e, i)
    ensures picked == BestUpTo(p, b, e, b.count)
  {
    picked := [];
    for i := 0 to |buckets|
      invariant picked == BestUpTo(p, b, e, i)
    {
      if buckets[i] != [] {
        picked := picked + [BestOf(p, buckets[i])];
      }
    }
  }

  // ---- filling the budget --------------------------------------------------------------------------

  function IndicesOf(s: seq<Frame>): set<int> {
    set f | f in s :: f.index
  }

  function NotChosen(e: seq<Frame>, chosen: set<int>): (r: seq<Frame>)
    ensures forall f :: f in r <==> f in e && f.index !in chosen
  {
    if e == [] then []
    else
      var n := |e| - 1;
      assert e == e[..n] + [e[n]];
      NotChosen(e[..n], chosen) + if e[n].index !in chosen then [e[n]] else []
  }

  lemma {:induction false} NotChosenUnique(e: seq<Frame>, chosen: set<int>)
    requires UniqueIndices(e)
    ensures UniqueIndices(NotChosen(e, chosen))
  {
    if e != [] {
      var n := |e| - 1;
      NotChosenUnique(e[..n], chosen);
      var r := NotChosen(e[..n], chosen);
      assert forall i :: 0 <= i < |r| ==> r[i] in e[..n];
    }
  }

  function Ranked(p: Params, s: seq<Frame>): seq<Frame> {
    SortBy(s, ByScore(p))
  }

  function TopUp(p: Params, e: seq<Frame>, k: nat, picked: seq<Frame>): seq<Frame> {
    var rest := Ranked(p, NotChosen(e, IndicesOf(picked)));
    picked + rest[..Min(|rest|, Max(0, k - |picked|))]
  }

  lemma RestFacts(p: Params, e: seq<Frame>, picked: seq<Frame>)
    requires UniqueIndices(e) && Distinct(picked) && forall f :: f in picked ==> f in e
    ensures var rest := Ranked(p, NotChosen(e, IndicesOf(picked)));
            && Distinct(rest) && |rest| + |picked| == |e| && SortedBy(rest, ByScore(p))
            && (forall f :: f in rest <==> f in e && f !in picked)
  {
    var rest := NotChosen(e, IndicesOf(picked));
    var ranked := Ranked(p, rest);
    NotChosenUnique(e, IndicesOf(picked));
    UniqueIsTieless(e, p);
    assert Distinct(rest);
    DistinctPermuted(rest, ranked);
    SameMembers(rest, ranked);
    ScoreOrder(p);
    SortBySorts(rest, ByScore(p));
    forall f | f in e
      ensures f.index in IndicesOf(picked) <==> f in picked
    {
    }
    MembersSize(rest);
    MembersSize(picked);
    MembersSize(e);
    assert Members(e) == Members(rest) + Members(picked);
    assert Members(rest) !! Members(picked);
  }

  lemma PrefixBetter(p: Params, rest: seq<Frame>, m: nat)
    requires m <= |rest| && SortedBy(rest, ByScore(p))
    ensures forall f, g :: f in rest[..m] && g in rest[m..] ==> Better(p, f, g)
  {
    forall f, g | f in rest[..m] && g in rest[m..]
      ensures Better(p, f, g)
    {
      var i :| 0 <= i < m && rest[i] == f;
      var j :| m <= j < |rest| && rest[j] == g;
      assert ByScore(p)(rest[i], rest[j]);
    }
  }

  lemma JoinIsTop(p: Params, e: seq<Frame>, picked: seq<Frame>, head: seq<Frame>, tail: seq<Frame>, k: nat)
    requires Distinct(picked) && Distinct(head) && |picked| + |head| == Min(k, |e|)
    requires forall f :: f in e <==> f in picked || f in head || f in tail
    requires forall f :: f in head ==> f !in picked
    requires forall f, g :: f in head && g in tail ==> Better(p, f, g)
    ensures IsTop(p, e, Members(picked), k, picked + head)
  {
    DistinctJoin(picked, head);
  }

  lemma SplitMembers(rest: seq<Frame>, m: nat)
    requires m <= |rest|
    ensures forall f :: f in rest <==> f in rest[..m] || f in rest[m..]
    ensures Distinct(rest) ==> Distinct(rest[..m])
  {
    assert rest == rest[..m] + rest[m..];
  }

  /** The best of the rest after the frames that must be in. */
  lemma FillFrom(p: Params, e: seq<Frame>, k: nat, picked: seq<Frame>, rest: seq<Frame>)
    requires Distinct(picked) && |picked| <= k && Distinct(rest) && |rest| + |picked| == |e| && SortedBy(rest, ByScore(p))
    requires forall f :: f in e <==> f in picked || f in rest
    requires forall f :: f in rest ==> f !in picked
    ensures IsTop(p, e, Members(picked), k, picked + rest[..Min(|rest|, Max(0, k - |picked|))])
  {
    var m := Min(|rest|, Max(0, k - |picked|));
    SplitMembers(rest, m);
    PrefixBetter(p, rest, m);
    JoinIsTop(p, e, picked, rest[..m], rest[m..], k);
  }

  lemma TopUpIsTop(p: Params, e: seq<Frame>, k: nat, picked: seq<Frame>)
    requires UniqueIndices(e) && Distinct(picked) && |picked| <= k
    requires forall f :: f in picked ==> f in e
    ensures IsTop(p, e, Members(picked), k, TopUp(p, e, k, picked))
  {
    RestFacts(p, e, picked);
    FillFrom(p, e, k, picked, Ranked(p, NotChosen(e, IndicesOf(picked))));
  }

  // ---- uniform selection ---------------------------------------------------------------------------

  /** `int(i * (n / k))` in exact arithmetic. */
  function UniformIndex(n: nat, k: nat, i: nat): int
    requires k > 0
  {
    (i as real * (n as real / k as real)).Floor
  }

  lemma UniformIndexIsQuotient(n: nat, k: nat, i: nat)
    requires k > 0
    ensures UniformIndex(n, k, i) == i * n / k
  {
    var q := i * n / k;
    QuotientBounds(i * n, k);
    var x := i as real * (n as real / k as real);
    assert x * k as real == (i * n) as real by {
      assert (n as real / k as real) * k as real == n as real;
      assert x * k as real == i as real * ((n as real / k as real) * k as real);
    }
    assert q as real * k as real == (q * k) as real;
    assert (q as real + 1.0) * k as real == (q * k + k) as real;
    CancelFactor(q as real, x, k as real);
    CancelFactor(q as real + 1.0, x, k as real);
  }

  lemma UniformIncreases(n: nat, k: nat, i: nat, j: nat)
    requires 0 < k <= n && i < j < k
    ensures i * n / k < j * n / k < n
  {
    MulStep(i, j, n);
    QuotientBounds(i * n, k);
    QuotientBounds(j * n, k);
    MulStep(j * n / k, i * n / k + 1, k);
    assert (i * n / k + 1) * k == (i * n / k) * k + k;
    MulMono(j, k - 1, n);
    assert (k - 1) * n == k * n - n;
    MulMono(n, Max(n, j * n / k), k);
  }

  /** Evenly spaced over the eligible frames. */
  ghost predicate IsUniform(e: seq<Frame>, k: nat, r: seq<Frame>)
    requires k > 0
  {
    if |e| <= k then r == e
    else |r| == k && forall i :: 0 <= i < k ==> 0 <= i * |e| / k < |e| && r[i] == e[i * |e| / k]
  }

  /** Spreading never repeats a frame, so removing repeated indices removes nothing. */
  lemma UniformIsUnique(e: seq<Frame>, k: nat, r: seq<Frame>)
    requires k > 0 && UniqueIndices(e) && IsUniform(e, k, r)
    ensures UniqueIndices(r) && |r| == Min(k, |e|) && (SortedBy(e, TimeLe) ==> SortedBy(r, TimeLe))
  {
    if |e| > k {
      forall i, j | 0 <= i < j < k
        ensures i * |e| / k < j * |e| / k
      {
        UniformIncreases(|e|, k, i, j);
      }
    }
  }

  method Spread(e: seq<Frame>, k: nat) returns (picked: seq<Frame>)
    requires 0 < k < |e|
    ensures IsUniform(e, k, picked)
  {
    picked := [];
    for i := 0 to k
      invariant |picked| == i
      invariant forall j :: 0 <= j < i ==> 0 <= j * |e| / k < |e| && picked[j] == e[j * |e| / k]
    {
      UniformIndexIsQuotient(|e|, k, i);
      UniformIndexInRange(|e|, k, i);
      picked := picked + [e[Min(|e| - 1, UniformIndex(|e|, k, i))]];
    }
  }

  lemma UniformIndexInRange(n: nat, k: nat, i: nat)
    requires i < k && n > 0
    ensures 0 <= i * n / k < n
  {
    MulStep(i, k, n);
    QuotientBounds(i * n, k);
    QuotientMono(0, i * n, k);
    MulMono(n, Max(n, i * n / k), k);
  }

  /** The first frame of every index. */
  method DropRepeated(picked: seq<Frame>) returns (kept: seq<Frame>)
    ensures UniqueIndices(kept) && |kept| <= |picked| && forall f :: f in kept ==> f in picked
    ensures UniqueIndices(picked) ==> kept == picked
  {
    var seen: set<int> := {};
    kept := [];
    for i := 0 to |picked|
      invariant UniqueIndices(kept) && |kept| <= i && forall f :: f in kept ==> f in picked
      invariant seen == IndicesOf(kept)
      invariant UniqueIndices(picked) ==> kept == picked[..i]
    {
      if picked[i].index !in seen {
        seen, kept := seen + {picked[i].index}, kept + [picked[i]];
      }
    }
  }

  // ---- the selection -----------------------------------------------------------------------------------

  function BinsOf(p: Params, ordered: seq<Frame>, k: nat): Bins
    requires ordered != []
  {
    var t0 := ordered[0].ts;
    var wanted := if p.bins.Some? then p.bins.value else k;
    Bins(t0, Max(1, ordered[|ordered| - 1].ts - t0 + 1), Max(1, Min(wanted, k)))
  }

  /** What the chosen frames are, strategy by strategy. */
  ghost predicate Picks(strategy: Strategy, p: Params, ordered: seq<Frame>, k: nat, r: seq<Frame>)
    requires k > 0 && ordered != []
  {
    var e := Eligible(p, ordered);
    match strategy
    case Uniform => IsUniform(e, k, r)
    case TopScore => IsTop(p, e, {}, k, r)
    case BinsThenScore => IsTop(p, e, Winners(p, BinsOf(p, ordered, k), e), k, r)
  }

  /** The chosen frames in time order. */
  ghost predicate IsSelection(strategy: Strategy, p: Params, scores: seq<Frame>, k: nat, r: seq<Frame>)
    requires k > 0 && scores != []
  {
    SortedBy(r, TimeLe) && Picks(strategy, p, Ordered(scores), k, r)
  }

  lemma EligibleFacts(p: Params, ordered: seq<Frame>, k: nat)
    requires SortedBy(ordered, TimeLe) && ordered != []
    ensures SortedBy(Eligible(p, ordered), TimeLe) && Eligible(p, ordered) != []
    ensures UniqueIndices(ordered) ==> UniqueIndices(Eligible(p, ordered))
    ensures forall f :: f in Eligible(p, ordered) ==> f in ordered
    ensures BinsOk(BinsOf(p, ordered, k), Eligible(p, ordered))
  {
    FilterKeepsOrder(p, ordered);
    if UniqueIndices(ordered) {
      FilterKeepsUnique(p, ordered);
    }
    forall f | f in ordered
      ensures ordered[0].ts <= f.ts <= ordered[|ordered| - 1].ts
    {
      var i :| 0 <= i < |ordered| && ordered[i] == f;
      assert i == 0 || TimeLe(ordered[0], f);
      assert i == |ordered| - 1 || TimeLe(f, ordered[|ordered| - 1]);
    }
  }

  lemma TopSorted(p: Params, e: seq<Frame>, must: set<Frame>, k: nat, r: seq<Frame>)
    requires IsTop(p, e, must, k, r)
    ensures IsTop(p, e, must, k, SortBy(r, TimeLe))
  {
    var o := SortBy(r, TimeLe);
    DistinctPermuted(r, o);
    SameMembers(r, o);
  }

  method PickBins(p: Params, ordered: seq<Frame>, e: seq<Frame>, k: nat) returns (picked: seq<Frame>)
    requires k > 0 && ordered != [] && SortedBy(ordered, TimeLe) && e == Eligible(p, ordered)
    ensures |picked| <= k && forall f :: f in picked ==> f in e
    ensures UniqueIndices(e) ==> IsTop(p, e, Winners(p, BinsOf(p, ordered, k), e), k, picked)
  {
    EligibleFacts(p, ordered, k);
    var b := BinsOf(p, ordered, k);
    var buckets := FillBuckets(b, e);
    var winners := PickWinners(p, b, e, buckets);
    picked := TopUp(p, e, k, winners);
    if UniqueIndices(e) {
      BestAreWinners(p, b, e, b.count);
      assert Members(winners) == Winners(p, b, e) by {
        forall f | f in Winners(p, b, e)
          ensures f in winners
        {
          BucketBounds(b, f);
        }
      }
      TopUpIsTop(p, e, k, winners);
    }
    TopUpStays(p, e, k, winners);
  }

  lemma TopUpStays(p: Params, e: seq<Frame>, k: nat, picked: seq<Frame>)
    requires |picked| <= k && forall f :: f in picked ==> f in e
    ensures |TopUp(p, e, k, picked)| <= k && forall f :: f in TopUp(p, e, k, picked) ==> f in e
  {
    var rest := NotChosen(e, IndicesOf(picked));
    SameMembers(rest, Ranked(p, rest));
    forall f | f in TopUp(p, e, k, picked)
      ensures f in e
    {
      assert f in picked || f in Ranked(p, rest);
    }
  }

  method PickUniform(e: seq<Frame>, k: nat) returns (picked: seq<Frame>)
    requires k > 0
    ensures |picked| <= k && forall f :: f in picked ==> f in e
    ensures UniqueIndices(e) ==> IsUniform(e, k, picked)
  {
    if |e| <= k {
      return e;
    }
    var spread := Spread(e, k);
    picked := DropRepeated(spread);
    if UniqueIndices(e) {
      UniformIsUnique(e, k, spread);
    }
  }

  method PickTop(p: Params, e: seq<Frame>, k: nat) returns (picked: seq<Frame>)
    requires k > 0
    ensures |picked| <= k && forall f :: f in picked ==> f in e
    ensures UniqueIndices(e) ==> IsTop(p, e, {}, k, picked)
  {
    var ranked := Ranked(p, e);
    SameMembers(e, ranked);
    picked := ranked[..Min(k, |ranked|)];
    if UniqueIndices(e) {
      UniqueIsTieless(e, p);
      DistinctPermuted(e, ranked);
      ScoreOrder(p);
      SortBySorts(e, ByScore(p));
      FillFrom(p, e, k, [], ranked);
      assert Members<Frame>([]) == {};
      assert [] + picked == picked;
    }
  }

  /** Sorting the picks by time leaves them the picks. */
  lemma SortedPicks(strategy: Strategy, p: Params, ordered: seq<Frame>, k: nat, picked: seq<Frame>)
    requires k > 0 && ordered != [] && SortedBy(ordered, TimeLe) && UniqueIndices(ordered)
    requires Picks(strategy, p, ordered, k, picked)
    ensures Picks(strategy, p, ordered, k, SortBy(picked, TimeLe))
  {
    var e := Eligible(p, ordered);
    EligibleFacts(p, ordered, k);
    match strategy
    case Uniform =>
      UniformIsUnique(e, k, picked);
      UniqueIsTieless(picked, p);
      SortBySorts(picked, TimeLe);
      SortedUnique(picked, SortBy(picked, TimeLe), TimeLe);
    case TopScore => TopSorted(p, e, {}, k, picked);
    case BinsThenScore => TopSorted(p, e, Winners(p, BinsOf(p, ordered, k), e), k, picked);
  }

  method Pick(strategy: Strategy, p: Params, ordered: seq<Frame>, k: nat) returns (picked: seq<Frame>)
    requires k > 0 && ordered != [] && SortedBy(ordered, TimeLe)
    ensures |picked| <= k && forall f :: f in picked ==> f in ordered
    ensures UniqueIndices(ordered) ==> Picks(strategy, p, ordered, k, picked)
  {
    var e := Eligible(p, ordered);
    EligibleFacts(p, ordered, k);
    match strategy {
      case Uniform => picked := PickUniform(e, k);
      case TopScore => picked := PickTop(p, e, k);
      case BinsThenScore => picked := PickBins(p, ordered, e, k);
    }
  }

  /** At most `k` of the frames, in time order, chosen as the strategy says whenever indices
      identify frames. */
  method SelectFrames(scores: seq<Frame>, k: int, strategy: Strategy, p: Params) returns (r: seq<Frame>)
    ensures k <= 0 || scores == [] ==> r == []
    ensures SortedBy(r, TimeLe) && |r| <= Max(0, k) && forall f :: f in r ==> f in scores
    ensures k > 0 && scores != [] && UniqueIndices(scores) ==> IsSelection(strategy, p, scores, k, r)
  {
    if k <= 0 || scores == [] {
      return [];
    }
    var ordered := Ordered(scores);
    OrderedFacts(scores);
    SameMembers(scores, ordered);
    var picked := Pick(strategy, p, ordered, k);
    r := SortBy(picked, TimeLe);
    SortBySorts(picked, TimeLe);
    SameMembers(picked, r);
    if UniqueIndices(scores) {
      SortedPicks(strategy, p, ordered, k, picked);
    }
  }

  /** There is one selection, and it does not depend on the order in which frames arrive. */
  lemma SelectionIsUnique(strategy: Strategy, p: Params, a: seq<Frame>, b: seq<Frame>, k: nat, ra: seq<Frame>, rb: seq<Frame>)
    requires k > 0 && a != [] && b != [] && UniqueIndices(a) && multiset(a) == multiset(b)
    requires IsSelection(strategy, p, a, k, ra) && IsSelection(strategy, p, b, k, rb)
    ensures ra == rb
  {
    OrderedIsCanonical(a, b);
    OrderedFacts(a);
    var ordered := Ordered(a);
    var e := Eligible(p, ordered);
    EligibleFacts(p, ordered, k);
    if strategy != Uniform {
      var must := if strategy == TopScore then {} else Winners(p, BinsOf(p, ordered, k), e);
      TopIsUnique(p, e, must, k, ra, rb);
      DistinctSameMembers(ra, rb);
      UniqueIsTieless(e, p);
      SortedUnique(ra, rb, TimeLe);
    }
  }

  /** The number of frames is exact, the frames are distinct, and a frame that fails the
      quality gate is chosen only when no frame passes. */
  lemma SelectionSize(strategy: Strategy, p: Params, scores: seq<Frame>, k: nat, r: seq<Frame>)
    requires k > 0 && scores != [] && UniqueIndices(scores) && IsSelection(strategy, p, scores, k, r)
    ensures Distinct(r) && |r| == Min(k, |Eligible(p, Ordered(scores))|) && r != []
    ensures forall f, g :: f in r && g in scores && GoodFrame(p.minBlur, g) ==> GoodFrame(p.minBlur, f)
  {
    OrderedFacts(scores);
    var ordered := Ordered(scores);
    var e := Eligible(p, ordered);
    EligibleFacts(p, ordered, k);
    SameMembers(scores, ordered);
    if strategy == Uniform {
      UniformIsUnique(e, k, r);
    }
    assert forall f :: f in r ==> f in e;
  }

  // ---- what a selection means for the frames -------------------------------------------------------

  /** Sharp enough and neither too dark nor too bright. */
  predicate GoodFrame(minBlur: real, f: Frame) {
    minBlur <= f.blur && 16.0 <= f.brightness && f.brightness <= 240.0
  }

  /** With room for all frames, every strategy returns the good ones, or all if none is good. */
  lemma RoomForAll(strategy: Strategy, p: Params, scores: seq<Frame>, k: nat, r: seq<Frame>)
    requires k >= |scores| > 0 && UniqueIndices(scores) && IsSelection(strategy, p, scores, k, r)
    ensures forall f :: f in r <==> f in scores && (GoodFrame(p.minBlur, f) || forall g :: g in scores ==> !GoodFrame(p.minBlur, g))
  {
    SelectionSize(strategy, p, scores, k, r);
    OrderedFacts(scores);
    SameMembers(scores, Ordered(scores));
    var e := Eligible(p, Ordered(scores));
    EligibleFacts(p, Ordered(scores), k);
    UniqueIsTieless(e, p);
    EligibleSize(p, Ordered(scores));
    MembersSize(r);
    MembersSize(e);
    assert forall f :: f in r ==> f in e;
    assert Members(r) <= Members(e);
    AllOfThem(Members(r), Members(e));
    forall f
      ensures f in r <==> f in e
    {
      assert f in r <==> f in Members(r);
      assert f in e <==> f in Members(e);
    }
    assert forall f :: GoodFrame(p.minBlur, f) <==> QualityOk(p, f);
  }

  lemma AllOfThem<T>(a: set<T>, b: set<T>)
    requires a <= b && |a| == |b|
    ensures a == b
  {
    assert b == a + (b - a);
  }

  lemma {:induction false} FilterSize(p: Params, s: seq<Frame>)
    ensures |Filter(p, s)| <= |s|
  {
    if s != [] {
      FilterSize(p, s[..|s| - 1]);
    }
  }

  lemma EligibleSize(p: Params, ordered: seq<Frame>)
    ensures |Eligible(p, ordered)| <= |ordered|
  {
    FilterSize(p, ordered);
  }

  /** The weighted sum a frame is ranked by: motion, scene change, and sharpness up to a cap. */
  function WeightedSum(p: Params, f: Frame): real {
    p.wMotion * f.motion + p.wScene * f.scene + p.wQuality * (if f.blur > 500.0 then 1.0 else f.blur / 500.0)
  }

  /** The better of two frames has the higher weighted sum, or the same and the lower index. */
  lemma BetterMeaning(p: Params, f: Frame, g: Frame)
    ensures Better(p, f, g) <==> WeightedSum(p, f) > WeightedSum(p, g) || (WeightedSum(p, f) == WeightedSum(p, g) && f.index <= g.index)
  {
  }

  /** Selection by score takes the frames with the highest weighted sums, lower indices first. */
  lemma TopScoresAreHighest(p: Params, scores: seq<Frame>, k: nat, r: seq<Frame>, f: Frame, g: Frame)
    requires k > 0 && scores != [] && UniqueIndices(scores) && IsSelection(TopScore, p, scores, k, r)
    requires f in r && g in scores && g !in r && GoodFrame(p.minBlur, g)
    ensures WeightedSum(p, f) > WeightedSum(p, g) || (WeightedSum(p, f) == WeightedSum(p, g) && f.index < g.index)
  {
    OrderedFacts(scores);
    SameMembers(scores, Ordered(scores));
    UniqueIsTieless(scores, p);
    var e := Eligible(p, Ordered(scores));
    assert QualityOk(p, g) && g in e && f in e && f in scores;
    assert Better(p, f, g);
    BetterMeaning(p, f, g);
    assert f != g;
  }

  /** Chronological, frames of the same instant by index. */
  lemma SelectionIsChronological(strategy: Strategy, p: Params, scores: seq<Frame>, k: nat, r: seq<Frame>, i: nat, j: nat)
    requires k > 0 && scores != [] && UniqueIndices(scores) && IsSelection(strategy, p, scores, k, r) && i < j < |r|
    ensures r[i].ts < r[j].ts || (r[i].ts == r[j].ts && r[i].index < r[j].index)
  {
    SelectionSize(strategy, p, scores, k, r);
    OrderedFacts(scores);
    SameMembers(scores, Ordered(scores));
    UniqueIsTieless(scores, p);
    EligibleFacts(p, Ordered(scores), k);
    assert r[i] in r && r[j] in r;
    assert TimeLe(r[i], r[j]) && r[i] != r[j];
  }

  /** The buckets reach from the first frame to the last, and there are as many as asked for,
      but at least one and at most `k`. */
  lemma BinsMeaning(p: Params, scores: seq<Frame>, k: nat)
    requires k > 0 && scores != []
    ensures var b := BinsOf(p, Ordered(scores), k);
            && (forall f :: f in scores ==> b.t0 <= f.ts <= b.t0 + b.span - 1)
            && (exists f :: f in scores && f.ts == b.t0) && (exists f :: f in scores && f.ts == b.t0 + b.span - 1)
            && (p.bins.None? ==> b.count == k)
            && (p.bins.Some? ==> b.count == if p.bins.value < 1 then 1 else if p.bins.value > k then k else p.bins.value)
  {
    var o := Ordered(scores);
    OrderedFacts(scores);
    SameMembers(scores, o);
    assert o[0] in o && o[|o| - 1] in o;
    forall f | f in scores
      ensures o[0].ts <= f.ts <= o[|o| - 1].ts
    {
      var i :| 0 <= i < |o| && o[i] == f;
      assert i == 0 || TimeLe(o[0], f);
      assert i == |o| - 1 || TimeLe(f, o[|o| - 1]);
    }
  }
}
