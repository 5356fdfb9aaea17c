/** `src/strategy.rs`: tiered endpoint selection with token reservation. */
module Strategy {
  import opened Prelude
  import opened Endpoint
  import opened RateLimiter

  const TIER1_MIN_WEIGHT: u32 := 100
  const TIER2_MIN_WEIGHT: u32 := 50
  const TIER3_MIN_WEIGHT: u32 := 1

  // ---- Comparators ----

  /** What the comparator looks at. */
  datatype Key = Key(weight: u32, cost: u64, lastSelected: u64)

  /** Whether a comparison looks at costs: as fixed for one tier, or as the weight itself decides. */
  datatype CostRule = Never | Always | ByWeight

  predicate UsesCost(rule: CostRule, weight: u32) {
    rule.Always? || (rule.ByWeight? && TIER2_MIN_WEIGHT <= weight < TIER1_MIN_WEIGHT)
  }

  /** The comparator answers `Less`: heavier, then (where costs count) cheaper, then more recently selected. */
  predicate Ahead(rule: CostRule, a: Key, b: Key) {
    if a.weight != b.weight then a.weight > b.weight
    else if UsesCost(rule, a.weight) && a.cost != b.cost then a.cost < b.cost
    else a.lastSelected > b.lastSelected
  }

  /** The order a stable sort of list positions produces: ties keep their list order. */
  predicate Before(rule: CostRule, keys: seq<Key>, i: nat, j: nat)
    requires i < |keys| && j < |keys|
  {
    Ahead(rule, keys[i], keys[j]) || (!Ahead(rule, keys[j], keys[i]) && i < j)
  }

  /** The comparator is a total preorder: `Ahead` is a strict weak order. */
  lemma ComparatorIsTotalPreorder(rule: CostRule, a: Key, b: Key, c: Key)
    ensures !Ahead(rule, a, a)
    ensures Ahead(rule, a, b) ==> !Ahead(rule, b, a)
    ensures Ahead(rule, a, b) && Ahead(rule, b, c) ==> Ahead(rule, a, c)
    ensures !Ahead(rule, b, a) && !Ahead(rule, c, b) ==> !Ahead(rule, c, a)
  {
  }

  lemma BeforeTransitive(rule: CostRule, keys: seq<Key>, i: nat, j: nat, k: nat)
    requires i < |keys| && j < |keys| && k < |keys|
    requires Before(rule, keys, i, j) && Before(rule, keys, j, k)
    ensures Before(rule, keys, i, k)
  {
    ComparatorIsTotalPreorder(rule, keys[i], keys[j], keys[k]);
    ComparatorIsTotalPreorder(rule, keys[k], keys[i], keys[j]);
  }

  // ---- Stable sorting of list positions ----

  ghost predicate Positions(keys: seq<Key>, xs: seq<nat>) {
    forall p :: 0 <= p < |xs| ==> xs[p] < |keys|
  }

  ghost predicate Increasing(xs: seq<nat>) {
    forall p, q :: 0 <= p < q < |xs| ==> xs[p] < xs[q]
  }

  ghost predicate Sorted(rule: CostRule, keys: seq<Key>, xs: seq<nat>)
    requires Positions(keys, xs)
  {
    forall p, q :: 0 <= p < q < |xs| ==> Before(rule, keys, xs[p], xs[q])
  }

  /** Inserts a position behind everything it is not ahead of. */
  function Insert(rule: CostRule, keys: seq<Key>, xs: seq<nat>, x: nat): (r: seq<nat>)
    requires Positions(keys, xs) && x < |keys|
    ensures Positions(keys, r)
    ensures forall y :: y in r <==> y == x || y in xs
  {
    if xs == [] then [x]
    else if Ahead(rule, keys[x], keys[xs[0]]) then [x] + xs
    else
      var rest := Insert(rule, keys, xs[1..], x);
      assert xs == [xs[0]] + xs[1..];
      [xs[0]] + rest
  }

  /** The library's stable `sort_by`, on list positions. */
  function SortBy(rule: CostRule, keys: seq<Key>, xs: seq<nat>): (r: seq<nat>)
    requires Positions(keys, xs)
    ensures Positions(keys, r)
    ensures forall y :: y in r <==> y in xs
  {
    if xs == [] then []
    else
      var last := |xs| - 1;
      assert xs == xs[..last] + [xs[last]];
      Insert(rule, keys, SortBy(rule, keys, xs[..last]), xs[last])
  }

  lemma {:induction false} InsertSorted(rule: CostRule, keys: seq<Key>, xs: seq<nat>, x: nat)
    requires Positions(keys, xs) && x < |keys| && Sorted(rule, keys, xs)
    requires forall p :: 0 <= p < |xs| ==> xs[p] < x
    ensures Sorted(rule, keys, Insert(rule, keys, xs, x))
  {
    if xs == [] {
    } else if Ahead(rule, keys[x], keys[xs[0]]) {
      forall q | 0 <= q < |xs|
        ensures Before(rule, keys, x, xs[q])
      {
        if q > 0 {
          BeforeTransitive(rule, keys, x, xs[0], xs[q]);
        }
      }
    } else {
      InsertSorted(rule, keys, xs[1..], x);
      var rest := Insert(rule, keys, xs[1..], x);
      forall q | 0 <= q < |rest|
        ensures Before(rule, keys, xs[0], rest[q])
      {
        assert rest[q] in rest;
        if rest[q] != x {
          var p :| 0 <= p < |xs[1..]| && xs[1..][p] == rest[q];
          assert Before(rule, keys, xs[0], xs[p + 1]);
        }
      }
    }
  }

  /** Sorting is stable: the result is in the strict order in which ties keep their list order. */
  lemma {:induction false} SortBySorted(rule: CostRule, keys: seq<Key>, xs: seq<nat>)
    requires Positions(keys, xs) && Increasing(xs)
    ensures Sorted(rule, keys, SortBy(rule, keys, xs))
  {
    if xs != [] {
      var last := |xs| - 1;
      var front := SortBy(rule, keys, xs[..last]);
      SortBySorted(rule, keys, xs[..last]);
      forall p | 0 <= p < |front|
        ensures front[p] < xs[last]
      {
        assert front[p] in front;
        var q :| 0 <= q < |xs[..last]| && xs[..last][q] == front[p];
      }
      InsertSorted(rule, keys, front, xs[last]);
    }
  }

  /** There is only one way to put a set of positions in order. */
  lemma {:induction false} SortedUnique(rule: CostRule, keys: seq<Key>, xs: seq<nat>, ys: seq<nat>)
    requires Positions(keys, xs) && Positions(keys, ys)
    requires Sorted(rule, keys, xs) && Sorted(rule, keys, ys)
    requires forall z :: z in xs <==> z in ys
    ensures xs == ys
  {
    assert ys != [] ==> ys[0] in ys;
    if xs != [] {
      HeadIsFirst(rule, keys, xs, ys);
      HeadIsFirst(rule, keys, ys, xs);
      assert xs[0] == ys[0];
      forall z
        ensures z in xs[1..] <==> z in ys[1..]
      {
        TailMembers(rule, keys, xs, z);
        TailMembers(rule, keys, ys, z);
      }
      SortedUnique(rule, keys, xs[1..], ys[1..]);
    }
  }

  lemma HeadIsFirst(rule: CostRule, keys: seq<Key>, xs: seq<nat>, ys: seq<nat>)
    requires Positions(keys, xs) && Positions(keys, ys) && xs != []
    requires Sorted(rule, keys, ys)
    requires forall z :: z in xs <==> z in ys
    ensures ys != [] && (xs[0] == ys[0] || Before(rule, keys, ys[0], xs[0]))
  {
    assert xs[0] in xs;
    var q :| 0 <= q < |ys| && ys[q] == xs[0];
  }

  lemma TailMembers(rule: CostRule, keys: seq<Key>, xs: seq<nat>, z: nat)
    requires Positions(keys, xs) && xs != [] && Sorted(rule, keys, xs)
    ensures z in xs[1..] <==> z in xs && z != xs[0]
  {
    if z in xs[1..] {
      var p :| 0 <= p < |xs[1..]| && xs[1..][p] == z;
      assert Before(rule, keys, xs[0], xs[p + 1]);
    }
    assert xs == [xs[0]] + xs[1..];
  }

  // ---- What selection is for ----

  /**
   * An endpoint as selection sees it at one moment: usable at all, its sort key, and whether its limiter grants the
   * batch.
   */
  datatype Entry = Entry(candidate: bool, key: Key, admits: bool)

  function Keys(es: seq<Entry>): seq<Key> {
    seq(|es|, i requires 0 <= i < |es| => es[i].key)
  }

  /** Position `i` is the first admitting candidate in the one global order. */
  ghost predicate IsBest(es: seq<Entry>, i: nat) {
    && i < |es|
    && es[i].candidate && es[i].admits
    && forall j :: 0 <= j < |es| && es[j].candidate && es[j].admits && j != i ==> Before(ByWeight, Keys(es), i, j)
  }

  ghost predicate NoneAdmits(es: seq<Entry>) {
    forall j :: 0 <= j < |es| && es[j].candidate ==> !es[j].admits
  }

  lemma BestUnique(es: seq<Entry>, i: nat, j: nat)
    requires IsBest(es, i) && IsBest(es, j)
    ensures i == j
  {
    ComparatorIsTotalPreorder(ByWeight, es[i].key, es[j].key, es[i].key);
  }

  // ---- Three tiers refine one global order ----

  /** The tier of a weight: 1, 2 or 3, and 0 for weight 0, which no tier takes. */
  function Tier(weight: u32): nat {
    if weight >= TIER1_MIN_WEIGHT then 1
    else if weight >= TIER2_MIN_WEIGHT then 2
    else if weight >= TIER3_MIN_WEIGHT then 3
    else 0
  }

  /** The positions below `n` that a tier collects, in list order. */
  function TierMembers(es: seq<Entry>, tier: nat, n: nat): (xs: seq<nat>)
    requires n <= |es|
    ensures forall p :: 0 <= p < |xs| ==> xs[p] < n
  {
    if n == 0 then []
    else
      var xs := TierMembers(es, tier, n - 1);
      if es[n - 1].candidate && Tier(es[n - 1].key.weight) == tier then xs + [n - 1] else xs
  }

  lemma {:induction false} TierMembersFacts(es: seq<Entry>, tier: nat, n: nat)
    requires n <= |es|
    ensures Increasing(TierMembers(es, tier, n))
    ensures forall j :: j in TierMembers(es, tier, n) <==>
      0 <= j < n && es[j].candidate && Tier(es[j].key.weight) == tier
  {
    if n > 0 {
      TierMembersFacts(es, tier, n - 1);
    }
  }

  function TierRule(tier: nat): CostRule {
    if tier == 2 then Always else Never
  }

  function TierOrder(es: seq<Entry>, tier: nat): (xs: seq<nat>)
    ensures forall p :: 0 <= p < |xs| ==> xs[p] < |es|
  {
    SortBy(TierRule(tier), Keys(es), TierMembers(es, tier, |es|))
  }

  lemma TierOrderFacts(es: seq<Entry>, tier: nat)
    requires 1 <= tier <= 3
    ensures Sorted(ByWeight, Keys(es), TierOrder(es, tier))
    ensures forall j :: j in TierOrder(es, tier) <==> 0 <= j < |es| && es[j].candidate && Tier(es[j].key.weight) == tier
  {
    var keys, xs := Keys(es), TierOrder(es, tier);
    TierMembersFacts(es, tier, |es|);
    SortBySorted(TierRule(tier), keys, TierMembers(es, tier, |es|));
    forall p, q | 0 <= p < q < |xs|
      ensures Before(ByWeight, keys, xs[p], xs[q])
    {
      assert xs[p] in xs && xs[q] in xs;
      assert Before(TierRule(tier), keys, xs[p], xs[q]);
      TierAgrees(tier, keys, xs[p], xs[q]);
    }
  }

  /** Within a tier its own rule orders as the rule by weight does. */
  lemma TierAgrees(tier: nat, keys: seq<Key>, i: nat, j: nat)
    requires 1 <= tier <= 3 && i < |keys| && j < |keys|
    requires Tier(keys[i].weight) == tier && Tier(keys[j].weight) == tier
    requires Before(TierRule(tier), keys, i, j)
    ensures Before(ByWeight, keys, i, j)
  {
  }

  /** All candidates with a positive weight, in list order. */
  function Ranked(es: seq<Entry>, n: nat): (xs: seq<nat>)
    requires n <= |es|
    ensures forall p :: 0 <= p < |xs| ==> xs[p] < n
    ensures Increasing(xs)
    ensures forall j :: j in xs <==> 0 <= j < n && es[j].candidate && es[j].key.weight > 0
  {
    if n == 0 then []
    else
      var xs := Ranked(es, n - 1);
      if es[n - 1].candidate && es[n - 1].key.weight > 0 then xs + [n - 1] else xs
  }

  /** One stable sort of all ranked endpoints. */
  function GlobalOrder(es: seq<Entry>): seq<nat> {
    SortBy(ByWeight, Keys(es), Ranked(es, |es|))
  }

  lemma ConcatSorted(keys: seq<Key>, xs: seq<nat>, ys: seq<nat>)
    requires Positions(keys, xs) && Positions(keys, ys)
    requires Sorted(ByWeight, keys, xs) && Sorted(ByWeight, keys, ys)
    requires forall x, y :: x in xs && y in ys ==> keys[x].weight > keys[y].weight
    ensures Positions(keys, xs + ys) && Sorted(ByWeight, keys, xs + ys)
  {
    var all := xs + ys;
    forall p, q | 0 <= p < q < |all|
      ensures Before(ByWeight, keys, all[p], all[q])
    {
      if p < |xs| <= q {
        assert xs[p] in xs && ys[q - |xs|] in ys;
      }
    }
  }

  lemma TiersSorted(es: seq<Entry>, t1: seq<nat>, t2: seq<nat>, t3: seq<nat>)
    requires t1 == TierOrder(es, 1) && t2 == TierOrder(es, 2) && t3 == TierOrder(es, 3)
    ensures Positions(Keys(es), t1 + t2 + t3) && Sorted(ByWeight, Keys(es), t1 + t2 + t3)
    ensures forall j :: j in t1 + t2 + t3 <==> 0 <= j < |es| && es[j].candidate && es[j].key.weight > 0
  {
    TierOrderFacts(es, 1);
    TierOrderFacts(es, 2);
    TierOrderFacts(es, 3);
    ConcatSorted(Keys(es), t1, t2);
    ConcatSorted(Keys(es), t1 + t2, t3);
  }

  /** The three tier sorts, one after the other, are the one global stable sort. */
  lemma TiersAreOneOrder(es: seq<Entry>)
    ensures TierOrder(es, 1) + TierOrder(es, 2) + TierOrder(es, 3) == GlobalOrder(es)
  {
    var all := TierOrder(es, 1) + TierOrder(es, 2) + TierOrder(es, 3);
    TiersSorted(es, TierOrder(es, 1), TierOrder(es, 2), TierOrder(es, 3));
    var ranked := Ranked(es, |es|);
    SortBySorted(ByWeight, Keys(es), ranked);
    SortedUnique(ByWeight, Keys(es), all, SortBy(ByWeight, Keys(es), ranked));
  }

  /** The first position of `xs` whose endpoint admits. */
  function FirstAdmitting(es: seq<Entry>, xs: seq<nat>): Option<nat>
    requires Positions(Keys(es), xs)
  {
    if xs == [] then None
    else if es[xs[0]].admits then Some(xs[0])
    else FirstAdmitting(es, xs[1..])
  }

  lemma {:induction false} FirstAdmittingIsLeast(es: seq<Entry>, xs: seq<nat>)
    requires Positions(Keys(es), xs) && Sorted(ByWeight, Keys(es), xs)
    ensures FirstAdmitting(es, xs).None? ==> forall x :: x in xs ==> !es[x].admits
    ensures FirstAdmitting(es, xs).Some? ==>
      var i := FirstAdmitting(es, xs).value;
      i in xs && es[i].admits && forall x :: x in xs && es[x].admits && x != i ==> Before(ByWeight, Keys(es), i, x)
  {
    if xs != [] {
      assert xs == [xs[0]] + xs[1..];
      if es[xs[0]].admits {
        forall x | x in xs && x != xs[0]
          ensures Before(ByWeight, Keys(es), xs[0], x)
        {
          var q :| 0 <= q < |xs| && xs[q] == x;
        }
      } else {
        FirstAdmittingIsLeast(es, xs[1..]);
      }
    }
  }

  /** Walking the global order finds the best entry if there is one, and nothing exactly when none admits. */
  lemma {:induction false} GlobalOrderFindsBest(es: seq<Entry>)
    requires forall j :: 0 <= j < |es| && es[j].candidate ==> es[j].key.weight > 0
    ensures match FirstAdmitting(es, GlobalOrder(es))
      case Some(i) => IsBest(es, i)
      case None => NoneAdmits(es)
  {
    SortBySorted(ByWeight, Keys(es), Ranked(es, |es|));
    FirstAdmittingIsLeast(es, GlobalOrder(es));
  }

  lemma {:induction false} BestOrNone(es: seq<Entry>) returns (best: Option<nat>)
    requires forall j :: 0 <= j < |es| && es[j].candidate ==> es[j].key.weight > 0
    ensures if best.Some? then IsBest(es, best.value) else NoneAdmits(es)
  {
    GlobalOrderFindsBest(es);
    best := FirstAdmitting(es, GlobalOrder(es));
  }

  // ---- The selection itself ----

  function KeyOf(ep: RpcEndpoint): Key
    reads ep.metrics
  {
    Key(ep.weight, ep.metrics.GetTotalCost(), ep.metrics.lastSelected)
  }

  /** Whether reserving a batch succeeds: no limiter, no tokens needed, or enough tokens left. */
  ghost predicate Reservable(bucket: Option<Bucket>, batchSize: nat, now: nat) {
    batchSize <= U32_MAX && (bucket.None? || batchSize == 0 || bucket.value.Admits(batchSize, now))
  }

  ghost function BucketOf(limiters: map<string, DirectRateLimiter>, url: string): Option<Bucket>
    reads limiters.Values
  {
    if url in limiters then Some(limiters[url].Value()) else None
  }

  ghost function EntryOf(ep: RpcEndpoint, limiters: map<string, DirectRateLimiter>, batchSize: nat, now: nat): Entry
    reads ep.metrics, limiters.Values
  {
    Entry(ep.Available(now) && ep.weight > 0, KeyOf(ep), Reservable(BucketOf(limiters, ep.url), batchSize, now))
  }

  ghost function MetricsObjects(endpoints: seq<RpcEndpoint>): set<EndpointMetrics> {
    set i | 0 <= i < |endpoints| :: endpoints[i].metrics
  }

  ghost function Entries(endpoints: seq<RpcEndpoint>, limiters: map<string, DirectRateLimiter>, batchSize: nat,
                         now: nat): seq<Entry>
    reads MetricsObjects(endpoints), limiters.Values
  {
    seq(|endpoints|, i requires 0 <= i < |endpoints| reads MetricsObjects(endpoints), limiters.Values =>
      EntryOf(endpoints[i], limiters, batchSize, now))
  }

  /** `l` is the limiter a batch sent to `url` is charged to. */
  predicate Charges(limiters: map<string, DirectRateLimiter>, url: string, l: DirectRateLimiter) {
    url in limiters && l == limiters[url]
  }

  ghost function Charged(b: Bucket, charged: bool, batchSize: nat, now: nat): Bucket {
    if charged && batchSize > 0 then b.Take(batchSize, now) else b
  }

  datatype Reservation = Reserved | BatchTooLarge | RateLimited

  /** `reserve_tokens`: a refused reservation changes nothing. */
  method ReserveTokens(limiters: map<string, DirectRateLimiter>, url: string, batchSize: nat, now: nat)
    returns (r: Reservation)
    modifies limiters.Values
    ensures r == Reserved <==> Reservable(old(BucketOf(limiters, url)), batchSize, now)
    ensures r == BatchTooLarge <==> batchSize > U32_MAX
    ensures forall l :: l in limiters.Values ==>
      l.Value() == Charged(old(l.Value()), r == Reserved && Charges(limiters, url, l), batchSize, now)
  {
    if batchSize > U32_MAX {
      return BatchTooLarge;
    }
    if url in limiters {
      if batchSize == 0 {
        return Reserved;
      }
      var limiter := limiters[url];
      assert limiter in limiters.Values;
      var ok := limiter.CheckN(batchSize, now);
      if !ok {
        return RateLimited;
      }
    }
    return Reserved;
  }

  /** Collects the available endpoints by tier, as list positions. */
  method CollectTiers(endpoints: seq<RpcEndpoint>, now: nat, ghost es: seq<Entry>) returns (tiers: seq<seq<nat>>)
    requires |es| == |endpoints|
    requires forall i :: 0 <= i < |es| ==>
      && es[i].candidate == (endpoints[i].Available(now) && endpoints[i].weight > 0)
      && es[i].key.weight == endpoints[i].weight
    ensures tiers == [TierMembers(es, 1, |es|), TierMembers(es, 2, |es|), TierMembers(es, 3, |es|)]
  {
    var tier1, tier2, tier3 := [], [], [];
    for i := 0 to |endpoints|
      invariant tier1 == TierMembers(es, 1, i)
      invariant tier2 == TierMembers(es, 2, i)
      invariant tier3 == TierMembers(es, 3, i)
    {
      var ep := endpoints[i];
      if ep.Available(now) && ep.weight > 0 {
        if ep.weight >= TIER1_MIN_WEIGHT {
          tier1 := tier1 + [i];
        } else if ep.weight >= TIER2_MIN_WEIGHT {
          tier2 := tier2 + [i];
        } else if ep.weight >= TIER3_MIN_WEIGHT {
          tier3 := tier3 + [i];
        }
      }
    }
    tiers := [tier1, tier2, tier3];
  }

  /** `es` is how selection sees the endpoints right now. */
  ghost predicate Admissions(es: seq<Entry>, endpoints: seq<RpcEndpoint>, limiters: map<string, DirectRateLimiter>,
                             batchSize: nat, now: nat)
    reads limiters.Values
  {
    && |es| == |endpoints|
    && forall i :: 0 <= i < |es| ==> es[i].admits == Reservable(BucketOf(limiters, endpoints[i].url), batchSize, now)
  }

  /** Tries the sorted candidates of one tier until a reservation succeeds. */
  method TryTier(endpoints: seq<RpcEndpoint>, limiters: map<string, DirectRateLimiter>, sorted: seq<nat>,
                 batchSize: nat, now: nat, ghost es: seq<Entry>)
    returns (rank: nat)
    requires Admissions(es, endpoints, limiters, batchSize, now)
    requires forall p :: 0 <= p < |sorted| ==> sorted[p] < |es|
    modifies limiters.Values
    ensures rank <= |sorted|
    ensures forall p :: 0 <= p < rank ==> !es[sorted[p]].admits
    ensures rank < |sorted| ==> es[sorted[rank]].admits
    ensures forall l :: l in limiters.Values ==>
      var charged := rank < |sorted| && Charges(limiters, endpoints[sorted[rank]].url, l);
      l.Value() == Charged(old(l.Value()), charged, batchSize, now)
  {
    rank := 0;
    while rank < |sorted|
      invariant rank <= |sorted|
      invariant Admissions(es, endpoints, limiters, batchSize, now)
      invariant forall l :: l in limiters.Values ==> l.Value() == old(l.Value())
      invariant forall p :: 0 <= p < rank ==> !es[sorted[p]].admits
    {
      var reservation := ReserveTokens(limiters, endpoints[sorted[rank]].url, batchSize, now);
      if reservation == Reserved {
        return;
      }
      rank := rank + 1;
    }
  }

  /** Tries tier after tier, each sorted by its own comparator. */
  method TryTiers(endpoints: seq<RpcEndpoint>, limiters: map<string, DirectRateLimiter>, keys: seq<Key>,
                  tiers: seq<seq<nat>>, batchSize: nat, now: nat, ghost es: seq<Entry>)
    returns (r: Option<nat>)
    requires Admissions(es, endpoints, limiters, batchSize, now) && keys == Keys(es)
    requires forall i :: 0 <= i < |es| && es[i].candidate ==> es[i].key.weight > 0
    requires tiers == [TierMembers(es, 1, |es|), TierMembers(es, 2, |es|), TierMembers(es, 3, |es|)]
    modifies limiters.Values
    ensures r.None? ==> NoneAdmits(es)
    ensures r.Some? ==> IsBest(es, r.value)
    ensures forall l :: l in limiters.Values ==>
      l.Value() == Charged(old(l.Value()), r.Some? && Charges(limiters, endpoints[r.value].url, l), batchSize, now)
  {
    var sortStrategies := [Never, Always, Never];
    for t := 0 to 3
      invariant Admissions(es, endpoints, limiters, batchSize, now)
      invariant forall l :: l in limiters.Values ==> l.Value() == old(l.Value())
      invariant EarlierTiersRefuse(es, t + 1)
    {
      assert tiers[t] == TierMembers(es, t + 1, |es|) && sortStrategies[t] == TierRule(t + 1);
      var sorted := SortBy(sortStrategies[t], keys, tiers[t]);
      assert sorted == TierOrder(es, t + 1);
      var rank := TryTier(endpoints, limiters, sorted, batchSize, now, es);
      if rank < |sorted| {
        BestOfTier(es, t + 1, rank);
        return Some(sorted[rank]);
      }
      TierExhausted(es, t + 1);
    }
    r := None;
  }

  /**
   * `select_best_endpoint`: returns the position of the first admitting candidate in the global order
   * and takes the batch from its limiter alone; returns nothing, and takes nothing, exactly when no
   * candidate admits.
   */
  method SelectBestEndpoint(endpoints: seq<RpcEndpoint>, limiters: map<string, DirectRateLimiter>, batchSize: nat,
                            now: nat)
    returns (r: Option<nat>)
    modifies limiters.Values
    ensures r.None? ==> NoneAdmits(old(Entries(endpoints, limiters, batchSize, now)))
    ensures r.Some? ==> IsBest(old(Entries(endpoints, limiters, batchSize, now)), r.value)
    ensures forall l :: l in limiters.Values ==>
      l.Value() == Charged(old(l.Value()), r.Some? && Charges(limiters, endpoints[r.value].url, l), batchSize, now)
  {
    ghost var es := Entries(endpoints, limiters, batchSize, now);
    var tiers := CollectTiers(endpoints, now, es);
    var keys := seq(|endpoints|, i requires 0 <= i < |endpoints| reads MetricsObjects(endpoints) =>
      KeyOf(endpoints[i]));
    r := TryTiers(endpoints, limiters, keys, tiers, batchSize, now, es);
  }

  ghost predicate EarlierTiersRefuse(es: seq<Entry>, tier: nat) {
    forall j :: 0 <= j < |es| && es[j].candidate && 1 <= Tier(es[j].key.weight) < tier ==> !es[j].admits
  }

  lemma TierExhausted(es: seq<Entry>, tier: nat)
    requires 1 <= tier <= 3 && EarlierTiersRefuse(es, tier)
    requires forall p :: 0 <= p < |TierOrder(es, tier)| ==> !es[TierOrder(es, tier)[p]].admits
    ensures EarlierTiersRefuse(es, tier + 1)
  {
    TierOrderFacts(es, tier);
    var sorted := TierOrder(es, tier);
    forall j | 0 <= j < |es| && es[j].candidate && Tier(es[j].key.weight) == tier
      ensures !es[j].admits
    {
      assert j in sorted;
      var p :| 0 <= p < |sorted| && sorted[p] == j;
    }
  }

  /** The first admitting endpoint of a tier is the best of all when no earlier tier admits. */
  lemma BestOfTier(es: seq<Entry>, tier: nat, rank: nat)
    requires 1 <= tier <= 3 && rank < |TierOrder(es, tier)|
    requires forall j :: 0 <= j < |es| && es[j].candidate ==> es[j].key.weight > 0
    requires EarlierTiersRefuse(es, tier)
    requires forall p :: 0 <= p < rank ==> !es[TierOrder(es, tier)[p]].admits
    requires es[TierOrder(es, tier)[rank]].admits
    ensures IsBest(es, TierOrder(es, tier)[rank])
  {
    TierOrderFacts(es, tier);
    var sorted := TierOrder(es, tier);
    var i := sorted[rank];
    assert i in sorted;
    forall j | 0 <= j < |es| && es[j].candidate && es[j].admits && j != i
      ensures Before(ByWeight, Keys(es), i, j)
    {
      if Tier(es[j].key.weight) == tier {
        assert j in sorted;
        var p :| 0 <= p < |sorted| && sorted[p] == j;
      }
    }
  }
}
