/** consolidateXaasInstances on the published XaaS tiers and prices (frontend/src/app/components/nios-calc.ts
    and shared/token-tiers.ts): what the returned instances cost, and how their number compares. */
module XaasInstances {
  import opened Base
  import opened TokenTiers
  import opened XaasConsolidation
  import opened XaasOptimality

  /** One XL instance with every extra connection bought. */
  function XlCapacity(): Capacity { CapacityOf(XAAS_TOKEN_TIERS, XAAS_MAX_EXTRA_CONNECTIONS) }

  lemma {:induction false} XaasTableCapacity()
    ensures Positive(XlCapacity()) && IsXlCapacity(XlCapacity())
  {
  }

  /** What the packer promises of the instances it returns for `members`. */
  ghost predicate Consolidates(instances: seq<Instance>, members: seq<Member>)
  {
    && NextFit(Groups(instances), SortedByKey(members), XlCapacity())
    && AllSized(instances, XAAS_TOKEN_TIERS, XAAS_EXTRA_CONNECTION_COST)
  }

  /** Demand of `members` in units of one full XL instance, added over queries, leases, objects and connections. */
  function Demanded(members: seq<Member>): real
  {
    var t := Total(members);
    t.qps as real / 115000.0 + t.lps as real / 675.0 + t.objects as real / 880000.0 + |members| as real / 485.0
  }

  method ConsolidateXaasInstances(members: seq<Member>) returns (instances: seq<Instance>)
    ensures Consolidates(instances, members)
    ensures multiset(Flatten(Groups(instances))) == multiset(members)
    ensures Descending(Flatten(Groups(instances)))
    ensures forall k :: WithKey(Flatten(Groups(instances)), k) == WithKey(members, k)
    ensures NonNegative(members) ==> |instances| as real < 2.0 * Demanded(members) + 1.0
    ensures NonNegative(members) ==> forall other | LegalPacking(other, members, XlCapacity()) ::
            |instances| <= 8 * |other|
    ensures NonNegative(members) ==> (|instances| <= 2 <==> exists n: nat :: Halves(members, n, XlCapacity()))
  {
    instances := Consolidate(members, XAAS_TOKEN_TIERS, XAAS_MAX_EXTRA_CONNECTIONS, XAAS_EXTRA_CONNECTION_COST);
    forall k
      ensures WithKey(SortedByKey(members), k) == WithKey(members, k)
    {
      SortFacts(members, k);
    }
    SortFacts(members, 0);
    if NonNegative(members) {
      InstanceBounds(instances, members);
    }
  }

  lemma {:induction false} InstanceBounds(instances: seq<Instance>, members: seq<Member>)
    requires Consolidates(instances, members) && NonNegative(members)
    ensures |instances| as real < 2.0 * Demanded(members) + 1.0
    ensures forall other | LegalPacking(other, members, XlCapacity()) :: |instances| <= 8 * |other|
    ensures |instances| <= 2 <==> exists n: nat :: Halves(members, n, XlCapacity())
  {
    hide NextFit, AllSized, LegalPacking, Halves, Size, Demanded, SortedByKey;
    XaasTableCapacity();
    GroupCount(instances);
    SizeIsDemanded(members);
    PackingBound(members, Groups(instances), XlCapacity());
    AtMostTwoIff(members, Groups(instances), XlCapacity());
    forall other | LegalPacking(other, members, XlCapacity())
      ensures |instances| <= 8 * |other|
    {
      AtMostEightTimesAnyPacking(members, Groups(instances), other, XlCapacity());
    }
  }

  lemma {:induction false} GroupCount(instances: seq<Instance>)
    ensures |Groups(instances)| == |instances|
  {
    if instances != [] {
      GroupAt(instances, 0);
    }
  }

  lemma {:induction false} SizeIsDemanded(members: seq<Member>)
    requires Positive(XlCapacity()) && IsXlCapacity(XlCapacity())
    ensures Size(members, XlCapacity()) == Demanded(members)
  {
    hide Total;
  }

  /** The tier carries the members: neither their queries, leases and objects nor their number exceed it. */
  ghost predicate Carries(u: ServerTokenTier, members: seq<Member>)
  {
    var t := Total(members);
    && t.qps <= u.maxQps && t.lps <= u.maxLps && t.objects <= u.maxObjects
    && u.maxConnections.Some? && |members| <= u.maxConnections.value
  }

  /** The price of an instance: no published tier that carries its members costs less; when none carries them it is
      XL's price, and 100 tokens for each connection beyond 85. */
  lemma {:induction false} InstancesAreCheapest(instances: seq<Instance>, members: seq<Member>, i: nat)
    requires Consolidates(instances, members) && i < |instances|
    ensures forall u | u in XAAS_TOKEN_TIERS && Carries(u, instances[i].members) ::
      instances[i].totalTokens <= u.serverTokens
    ensures (forall u | u in XAAS_TOKEN_TIERS :: !Carries(u, instances[i].members))
      ==> instances[i].totalTokens == 8500 + (if |instances[i].members| > 85 then 100 * (|instances[i].members| - 85)
                                              else 0)
    ensures instances[i].totalTokens <= 48500
  {
    hide Total, SortedByKey, NextFit;
    XaasTableAscends();
    XaasTableCapacity();
    var inst := instances[i];
    assert Sized(inst, i, XAAS_TOKEN_TIERS, XAAS_EXTRA_CONNECTION_COST);
    InstancesAreLegal(members, instances, XAAS_TOKEN_TIERS, XAAS_MAX_EXTRA_CONNECTIONS, XAAS_EXTRA_CONNECTION_COST, i);
    FirstAcceptedIsCheapest(XAAS_TOKEN_TIERS, t => CoversWith(t, inst.total, inst.connectionsUsed), inst.tier);
  }

  /** The published price of an instance: the first tier that carries queries, leases, objects and connections, and
      beyond XL a hundred tokens for each connection above 85. */
  function PublishedPrice(t: Load, n: nat): nat
  {
    if t.qps <= 20000 && t.lps <= 200 && t.objects <= 29000 && n <= 10 then 2400
    else if t.qps <= 40000 && t.lps <= 300 && t.objects <= 110000 && n <= 20 then 4100
    else if t.qps <= 70000 && t.lps <= 400 && t.objects <= 440000 && n <= 35 then 6100
    else 8500 + (if n > 85 then 100 * (n - 85) else 0)
  }

  /** Every returned instance costs its published price. */
  lemma {:induction false} InstancesCostPublishedPrice(instances: seq<Instance>, members: seq<Member>, i: nat)
    requires Consolidates(instances, members) && i < |instances|
    ensures instances[i].totalTokens == PublishedPrice(Total(instances[i].members), |instances[i].members|)
  {
    hide Total, SortedByKey, NextFit;
    var inst := instances[i];
    assert Sized(inst, i, XAAS_TOKEN_TIERS, XAAS_EXTRA_CONNECTION_COST);
    FirstTier(inst.total, inst.connectionsUsed, inst.tier);
  }

  lemma {:induction false} FirstTier(load: Load, n: nat, tier: ServerTokenTier)
    requires FirstAccepted(XAAS_TOKEN_TIERS, t => CoversWith(t, load, n), tier)
    ensures tier == XAAS_TOKEN_TIERS[if CoversWith(XAAS_TOKEN_TIERS[0], load, n) then 0
                                     else if CoversWith(XAAS_TOKEN_TIERS[1], load, n) then 1
                                     else if CoversWith(XAAS_TOKEN_TIERS[2], load, n) then 2 else 3]
  {
    hide CoversWith;
  }

  function TokenSum(instances: seq<Instance>): nat
  {
    if instances == [] then 0 else TokenSum(instances[..|instances| - 1]) + instances[|instances| - 1].totalTokens
  }

  /** Four members of 69000, 57500, 57500 and 46000 queries a second that do nothing else. */
  predicate AreAwkward(a: Member, b: Member, c: Member, d: Member)
  {
    && Demand(a) == Load(69000, 0, 0) && Demand(b) == Demand(c) == Load(57500, 0, 0) && Demand(d) == Load(46000, 0, 0)
  }

  lemma {:induction false} TheyAreAwkward(a: Member, b: Member, c: Member, d: Member)
    requires AreAwkward(a, b, c, d)
    ensures Awkward(a, b, c, d, XlCapacity())
  {
    XaasTableCapacity();
  }

  /** On them the packer returns three instances for 20700 tokens; sizing the two groups of another legal packing
      costs 17000. */
  lemma {:induction false} AwkwardMembersCost(instances: seq<Instance>, other: seq<Instance>,
                                              a: Member, b: Member, c: Member, d: Member)
    requires AreAwkward(a, b, c, d) && Consolidates(instances, [a, b, c, d])
    requires AllSized(other, XAAS_TOKEN_TIERS, XAAS_EXTRA_CONNECTION_COST) && Groups(other) == [[a, d], [b, c]]
    ensures LegalPacking(Groups(other), [a, b, c, d], XlCapacity())
    ensures |instances| == 3 && TokenSum(instances) == 20700
    ensures |other| == 2 && TokenSum(other) == 17000
  {
    assert AllSized(instances, XAAS_TOKEN_TIERS, XAAS_EXTRA_CONNECTION_COST);
    assert NextFit(Groups(instances), SortedByKey([a, b, c, d]), XlCapacity());
    hide *;
    TheyAreAwkward(a, b, c, d);
    FewestIsNotGuaranteed(a, b, c, d, XlCapacity());
    TwoWouldSuffice(a, b, c, d, XlCapacity());
    NextFitIsUnique(Groups(instances), [[a], [b, c], [d]], SortedByKey([a, b, c, d]), XlCapacity());
    CostOfThree(instances, a, b, c, d);
    CostOfTwo(other, a, b, c, d);
  }

  lemma {:induction false} AwkwardLoads(a: Member, b: Member, c: Member, d: Member)
    requires AreAwkward(a, b, c, d)
    ensures Total([a]) == Load(69000, 0, 0) && Total([b, c]) == Total([a, d]) == Load(115000, 0, 0)
    ensures Total([d]) == Load(46000, 0, 0)
  {
    SingleTotal(a);
    SingleTotal(d);
    PairTotal(a, d);
    PairTotal(b, c);
  }

  lemma {:induction false} CostOfThree(instances: seq<Instance>, a: Member, b: Member, c: Member, d: Member)
    requires AllSized(instances, XAAS_TOKEN_TIERS, XAAS_EXTRA_CONNECTION_COST) && AreAwkward(a, b, c, d)
    requires Groups(instances) == [[a], [b, c], [d]]
    ensures |instances| == 3 && TokenSum(instances) == 20700
  {
    GroupCount(instances);
    AwkwardLoads(a, b, c, d);
    hide *;
    PriceAt(instances, 0, [a], Load(69000, 0, 0));
    PriceAt(instances, 1, [b, c], Load(115000, 0, 0));
    PriceAt(instances, 2, [d], Load(46000, 0, 0));
    SumOfThree(instances);
  }

  lemma {:induction false} CostOfTwo(instances: seq<Instance>, a: Member, b: Member, c: Member, d: Member)
    requires AllSized(instances, XAAS_TOKEN_TIERS, XAAS_EXTRA_CONNECTION_COST) && AreAwkward(a, b, c, d)
    requires Groups(instances) == [[a, d], [b, c]]
    ensures |instances| == 2 && TokenSum(instances) == 17000
  {
    GroupCount(instances);
    AwkwardLoads(a, b, c, d);
    hide *;
    PriceAt(instances, 0, [a, d], Load(115000, 0, 0));
    PriceAt(instances, 1, [b, c], Load(115000, 0, 0));
    SumOfTwo(instances);
  }

  /** The price of an instance of at most ten members that only answer queries. */
  lemma {:induction false} PriceAt(instances: seq<Instance>, i: nat, run: seq<Member>, load: Load)
    requires AllSized(instances, XAAS_TOKEN_TIERS, XAAS_EXTRA_CONNECTION_COST) && i < |instances|
    requires |Groups(instances)| == |instances| && Groups(instances)[i] == run && |run| <= 10
    requires Total(run) == load && load.lps == load.objects == 0
    ensures 40000 < load.qps <= 70000 ==> instances[i].totalTokens == 6100
    ensures 70000 < load.qps <= 115000 ==> instances[i].totalTokens == 8500
  {
    GroupAt(instances, i);
    hide Groups, Total;
    var inst := instances[i];
    assert Sized(inst, i, XAAS_TOKEN_TIERS, XAAS_EXTRA_CONNECTION_COST);
    TierOfQueries(inst.total, inst.connectionsUsed, inst.tier);
  }

  lemma {:induction false} TierOfQueries(load: Load, n: nat, tier: ServerTokenTier)
    requires FirstAccepted(XAAS_TOKEN_TIERS, t => CoversWith(t, load, n), tier)
    requires n <= 10 && load.lps == load.objects == 0
    ensures 40000 < load.qps <= 70000 ==> tier == XAAS_TOKEN_TIERS[2]
    ensures 70000 < load.qps <= 115000 ==> tier == XAAS_TOKEN_TIERS[3]
  {
    var k := if load.qps <= 70000 then 2 else 3;
    assert load.qps <= 115000 ==> CoversWith(XAAS_TOKEN_TIERS[k], load, n);
    assert load.qps > 40000 ==> forall j | 0 <= j < k :: !CoversWith(XAAS_TOKEN_TIERS[j], load, n);
  }

  lemma {:induction false} SingleTotal(a: Member)
    ensures Total([a]) == Demand(a)
  {
    assert [a][..0] == [];
  }

  lemma {:induction false} SumOfTwo(instances: seq<Instance>)
    requires |instances| == 2
    ensures TokenSum(instances) == instances[0].totalTokens + instances[1].totalTokens
  {
    assert TokenSum(instances[..1]) == TokenSum(instances[..1][..0]) + instances[0].totalTokens;
    assert instances[..|instances| - 1] == instances[..1] && instances[..1][..0] == [];
  }

  lemma {:induction false} SumOfThree(instances: seq<Instance>)
    requires |instances| == 3
    ensures TokenSum(instances) == instances[0].totalTokens + instances[1].totalTokens + instances[2].totalTokens
  {
    SumOfTwo(instances[..2]);
  }
}
