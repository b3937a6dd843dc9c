/** Token tiers (frontend/src/app/components/shared/token-tiers.ts) and the first-fit walk over them. */
module TokenTiers {
  import opened Base

  datatype ServerTokenTier = ServerTokenTier(
    name: string, maxQps: nat, maxLps: nat, maxObjects: nat,
    serverTokens: nat, maxConnections: Option<nat>)

  /** Aggregate demand of one or more members. */
  datatype Load = Load(qps: int, lps: int, objects: int)

  const XAAS_TOKEN_TIERS: seq<ServerTokenTier> := [
    ServerTokenTier("S", 20000, 200, 29000, 2400, Some(10)),
    ServerTokenTier("M", 40000, 300, 110000, 4100, Some(20)),
    ServerTokenTier("L", 70000, 400, 440000, 6100, Some(35)),
    ServerTokenTier("XL", 115000, 675, 880000, 8500, Some(85))]

  const XAAS_EXTRA_CONNECTION_COST: nat := 100
  const XAAS_MAX_EXTRA_CONNECTIONS: nat := 400

  function Connections(t: ServerTokenTier): (n: nat)
    ensures t.maxConnections == Some(n) || (t.maxConnections == None && n == 0)
  {
    if t.maxConnections.Some? then t.maxConnections.value else 0
  }

  predicate Covers(t: ServerTokenTier, load: Load)
  {
    load.qps <= t.maxQps && load.lps <= t.maxLps && load.objects <= t.maxObjects
  }

  predicate CoversWith(t: ServerTokenTier, load: Load, connections: nat)
  {
    Covers(t, load) && connections <= Connections(t)
  }

  /** `t` is the first tier accepted by `ok`, or the last tier when none is. */
  ghost predicate FirstAccepted(tiers: seq<ServerTokenTier>, ok: ServerTokenTier -> bool, t: ServerTokenTier)
    requires tiers != []
  {
    || (exists i | 0 <= i < |tiers| :: tiers[i] == t && ok(t) && forall j | 0 <= j < i :: !ok(tiers[j]))
    || (t == tiers[|tiers| - 1] && forall j | 0 <= j < |tiers| :: !ok(tiers[j]))
  }

  /** Tiers are listed from cheapest to dearest, each at least as roomy as the one before. */
  ghost predicate Ascending(tiers: seq<ServerTokenTier>)
  {
    forall i, j | 0 <= i < j < |tiers| ::
      && tiers[i].serverTokens <= tiers[j].serverTokens
      && tiers[i].maxQps <= tiers[j].maxQps
      && tiers[i].maxLps <= tiers[j].maxLps
      && tiers[i].maxObjects <= tiers[j].maxObjects
      && Connections(tiers[i]) <= Connections(tiers[j])
  }

  method CalcServerTokenTier(tiers: seq<ServerTokenTier>, load: Load) returns (tier: ServerTokenTier)
    requires tiers != []
    ensures FirstAccepted(tiers, t => Covers(t, load), tier)
  {
    for i := 0 to |tiers|
      invariant forall j | 0 <= j < i :: !Covers(tiers[j], load)
    {
      if Covers(tiers[i], load) {
        return tiers[i];
      }
    }
    return tiers[|tiers| - 1];
  }

  /** On an ascending table the first accepted tier is a cheapest accepted tier. */
  lemma {:induction false} FirstAcceptedIsCheapest(tiers: seq<ServerTokenTier>, ok: ServerTokenTier -> bool,
                                                   t: ServerTokenTier)
    requires tiers != [] && Ascending(tiers)
    requires FirstAccepted(tiers, ok, t)
    ensures forall u | u in tiers && ok(u) :: ok(t) && t.serverTokens <= u.serverTokens
  {
    forall u | u in tiers && ok(u)
      ensures ok(t) && t.serverTokens <= u.serverTokens
    {
      var k :| 0 <= k < |tiers| && tiers[k] == u;
      if i :| 0 <= i < |tiers| && tiers[i] == t && ok(t) && forall j | 0 <= j < i :: !ok(tiers[j]) {
        assert i <= k;
      }
    }
  }

  /** Nothing is accepted exactly when the last tier is too small: then XL is a cap, not a fit. */
  lemma {:induction false} CapOnlyBeyondLast(tiers: seq<ServerTokenTier>, load: Load, tier: ServerTokenTier)
    requires tiers != [] && Ascending(tiers)
    requires FirstAccepted(tiers, t => Covers(t, load), tier)
    ensures Covers(tier, load) <==> Covers(tiers[|tiers| - 1], load)
  {
    var last := tiers[|tiers| - 1];
    if Covers(tier, load) {
      var k :| 0 <= k < |tiers| && tiers[k] == tier;
      assert k < |tiers| - 1 ==> tiers[k].maxQps <= last.maxQps;
    }
  }

  lemma {:induction false} XaasTableAscends()
    ensures Ascending(XAAS_TOKEN_TIERS)
  {
  }
}

/** consolidateXaasInstances of frontend/src/app/components/nios-calc.ts: next-fit packing of
    members into XaaS instances, followed by tier selection for each instance. */
module XaasConsolidation {
  import opened Base
  import opened TokenTiers

  datatype Member = Member(name: string, qps: int, lps: int, objectCount: int)

  datatype Instance = Instance(
    index: nat, members: seq<Member>, total: Load, connectionsUsed: nat,
    tier: ServerTokenTier, extraConnections: nat, extraConnectionTokens: nat, totalTokens: nat)

  /** What one instance may carry: the XL limits and XL's connections plus the purchasable extras. */
  datatype Capacity = Capacity(xl: ServerTokenTier, connections: nat)

  function CapacityOf(tiers: seq<ServerTokenTier>, maxExtra: nat): Capacity
    requires tiers != []
  {
    var xl := tiers[|tiers| - 1];
    Capacity(xl, Connections(xl) + maxExtra)
  }

  function Demand(m: Member): Load { Load(m.qps, m.lps, m.objectCount) }

  function Add(a: Load, b: Load): Load
  {
    Load(a.qps + b.qps, a.lps + b.lps, a.objects + b.objects)
  }

  function Total(ms: seq<Member>): Load
  {
    if ms == [] then Load(0, 0, 0) else Add(Total(ms[..|ms| - 1]), Demand(ms[|ms| - 1]))
  }

  predicate Fits(ms: seq<Member>, cap: Capacity)
  {
    Covers(cap.xl, Total(ms)) && |ms| <= cap.connections
  }

  // ---------------------------------------------------------------- sorting

  function SortKey(m: Member): int { m.qps + m.lps * 100 }

  function InsertByKey(m: Member, ms: seq<Member>): seq<Member>
  {
    if ms == [] || SortKey(m) >= SortKey(ms[0]) then [m] + ms
    else [ms[0]] + InsertByKey(m, ms[1..])
  }

  /** The stable descending sort that Array.prototype.sort performs with the source's comparator. */
  function SortedByKey(ms: seq<Member>): seq<Member>
  {
    if ms == [] then [] else InsertByKey(ms[0], SortedByKey(ms[1..]))
  }

  /** The members, in order, whose queries and hundredfold leases add up to `k`. */
  function WithKey(ms: seq<Member>, k: int): seq<Member>
  {
    if ms == [] then [] else (if ms[0].qps + 100 * ms[0].lps == k then [ms[0]] else []) + WithKey(ms[1..], k)
  }

  /** Queries and hundredfold leases never grow from one member to a later one. */
  predicate Descending(ms: seq<Member>)
  {
    forall i, j | 0 <= i < j < |ms| :: ms[i].qps + 100 * ms[i].lps >= ms[j].qps + 100 * ms[j].lps
  }

  lemma {:induction false} InsertPermutes(m: Member, ms: seq<Member>)
    ensures multiset(InsertByKey(m, ms)) == multiset{m} + multiset(ms)
  {
    if ms == [] || SortKey(m) >= SortKey(ms[0]) {
    } else {
      InsertPermutes(m, ms[1..]);
      assert ms == [ms[0]] + ms[1..];
    }
  }

  lemma {:induction false} DescendingCons(m: Member, ms: seq<Member>)
    requires Descending(ms) && forall x | x in ms :: m.qps + 100 * m.lps >= x.qps + 100 * x.lps
    ensures Descending([m] + ms)
  {
  }

  lemma {:induction false} InsertDescends(m: Member, ms: seq<Member>)
    requires Descending(ms)
    ensures Descending(InsertByKey(m, ms))
  {
    if ms == [] || SortKey(m) >= SortKey(ms[0]) {
    } else {
      var t := InsertByKey(m, ms[1..]);
      InsertDescends(m, ms[1..]);
      InsertPermutes(m, ms[1..]);
      forall x | x in t
        ensures ms[0].qps + 100 * ms[0].lps >= x.qps + 100 * x.lps
      {
        assert x in multiset(t);
        assert x == m || x in ms[1..];
      }
      DescendingCons(ms[0], t);
    }
  }

  lemma {:induction false} InsertStable(m: Member, ms: seq<Member>, k: int)
    ensures WithKey(InsertByKey(m, ms), k) == WithKey([m] + ms, k)
  {
    assert ([m] + ms)[1..] == ms;
    if ms == [] || SortKey(m) >= SortKey(ms[0]) {
    } else {
      InsertStable(m, ms[1..], k);
      var t := InsertByKey(m, ms[1..]);
      assert ([ms[0]] + t)[1..] == t && ([m] + ms[1..])[1..] == ms[1..];
    }
  }

  /** The sort is a permutation, descending in queries and hundredfold leases, and keeps equal members in order. */
  lemma {:induction false} SortFacts(ms: seq<Member>, k: int)
    ensures multiset(SortedByKey(ms)) == multiset(ms)
    ensures Descending(SortedByKey(ms))
    ensures WithKey(SortedByKey(ms), k) == WithKey(ms, k)
  {
    if ms != [] {
      SortFacts(ms[1..], k);
      var t := SortedByKey(ms[1..]);
      InsertPermutes(ms[0], t);
      InsertDescends(ms[0], t);
      InsertStable(ms[0], t, k);
      assert ms == [ms[0]] + ms[1..];
      assert ([ms[0]] + t)[1..] == t;
    }
  }

  // ---------------------------------------------------------------- packing

  /** A run that the packer may build: it is not empty and it still fit after each later member joined. */
  ghost predicate Run(run: seq<Member>, cap: Capacity)
  {
    run != [] && forall n | 2 <= n <= |run| :: PrefixFits(run, n, cap)
  }

  ghost predicate PrefixFits(run: seq<Member>, n: nat, cap: Capacity)
    requires n <= |run|
  {
    Fits(run[..n], cap)
  }

  /** The packer had to close `run` before the first member of `next`. */
  ghost predicate MustClose(run: seq<Member>, next: seq<Member>, cap: Capacity)
  {
    next != [] && !Fits(run + [next[0]], cap)
  }

  /** `groups` cuts `ms` into runs; a run is closed only because the next member would not fit. */
  ghost predicate NextFit(groups: seq<seq<Member>>, ms: seq<Member>, cap: Capacity)
  {
    && Flatten(groups) == ms
    && (forall i | 0 <= i < |groups| :: Run(groups[i], cap))
    && (forall i, j | 0 <= i < |groups| && j == i + 1 < |groups| :: MustClose(groups[i], groups[j], cap))
  }

  /** The record pushed for a run: exact totals, first tier covering metrics and connections
      (else XL), and the price of the connections beyond that tier. */
  ghost predicate Sized(inst: Instance, index: nat, tiers: seq<ServerTokenTier>, cost: nat)
    requires tiers != []
  {
    && inst.index == index
    && inst.total == Total(inst.members)
    && inst.connectionsUsed == |inst.members|
    && FirstAccepted(tiers, t => CoversWith(t, inst.total, inst.connectionsUsed), inst.tier)
    && inst.extraConnections == (if inst.connectionsUsed > Connections(inst.tier)
                                 then inst.connectionsUsed - Connections(inst.tier) else 0)
    && inst.extraConnectionTokens == inst.extraConnections * cost
    && inst.totalTokens == inst.tier.serverTokens + inst.extraConnectionTokens
  }

  function Groups(instances: seq<Instance>): (r: seq<seq<Member>>)
  {
    if instances == [] then [] else Groups(instances[..|instances| - 1]) + [instances[|instances| - 1].members]
  }

  ghost predicate AllSized(instances: seq<Instance>, tiers: seq<ServerTokenTier>, cost: nat)
    requires tiers != []
  {
    forall i | 0 <= i < |instances| :: Sized(instances[i], i, tiers, cost)
  }

  lemma {:induction false} PushInstance(instances: seq<Instance>, inst: Instance, tiers: seq<ServerTokenTier>,
                                        cost: nat)
    requires tiers != [] && AllSized(instances, tiers, cost) && Sized(inst, |instances|, tiers, cost)
    ensures AllSized(instances + [inst], tiers, cost)
    ensures Groups(instances + [inst]) == Groups(instances) + [inst.members]
  {
    assert (instances + [inst])[..|instances|] == instances;
  }

  method FlushInstance(current: seq<Member>, running: Load, index: nat, tiers: seq<ServerTokenTier>, cost: nat)
    returns (inst: Instance)
    requires tiers != [] && running == Total(current)
    ensures inst.members == current && Sized(inst, index, tiers, cost)
  {
    var connectionsUsed := |current|;
    var tier := tiers[|tiers| - 1];
    var i := 0;
    while i < |tiers|
      invariant 0 <= i <= |tiers|
      invariant forall j | 0 <= j < i :: !CoversWith(tiers[j], running, connectionsUsed)
      invariant tier == tiers[|tiers| - 1]
    {
      if CoversWith(tiers[i], running, connectionsUsed) {
        tier := tiers[i];
        break;
      }
      i := i + 1;
    }
    var extra := if connectionsUsed > Connections(tier) then connectionsUsed - Connections(tier) else 0;
    inst := Instance(index, current, running, connectionsUsed, tier, extra, extra * cost,
                     tier.serverTokens + extra * cost);
  }

  /** One more member would break an XL limit. */
  predicate Overflows(running: Load, count: nat, member: Member, xl: ServerTokenTier, maxExtra: nat)
  {
    var next := Add(running, Demand(member));
    next.qps > xl.maxQps || next.lps > xl.maxLps || next.objects > xl.maxObjects
    || count + 1 > Connections(xl) + maxExtra
  }

  lemma {:induction false} OverflowIsMisfit(current: seq<Member>, member: Member, tiers: seq<ServerTokenTier>,
                                            maxExtra: nat)
    requires tiers != []
    ensures Overflows(Total(current), |current|, member, tiers[|tiers| - 1], maxExtra)
            <==> !Fits(current + [member], CapacityOf(tiers, maxExtra))
    ensures Total(current + [member]) == Add(Total(current), Demand(member))
            && Total([member]) == Add(Load(0, 0, 0), Demand(member))
  {
    assert (current + [member])[..|current|] == current && [member][..0] == [];
  }

  /** The state of the packer after the members `ms`: flushed instances and the open run. */
  ghost predicate Packed(instances: seq<Instance>, current: seq<Member>, ms: seq<Member>, cap: Capacity,
                         tiers: seq<ServerTokenTier>, cost: nat)
    requires tiers != []
  {
    && AllSized(instances, tiers, cost)
    && if ms == [] then current == [] && instances == []
       else current != [] && NextFit(Groups(instances) + [current], ms, cap)
  }

  lemma {:induction false} Flushed(instances: seq<Instance>, current: seq<Member>, inst: Instance, ms: seq<Member>,
                                   cap: Capacity, tiers: seq<ServerTokenTier>, cost: nat)
    requires tiers != [] && Packed(instances, current, ms, cap, tiers, cost) && ms != []
    requires inst.members == current && Sized(inst, |instances|, tiers, cost)
    ensures AllSized(instances + [inst], tiers, cost) && NextFit(Groups(instances + [inst]), ms, cap)
    ensures Groups(instances + [inst]) == Groups(instances) + [current]
  {
    PushInstance(instances, inst, tiers, cost);
  }

  lemma {:induction false} Opened(instances: seq<Instance>, current: seq<Member>, inst: Instance, member: Member,
                                  ms: seq<Member>,
                                  cap: Capacity, tiers: seq<ServerTokenTier>, cost: nat)
    requires tiers != [] && Packed(instances, current, ms, cap, tiers, cost) && ms != []
    requires inst.members == current && Sized(inst, |instances|, tiers, cost)
    requires !Fits(current + [member], cap)
    ensures Packed(instances + [inst], [member], ms + [member], cap, tiers, cost)
  {
    Flushed(instances, current, inst, ms, cap, tiers, cost);
    OpenRun(Groups(instances) + [current], member, ms, cap);
  }

  lemma {:induction false} Grown(instances: seq<Instance>, current: seq<Member>, member: Member, ms: seq<Member>,
                                 cap: Capacity, tiers: seq<ServerTokenTier>, cost: nat)
    requires tiers != [] && Packed(instances, current, ms, cap, tiers, cost)
    requires current == [] || Fits(current + [member], cap)
    ensures Packed(instances, current + [member], ms + [member], cap, tiers, cost)
  {
    GrowRun(Groups(instances), current, member, ms, cap);
  }

  method Consolidate(members: seq<Member>, tiers: seq<ServerTokenTier>, maxExtra: nat, cost: nat)
    returns (instances: seq<Instance>)
    requires tiers != []
    ensures NextFit(Groups(instances), SortedByKey(members), CapacityOf(tiers, maxExtra))
    ensures AllSized(instances, tiers, cost)
  {
    instances := [];
    if members == [] {
      return;
    }
    var sorted := SortedByKey(members);
    SortFacts(members, 0);
    assert |sorted| > 0 by { assert |multiset(sorted)| == |multiset(members)|; }
    ghost var cap := CapacityOf(tiers, maxExtra);
    instances := PackSorted(sorted, tiers, maxExtra, cost, cap);
  }

  method PackSorted(sorted: seq<Member>, tiers: seq<ServerTokenTier>, maxExtra: nat, cost: nat, ghost cap: Capacity)
    returns (instances: seq<Instance>)
    requires tiers != [] && sorted != [] && cap == CapacityOf(tiers, maxExtra)
    ensures NextFit(Groups(instances), sorted, cap)
    ensures AllSized(instances, tiers, cost)
  {
    instances := [];
    var xl := tiers[|tiers| - 1];
    var current: seq<Member>, running := [], Load(0, 0, 0);
    assert Packed(instances, current, [], cap, tiers, cost);
    hide Packed, AllSized, NextFit, Groups, Sized, Fits, Total;
    for k := 0 to |sorted|
      invariant running == Total(current) && (current == [] <==> k == 0)
      invariant Packed(instances, current, sorted[..k], cap, tiers, cost)
    {
      var member := sorted[k];
      assert sorted[..k + 1] == sorted[..k] + [member];
      OverflowIsMisfit(current, member, tiers, maxExtra);
      if current != [] && Overflows(running, |current|, member, xl, maxExtra) {
        var inst := FlushInstance(current, running, |instances|, tiers, cost);
        Opened(instances, current, inst, member, sorted[..k], cap, tiers, cost);
        instances := instances + [inst];
        current, running := [], Load(0, 0, 0);
      } else {
        Grown(instances, current, member, sorted[..k], cap, tiers, cost);
      }
      current := current + [member];
      running := Add(running, Demand(member));
    }
    assert sorted[..|sorted|] == sorted;
    var last := FlushInstance(current, running, |instances|, tiers, cost);
    Flushed(instances, current, last, sorted, cap, tiers, cost);
    instances := instances + [last];
  }

  lemma {:induction false} GrowRun(before: seq<seq<Member>>, current: seq<Member>, member: Member, ms: seq<Member>,
                                   cap: Capacity)
    requires if current == [] then before == [] && ms == []
             else NextFit(before + [current], ms, cap) && Fits(current + [member], cap)
    ensures NextFit(before + [current + [member]], ms + [member], cap)
  {
    var prior, now, run := before + [current], before + [current + [member]], current + [member];
    FlattenSnoc(before, current);
    FlattenSnoc(before, run);
    assert Run(run, cap) by {
      assert current != [] ==> Run(prior[|before|], cap);
      forall n | 2 <= n <= |run|
        ensures PrefixFits(run, n, cap)
      {
        assert n <= |current| ==> PrefixFits(current, n, cap);
        assert run[..n] == if n <= |current| then current[..n] else run;
      }
    }
    forall i | 0 <= i < |before|
      ensures Run(now[i], cap) && MustClose(now[i], now[i + 1], cap)
    {
      assert now[i] == prior[i] && Run(prior[i], cap) && MustClose(prior[i], prior[i + 1], cap);
    }
  }

  lemma {:induction false} OpenRun(prior: seq<seq<Member>>, member: Member, ms: seq<Member>, cap: Capacity)
    requires NextFit(prior, ms, cap) && prior != []
    requires !Fits(prior[|prior| - 1] + [member], cap)
    ensures NextFit(prior + [[member]], ms + [member], cap)
  {
    FlattenSnoc(prior, [member]);
    var now := prior + [[member]];
    forall i, j | 0 <= i < |now| && j == i + 1 < |now|
      ensures MustClose(now[i], now[j], cap)
    {
      assert j < |prior| ==> MustClose(prior[i], prior[j], cap);
    }
  }

  // ---------------------------------------------------------------- what the packing guarantees

  ghost predicate NonNegative(ms: seq<Member>)
  {
    forall m | m in ms :: m.qps >= 0 && m.lps >= 0 && m.objectCount >= 0
  }

  ghost predicate Positive(cap: Capacity)
  {
    cap.xl.maxQps > 0 && cap.xl.maxLps > 0 && cap.xl.maxObjects > 0 && cap.connections > 0
  }

  function Ratio(amount: int, limit: nat): real
    requires limit > 0
  {
    amount as real / limit as real
  }

  /** Demand of `ms` in units of one full instance, added over the four limits. */
  function Size(ms: seq<Member>, cap: Capacity): real
    requires Positive(cap)
  {
    var t := Total(ms);
    Ratio(t.qps, cap.xl.maxQps) + Ratio(t.lps, cap.xl.maxLps) + Ratio(t.objects, cap.xl.maxObjects)
    + Ratio(|ms|, cap.connections)
  }

  lemma {:induction false} RatioAdd(a: int, b: int, limit: nat)
    requires limit > 0
    ensures Ratio(a + b, limit) == Ratio(a, limit) + Ratio(b, limit)
  {
  }

  lemma {:induction false} RatioOrder(a: int, limit: nat)
    requires limit > 0
    ensures a >= 0 ==> Ratio(a, limit) >= 0.0
    ensures a > 0 ==> Ratio(a, limit) > 0.0
    ensures a > limit <==> Ratio(a, limit) > 1.0
  {
  }

  lemma {:induction false} TotalAppend(a: seq<Member>, b: seq<Member>)
    ensures Total(a + b) == Add(Total(a), Total(b))
  {
    if b == [] {
      assert a + b == a;
    } else {
      assert (a + b)[..|a + b| - 1] == a + b[..|b| - 1];
      TotalAppend(a, b[..|b| - 1]);
    }
  }

  /** Demand does not depend on the order of the members. */
  lemma {:induction false} TotalPermutes(a: seq<Member>, b: seq<Member>)
    requires multiset(a) == multiset(b)
    ensures Total(a) == Total(b) && |a| == |b|
  {
    if a == [] {
      assert |multiset(b)| == 0;
    } else {
      var k := RemoveHead(a, b);
      TotalPermutes(a[1..], b[..k] + b[k + 1..]);
      assert a == [a[0]] + a[1..] && b == b[..k] + ([b[k]] + b[k + 1..]);
      TotalAppend([a[0]], a[1..]);
      TotalAppend(b[..k], [b[k]] + b[k + 1..]);
      TotalAppend([b[k]], b[k + 1..]);
      TotalAppend(b[..k], b[k + 1..]);
    }
  }

  lemma {:induction false} SizeAppend(a: seq<Member>, b: seq<Member>, cap: Capacity)
    requires Positive(cap)
    ensures Size(a + b, cap) == Size(a, cap) + Size(b, cap)
  {
    TotalAppend(a, b);
    SizeParts(Total(a), Total(b), |a|, |b|, cap);
    hide Total, Ratio;
  }

  lemma {:induction false} SizeParts(s: Load, t: Load, m: nat, n: nat, cap: Capacity)
    requires Positive(cap)
    ensures Ratio(s.qps + t.qps, cap.xl.maxQps) == Ratio(s.qps, cap.xl.maxQps) + Ratio(t.qps, cap.xl.maxQps)
    ensures Ratio(s.lps + t.lps, cap.xl.maxLps) == Ratio(s.lps, cap.xl.maxLps) + Ratio(t.lps, cap.xl.maxLps)
    ensures Ratio(s.objects + t.objects, cap.xl.maxObjects)
            == Ratio(s.objects, cap.xl.maxObjects) + Ratio(t.objects, cap.xl.maxObjects)
    ensures Ratio(m + n, cap.connections) == Ratio(m, cap.connections) + Ratio(n, cap.connections)
  {
    hide Ratio;
    RatioAdd(s.qps, t.qps, cap.xl.maxQps);
    RatioAdd(s.lps, t.lps, cap.xl.maxLps);
    RatioAdd(s.objects, t.objects, cap.xl.maxObjects);
    RatioAdd(m, n, cap.connections);
  }

  lemma {:induction false} TotalNonNegative(ms: seq<Member>)
    requires NonNegative(ms)
    ensures Total(ms).qps >= 0 && Total(ms).lps >= 0 && Total(ms).objects >= 0
  {
    if ms != [] {
      assert ms[|ms| - 1] in ms;
      TotalNonNegative(ms[..|ms| - 1]);
    }
  }

  lemma {:induction false} SizeBounds(ms: seq<Member>, cap: Capacity)
    requires NonNegative(ms) && Positive(cap)
    ensures Size(ms, cap) >= 0.0
    ensures ms != [] ==> Size(ms, cap) > 0.0
    ensures !Fits(ms, cap) ==> Size(ms, cap) > 1.0
    ensures Fits(ms, cap) ==> Size(ms, cap) <= 4.0
  {
    TotalNonNegative(ms);
    var t := Total(ms);
    RatioOrder(t.qps, cap.xl.maxQps);
    RatioOrder(t.lps, cap.xl.maxLps);
    RatioOrder(t.objects, cap.xl.maxObjects);
    RatioOrder(|ms|, cap.connections);
  }

  /** A closed run and its successor together exceed one instance. */
  lemma {:induction false} ClosedRunsAreHeavy(run: seq<Member>, next: seq<Member>, cap: Capacity)
    requires NonNegative(run) && NonNegative(next) && Positive(cap) && MustClose(run, next, cap)
    ensures Size(run, cap) + Size(next, cap) > 1.0
  {
    SizeBounds(run + [next[0]], cap);
    SizeAppend(run, [next[0]], cap);
    assert next == [next[0]] + next[1..];
    SizeAppend([next[0]], next[1..], cap);
    SizeBounds(next[1..], cap);
  }

  lemma {:induction false} RunsOutweighCount(groups: seq<seq<Member>>, ms: seq<Member>, cap: Capacity)
    requires NonNegative(ms) && Positive(cap) && NextFit(groups, ms, cap) && groups != []
    ensures (|groups| - 1) as real
            <= 2.0 * Size(ms, cap) - Size(groups[0], cap) - Size(groups[|groups| - 1], cap)
  {
    var rest := Flatten(groups[1..]);
    SizeAppend(groups[0], rest, cap);
    assert forall m | m in groups[0] + rest :: m in ms;
    assert forall m | m in rest :: m in groups[0] + rest;
    if |groups| == 1 {
      assert groups[1..] == [] && rest == [] && groups[0] + rest == groups[0];
    } else {
      var tail := groups[1..];
      assert NextFit(tail, rest, cap) by {
        forall i, j | 0 <= i < |tail| && j == i + 1 < |tail|
          ensures MustClose(tail[i], tail[j], cap)
        {
          assert tail[i] == groups[i + 1] && tail[j] == groups[j + 1];
        }
      }
      RunsOutweighCount(tail, rest, cap);
      assert MustClose(groups[0], groups[1], cap);
      assert rest == groups[1] + Flatten(tail[1..]);
      ClosedRunsAreHeavy(groups[0], groups[1], cap);
    }
  }

  /** Fewer than 2S + 1 instances, where S adds the four total-demand to XL-limit ratios. */
  lemma {:induction false} PackingBound(members: seq<Member>, groups: seq<seq<Member>>, cap: Capacity)
    requires NonNegative(members) && Positive(cap) && NextFit(groups, SortedByKey(members), cap)
    ensures |groups| as real < 2.0 * Size(members, cap) + 1.0
  {
    var sorted := SortedByKey(members);
    SortFacts(members, 0);
    TotalPermutes(sorted, members);
    SizeBounds(members, cap);
    forall m | m in sorted
      ensures m in members
    {
      assert m in multiset(sorted);
    }
    if groups != [] {
      RunsOutweighCount(groups, sorted, cap);
      assert Run(groups[0], cap) && Run(groups[|groups| - 1], cap);
      forall i, m | 0 <= i < |groups| && m in groups[i]
        ensures m in members
      {
        InFlatten(groups, i, m);
      }
      SizeBounds(groups[0], cap);
      SizeBounds(groups[|groups| - 1], cap);
    }
  }

  lemma {:induction false} InFlatten(groups: seq<seq<Member>>, i: nat, m: Member)
    requires i < |groups| && m in groups[i]
    ensures m in Flatten(groups)
  {
    if i > 0 {
      InFlatten(groups[1..], i - 1, m);
    }
  }

  lemma {:induction false} LegalPackingSize(other: seq<seq<Member>>, cap: Capacity)
    requires Positive(cap) && NonNegative(Flatten(other))
    requires forall i | 0 <= i < |other| :: Fits(other[i], cap)
    ensures Size(Flatten(other), cap) <= 4.0 * |other| as real
  {
    if other != [] {
      assert Flatten(other) == other[0] + Flatten(other[1..]);
      SizeAppend(other[0], Flatten(other[1..]), cap);
      assert forall m | m in other[0] || m in Flatten(other[1..]) :: m in Flatten(other);
      SizeBounds(other[0], cap);
      LegalPackingSize(other[1..], cap);
    } else {
      assert Total([]) == Load(0, 0, 0);
    }
  }

  ghost predicate LegalPacking(other: seq<seq<Member>>, members: seq<Member>, cap: Capacity)
  {
    multiset(Flatten(other)) == multiset(members) && forall i | 0 <= i < |other| :: Fits(other[i], cap)
  }

  /** At most eight times as many instances as any packing that respects the XL limits. */
  lemma {:induction false} AtMostEightTimesAnyPacking(members: seq<Member>, groups: seq<seq<Member>>,
                                                      other: seq<seq<Member>>, cap: Capacity)
    requires NonNegative(members) && Positive(cap) && NextFit(groups, SortedByKey(members), cap)
    requires LegalPacking(other, members, cap)
    ensures |groups| <= 8 * |other|
  {
    PackingBound(members, groups, cap);
    TotalPermutes(Flatten(other), members);
    forall m | m in Flatten(other)
      ensures m in members
    {
      assert m in multiset(Flatten(other));
    }
    LegalPackingSize(other, cap);
  }

  lemma {:induction false} NonNegativePermutes(a: seq<Member>, b: seq<Member>)
    requires multiset(a) == multiset(b) && NonNegative(a)
    ensures NonNegative(b)
  {
    forall m | m in b
      ensures m in a
    {
      assert m in multiset(b);
    }
  }

  /** A second run is opened only when the members do not all fit together. */
  lemma {:induction false} SecondRunMeansOverfull(groups: seq<seq<Member>>, ms: seq<Member>, cap: Capacity)
    requires NonNegative(ms) && NextFit(groups, ms, cap) && |groups| >= 2
    ensures !Fits(ms, cap)
  {
    FirstRunClosesAt(groups, ms, cap);
    var n := |groups[0]| + 1;
    assert ms == ms[..n] + ms[n..];
    TotalAppend(ms[..n], ms[n..]);
    TotalNonNegative(ms[n..]);
  }

  lemma {:induction false} FirstRunClosesAt(groups: seq<seq<Member>>, ms: seq<Member>, cap: Capacity)
    requires NextFit(groups, ms, cap) && groups != []
    ensures 0 < |groups[0]| <= |ms| && groups[0] == ms[..|groups[0]|]
    ensures forall n | 2 <= n <= |groups[0]| :: PrefixFits(ms, n, cap)
    ensures |groups| == 1 ==> groups[0] == ms
    ensures |groups| >= 2 ==> |groups[0]| < |ms| && !Fits(ms[..|groups[0]| + 1], cap)
  {
    var run := groups[0];
    assert Run(run, cap);
    assert ms == run + Flatten(groups[1..]);
    forall n | 2 <= n <= |run|
      ensures PrefixFits(ms, n, cap)
    {
      assert PrefixFits(run, n, cap) && run[..n] == ms[..n];
    }
    if |groups| >= 2 {
      assert MustClose(run, groups[1], cap);
      assert Flatten(groups[1..]) == groups[1] + Flatten(groups[1..][1..]);
      assert ms[..|run| + 1] == run + [groups[1][0]];
    } else {
      assert groups[1..] == [];
    }
  }

  /** One instance is returned exactly when there is one member or everything fits together. */
  lemma {:induction false} OneInstanceIff(members: seq<Member>, groups: seq<seq<Member>>, cap: Capacity)
    requires NonNegative(members) && NextFit(groups, SortedByKey(members), cap)
    ensures |groups| == 1 <==> |members| == 1 || (members != [] && Fits(members, cap))
  {
    hide SortedByKey, Total;
    var sorted := SortedByKey(members);
    SortFacts(members, 0);
    TotalPermutes(sorted, members);
    NonNegativePermutes(members, sorted);
    if groups != [] {
      FirstRunClosesAt(groups, sorted, cap);
      assert sorted[..|sorted|] == sorted;
      assert |groups| == 1 && |sorted| >= 2 ==> PrefixFits(sorted, |sorted|, cap);
      if |groups| >= 2 {
        SecondRunMeansOverfull(groups, sorted, cap);
      }
    }
  }

  /** NextFit leaves no freedom: it has one solution for each member order. */
  lemma {:induction false} NextFitIsUnique(a: seq<seq<Member>>, b: seq<seq<Member>>, ms: seq<Member>, cap: Capacity)
    requires NextFit(a, ms, cap) && NextFit(b, ms, cap)
    ensures a == b
  {
    if a != [] {
      FirstRunClosesAt(a, ms, cap);
    }
    if b != [] {
      FirstRunClosesAt(b, ms, cap);
    }
    if a != [] && b != [] {
      assert |a[0]| < |b[0]| ==> PrefixFits(ms, |a[0]| + 1, cap);
      assert |b[0]| < |a[0]| ==> PrefixFits(ms, |b[0]| + 1, cap);
      TailNextFit(a, ms, cap);
      TailNextFit(b, ms, cap);
      NextFitIsUnique(a[1..], b[1..], ms[|a[0]|..], cap);
      assert a == [a[0]] + a[1..] && b == [b[0]] + b[1..];
    }
  }

  lemma {:induction false} TailNextFit(a: seq<seq<Member>>, ms: seq<Member>, cap: Capacity)
    requires NextFit(a, ms, cap) && a != []
    ensures |a[0]| <= |ms| && NextFit(a[1..], ms[|a[0]|..], cap)
  {
    var tail := a[1..];
    assert ms == a[0] + Flatten(tail);
    forall i, j | 0 <= i < |tail| && j == i + 1 < |tail|
      ensures MustClose(tail[i], tail[j], cap)
    {
      assert tail[i] == a[i + 1] && tail[j] == a[j + 1];
    }
  }

  /** Every instance the packer returns: the members are shared out without loss, groups of two or
      more respect all XL limits, and extra connections are bought only at XL and within the cap. */
  lemma {:induction false} InstancesAreLegal(members: seq<Member>, instances: seq<Instance>,
                                             tiers: seq<ServerTokenTier>, maxExtra: nat, cost: nat, i: nat)
    requires tiers != [] && Connections(tiers[|tiers| - 1]) + maxExtra > 0
    requires NextFit(Groups(instances), SortedByKey(members), CapacityOf(tiers, maxExtra))
    requires AllSized(instances, tiers, cost) && i < |instances|
    ensures multiset(Flatten(Groups(instances))) == multiset(members)
    ensures instances[i].members != []
    ensures |instances[i].members| >= 2 ==> Fits(instances[i].members, CapacityOf(tiers, maxExtra))
    ensures instances[i].extraConnections > 0 ==> instances[i].tier == tiers[|tiers| - 1]
    ensures instances[i].extraConnections <= maxExtra
  {
    SortFacts(members, 0);
    var inst, cap := instances[i], CapacityOf(tiers, maxExtra);
    GroupAt(instances, i);
    assert Run(Groups(instances)[i], cap) && Sized(inst, i, tiers, cost);
    assert inst.members[..|inst.members|] == inst.members;
    assert |inst.members| >= 2 ==> PrefixFits(inst.members, |inst.members|, cap);
  }

  lemma {:induction false} GroupAt(instances: seq<Instance>, i: nat)
    requires i < |instances|
    ensures |Groups(instances)| == |instances| && Groups(instances)[i] == instances[i].members
  {
    var n := |instances| - 1;
    if i < n {
      GroupAt(instances[..n], i);
    } else if n > 0 {
      GroupAt(instances[..n], n - 1);
    }
  }

  /** The limits of one XL instance with every extra connection bought. */
  predicate IsXlCapacity(cap: Capacity)
  {
    && cap.xl.maxQps == 115000 && cap.xl.maxLps == 675 && cap.xl.maxObjects == 880000
    && cap.connections == 485
  }

  /** Four members on which the packer needs three instances although two would do. */
  predicate Awkward(a: Member, b: Member, c: Member, d: Member, cap: Capacity)
  {
    && Descending([a, b, c, d]) && cap.connections >= 2
    && a.qps + b.qps > cap.xl.maxQps && b.qps + c.qps + d.qps > cap.xl.maxQps
    && PairWithin(a, d, cap) && PairWithin(b, c, cap)
  }

  predicate PairWithin(a: Member, b: Member, cap: Capacity)
  {
    && a.qps + b.qps <= cap.xl.maxQps && a.lps + b.lps <= cap.xl.maxLps
    && a.objectCount + b.objectCount <= cap.xl.maxObjects
  }

  /** Such members exist at the real XL limits. */
  lemma {:induction false} AwkwardMembersExist(cap: Capacity)
    requires IsXlCapacity(cap)
    ensures exists a, b, c, d :: Awkward(a, b, c, d, cap)
  {
    var b := Member("b", 57500, 0, 0);
    assert Awkward(Member("a", 69000, 0, 0), b, b, Member("d", 46000, 0, 0), cap);
  }

  /** The packer does not always return the fewest instances: here it returns three ... */
  lemma {:induction false} FewestIsNotGuaranteed(a: Member, b: Member, c: Member, d: Member, cap: Capacity)
    requires Awkward(a, b, c, d, cap)
    ensures NextFit([[a], [b, c], [d]], SortedByKey([a, b, c, d]), cap)
  {
    AlreadySorted([a, b, c, d]);
    AwkwardRuns(a, b, c, d, cap);
    hide Fits, Awkward, SortedByKey, Total;
    FlattenThree([a], [b, c], [d]);
    assert [a] + [b, c] + [d] == [a, b, c, d];
  }

  lemma {:induction false} AwkwardRuns(a: Member, b: Member, c: Member, d: Member, cap: Capacity)
    requires Awkward(a, b, c, d, cap)
    ensures Run([a], cap) && Run([b, c], cap) && Run([d], cap)
    ensures MustClose([a], [b, c], cap) && MustClose([b, c], [d], cap)
  {
    PairTotal(a, b);
    PairTotal(b, c);
    TripleTotal(b, c, d);
    hide Total;
    assert [a] + [b] == [a, b] && [b, c] + [d] == [b, c, d] && [b, c][..2] == [b, c];
    assert PrefixFits([b, c], 2, cap);
  }

  lemma {:induction false} TripleTotal(a: Member, b: Member, c: Member)
    ensures Total([a, b, c]) == Add(Total([a, b]), Demand(c))
  {
    assert [a, b, c][..2] == [a, b];
  }

  /** ... while two instances hold the same members within every XL limit. */
  lemma {:induction false} TwoWouldSuffice(a: Member, b: Member, c: Member, d: Member, cap: Capacity)
    requires Awkward(a, b, c, d, cap)
    ensures LegalPacking([[a, d], [b, c]], [a, b, c, d], cap)
  {
    PairFits(a, d, cap);
    PairFits(b, c, cap);
    TwoPairs(a, b, c, d);
  }

  lemma {:induction false} PairFits(a: Member, b: Member, cap: Capacity)
    requires PairWithin(a, b, cap) && cap.connections >= 2
    ensures Fits([a, b], cap)
  {
    PairTotal(a, b);
  }

  lemma {:induction false} TwoPairs(a: Member, b: Member, c: Member, d: Member)
    ensures multiset(Flatten([[a, d], [b, c]])) == multiset([a, b, c, d])
  {
    FlattenSnoc([[a, d]], [b, c]);
    assert [[a, d]] + [[b, c]] == [[a, d], [b, c]] && Flatten([[a, d]]) == [a, d];
  }

  lemma {:induction false} AlreadySorted(ms: seq<Member>)
    requires Descending(ms)
    ensures SortedByKey(ms) == ms
  {
    if ms != [] {
      AlreadySorted(ms[1..]);
    }
  }

  lemma {:induction false} FlattenThree(a: seq<Member>, b: seq<Member>, c: seq<Member>)
    ensures Flatten([a, b, c]) == a + b + c
  {
    assert [a, b, c] == [a] + ([b] + [c]);
    FlattenAppend([a], [b] + [c]);
    FlattenAppend([b], [c]);
    assert Flatten([a]) == a && Flatten([b]) == b && Flatten([c]) == c;
  }

  lemma {:induction false} PairTotal(a: Member, b: Member)
    ensures Total([a, b]) == Add(Demand(a), Demand(b))
  {
    assert [a, b][..1] == [a] && [a][..0] == [];
    assert Total([a]) == Demand(a);
  }
}
