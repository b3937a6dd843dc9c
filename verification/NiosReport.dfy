/** The results of a NIOS scan (internal/scanner/nios/scanner.go): finding rows, per-member metrics,
    and the conservation law from object stream to report. */
module NiosReport {
  import opened Sums
  import opened Calculator
  import opened NiosResolver
  import opened NiosPass1
  import opened NiosEffects
  import opened NiosCounter
  import opened NiosLaws

  // ------------------------------------------------------------ finding rows

  function DDIRow(source: string, item: string, count: int): FindingRow
  {
    FindingRow("nios", source, "", CATEGORY_DDI_OBJECTS, item, count, NIOS_TOKENS_PER_DDI_OBJECT,
               CeilDiv(count, NIOS_TOKENS_PER_DDI_OBJECT))
  }

  function AddressRow(source: string, count: int): FindingRow
  {
    FindingRow("nios", source, "", CATEGORY_ACTIVE_IPS, "Active IPs", count, NIOS_TOKENS_PER_ACTIVE_IP,
               CeilDiv(count, NIOS_TOKENS_PER_ACTIVE_IP))
  }

  /** The row of some non-zero family of `source`. */
  ghost predicate IsFamilyRow(r: FindingRow, source: string, families: map<string, int>, display: string -> string)
  {
    exists f :: f in families && families[f] != 0
                && r == FindingRow("nios", source, "", "DDI Objects", display(f), families[f], 50,
                                   CeilDiv(families[f], 50))
  }

  /** `rows` has one row for each non-zero family of `source`, and no other. */
  ghost predicate ListsFamilies(rows: seq<FindingRow>, source: string, families: map<string, int>,
                                display: string -> string)
  {
    forall r :: r in rows <==> IsFamilyRow(r, source, families, display)
  }

  /** Rows of one source, in the arbitrary order of the family map. */
  method RowsOfFamilies(source: string, families: map<string, int>, display: string -> string)
      returns (rows: seq<FindingRow>)
    ensures ListsFamilies(rows, source, families, display)
    ensures CategoryTotal(rows, CATEGORY_DDI_OBJECTS) == Total(families)
    ensures CategoryTotal(rows, CATEGORY_ACTIVE_IPS) == 0
  {
    rows := [];
    var keys := families.Keys;
    CategoriesDiffer();
    while keys != {}
      invariant keys <= families.Keys
      invariant CategoryTotal(rows, CATEGORY_DDI_OBJECTS) + SumOver(keys, f => Count(families, f)) == Total(families)
      invariant CategoryTotal(rows, CATEGORY_ACTIVE_IPS) == 0
      invariant forall r | r in rows :: exists f ::
                f in families && families[f] != 0 && r == DDIRow(source, display(f), families[f])
      invariant forall f | f in families && families[f] != 0 && f !in keys ::
                DDIRow(source, display(f), families[f]) in rows
    {
      var family :| family in keys;
      SumSplit(keys, f => Count(families, f), family);
      var count := families[family];
      if count != 0 {
        var row := DDIRow(source, display(family), count);
        assert (rows + [row])[..|rows|] == rows;
        rows := rows + [row];
      }
      keys := keys - {family};
    }
  }

  ghost predicate IsMemberRow(r: FindingRow, memberDDI: map<string, map<string, int>>, display: string -> string)
  {
    exists h :: h in memberDDI && IsFamilyRow(r, h, memberDDI[h], display)
  }

  /** `rows` has the rows of every member, and no other. */
  ghost predicate ListsMembers(rows: seq<FindingRow>, memberDDI: map<string, map<string, int>>,
                               display: string -> string)
  {
    forall r :: r in rows <==> IsMemberRow(r, memberDDI, display)
  }

  method RowsOfMembers(memberDDI: map<string, map<string, int>>, display: string -> string)
      returns (rows: seq<FindingRow>)
    ensures ListsMembers(rows, memberDDI, display)
    ensures CategoryTotal(rows, CATEGORY_DDI_OBJECTS) == MembersTotal(memberDDI)
    ensures CategoryTotal(rows, CATEGORY_ACTIVE_IPS) == 0
  {
    rows := [];
    var hosts := memberDDI.Keys;
    while hosts != {}
      invariant hosts <= memberDDI.Keys
      invariant CategoryTotal(rows, CATEGORY_DDI_OBJECTS) + SumOver(hosts, h => MemberTotal(memberDDI, h))
                == MembersTotal(memberDDI)
      invariant CategoryTotal(rows, CATEGORY_ACTIVE_IPS) == 0
      invariant forall r ::
        r in rows <==> exists h :: h in memberDDI && h !in hosts && IsFamilyRow(r, h, memberDDI[h], display)
    {
      var hostname :| hostname in hosts;
      SumSplit(hosts, h => MemberTotal(memberDDI, h), hostname);
      var more := RowsOfFamilies(hostname, memberDDI[hostname], display);
      CategoryTotalAppend(rows, more, CATEGORY_DDI_OBJECTS);
      CategoryTotalAppend(rows, more, CATEGORY_ACTIVE_IPS);
      rows := rows + more;
      hosts := hosts - {hostname};
    }
  }

  ghost function AddressTotal(accs: map<string, Acc>): int
  {
    SumOver(accs.Keys, h => if h in accs then |accs[h].memberIPs| else 0)
  }

  ghost predicate IsAddressRow(r: FindingRow, accs: map<string, Acc>)
  {
    exists h :: h in accs && accs[h].memberIPs != {}
                && r == FindingRow("nios", h, "", "Active IPs", "Active IPs", |accs[h].memberIPs|, 25,
                                   CeilDiv(|accs[h].memberIPs|, 25))
  }

  /** One row for each member with an address, and no other. */
  method RowsOfAddresses(accs: map<string, Acc>) returns (rows: seq<FindingRow>)
    ensures forall r :: r in rows <==> IsAddressRow(r, accs)
    ensures CategoryTotal(rows, CATEGORY_ACTIVE_IPS) == AddressTotal(accs)
    ensures CategoryTotal(rows, CATEGORY_DDI_OBJECTS) == 0
  {
    rows := [];
    var hosts := accs.Keys;
    CategoriesDiffer();
    ghost var size := (h: string) => if h in accs then |accs[h].memberIPs| else 0;
    while hosts != {}
      invariant hosts <= accs.Keys
      invariant CategoryTotal(rows, CATEGORY_ACTIVE_IPS) + SumOver(hosts, size) == SumOver(accs.Keys, size)
      invariant CategoryTotal(rows, CATEGORY_DDI_OBJECTS) == 0
      invariant forall h | h in accs && h !in hosts && accs[h].memberIPs != {} ::
                AddressRow(h, |accs[h].memberIPs|) in rows
      invariant forall r | r in rows :: IsAddressRow(r, accs)
    {
      var hostname :| hostname in hosts;
      SumSplit(hosts, size, hostname);
      if |accs[hostname].memberIPs| > 0 {
        var row := AddressRow(hostname, |accs[hostname].memberIPs|);
        assert (rows + [row])[..|rows|] == rows;
        rows := rows + [row];
      }
      hosts := hosts - {hostname};
    }
    SumCongruent(accs.Keys, size, h => if h in accs then |accs[h].memberIPs| else 0);
  }

  /** The rows that a report of `s` should have, and no other. */
  ghost predicate ListsAll(rows: seq<FindingRow>, s: Counts, gmHostname: string, display: string -> string)
  {
    forall r :: r in rows <==>
      || IsMemberRow(r, s.memberDDI, display)
      || IsFamilyRow(r, gmHostname, s.unresolvedDDI, display)
      || IsAddressRow(r, s.accs)
  }

  /** The unfiltered rows: members' families, unresolved families under the Grid Master, addresses. */
  method BuildRows(s: Counts, gmHostname: string, display: string -> string) returns (rows: seq<FindingRow>)
    ensures ListsAll(rows, s, gmHostname, display)
    ensures CategoryTotal(rows, CATEGORY_DDI_OBJECTS) == MembersTotal(s.memberDDI) + Total(s.unresolvedDDI)
    ensures CategoryTotal(rows, CATEGORY_ACTIVE_IPS) == AddressTotal(s.accs)
  {
    var members := RowsOfMembers(s.memberDDI, display);
    var unresolved := RowsOfFamilies(gmHostname, s.unresolvedDDI, display);
    var addresses := RowsOfAddresses(s.accs);
    rows := members + unresolved + addresses;
    CategoryTotalAppend(members, unresolved, CATEGORY_DDI_OBJECTS);
    CategoryTotalAppend(members, unresolved, CATEGORY_ACTIVE_IPS);
    CategoryTotalAppend(members + unresolved, addresses, CATEGORY_DDI_OBJECTS);
    CategoryTotalAppend(members + unresolved, addresses, CATEGORY_ACTIVE_IPS);
  }

  // ------------------------------------------------------------ server metrics

  datatype Metric = Metric(memberName: string, objectCount: int, activeIPCount: int, managedIPCount: int)

  function AccOf(s: Counts, host: string): Acc { if host in s.accs then s.accs[host] else NO_ACC }

  /** The unresolved objects count with the Grid Master. */
  ghost function Extra(s: Counts, gmHostname: string, host: string): int
  {
    if host == gmHostname then Total(s.unresolvedDDI) else 0
  }

  /** What the metric of one member should say. */
  ghost function MetricOf(s: Counts, gmHostname: string, host: string): Metric
  {
    var acc := AccOf(s, host);
    Metric(host, acc.ddiCount + Extra(s, gmHostname, host), |acc.memberIPs|, |acc.memberIPs + acc.hostIPs|)
  }

  ghost function Meter(s: Counts, gmHostname: string): string -> Metric { host => MetricOf(s, gmHostname, host) }

  method SumUnresolved(unresolvedDDI: map<string, int>) returns (total: int)
    ensures total == Total(unresolvedDDI)
  {
    total := 0;
    var keys := unresolvedDDI.Keys;
    while keys != {}
      invariant keys <= unresolvedDDI.Keys
      invariant total + SumOver(keys, f => Count(unresolvedDDI, f)) == Total(unresolvedDDI)
    {
      var family :| family in keys;
      SumSplit(keys, f => Count(unresolvedDDI, f), family);
      total := total + unresolvedDDI[family];
      keys := keys - {family};
    }
  }

  lemma {:induction false} OneFewer<T>(part: set<T>, whole: set<T>, x: T)
    requires x in part
    ensures |(part - {x}) * whole| == |part * whole| - if x in whole then 1 else 0
  {
    if x in whole {
      assert (part - {x}) * whole == part * whole - {x};
    } else {
      assert (part - {x}) * whole == part * whole;
    }
  }

  lemma {:induction false} UnionSize<T>(a: set<T>, b: set<T>)
    ensures |a + b| == |a| + |b| - |b * a|
  {
    assert b * a == a * b;
  }

  /** Member addresses plus host addresses, less the addresses in both. */
  method CountManaged(acc: Acc) returns (managed: nat)
    ensures managed == |acc.memberIPs + acc.hostIPs|
  {
    var members, hosts := acc.memberIPs, acc.hostIPs;
    var overlap := 0;
    var ips := hosts;
    while ips != {}
      invariant ips <= hosts && overlap + |ips * members| == |hosts * members|
    {
      var ip :| ip in ips;
      OneFewer(ips, members, ip);
      if ip in members {
        overlap := overlap + 1;
      }
      ips := ips - {ip};
    }
    UnionSize(members, hosts);
    managed := |members| + |hosts| - overlap;
  }

  method BuildMetric(hostname: string, s: Counts, gmHostname: string, unresolvedTotal: int,
                     ghost meter: string -> Metric)
    returns (metric: Metric)
    requires unresolvedTotal == Total(s.unresolvedDDI) && meter == Meter(s, gmHostname)
    ensures metric == meter(hostname)
  {
    var objectCount, activeIPCount, managedIPCount := 0, 0, 0;
    if hostname in s.accs {
      var acc := s.accs[hostname];
      objectCount := acc.ddiCount;
      activeIPCount := |acc.memberIPs|;
      managedIPCount := CountManaged(acc);
    } else {
      assert NO_ACC.memberIPs + NO_ACC.hostIPs == {};
    }
    if hostname == gmHostname {
      objectCount := objectCount + unresolvedTotal;
    }
    metric := Metric(hostname, objectCount, activeIPCount, managedIPCount);
  }

  function SumObjects(metrics: seq<Metric>): int
  {
    if metrics == [] then 0 else SumObjects(metrics[..|metrics| - 1]) + metrics[|metrics| - 1].objectCount
  }

  lemma {:induction false} SumObjectsSnoc(metrics: seq<Metric>, m: Metric)
    ensures SumObjects(metrics + [m]) == SumObjects(metrics) + m.objectCount
  {
    assert (metrics + [m])[..|metrics|] == metrics;
  }

  /** `metrics` has the metrics of the virtual nodes `order`, one each. */
  ghost predicate Meters(metrics: seq<Metric>, vnodeMap: map<string, string>, order: seq<string>,
                         meter: string -> Metric)
  {
    |metrics| == |order| && forall i | 0 <= i < |order| ::
      order[i] in vnodeMap && metrics[i] == meter(vnodeMap[order[i]])
  }

  /** `order` enumerates all keys but those left, each once. */
  ghost predicate Enumerates(order: seq<string>, keys: set<string>, left: set<string>)
  {
    && left <= keys && (forall i | 0 <= i < |order| :: order[i] in keys && order[i] !in left)
    && (forall i, j | 0 <= i < j < |order| :: order[i] != order[j])
    && (forall k | k in keys && k !in left :: k in order)
  }

  lemma {:induction false} EnumeratesOneMore(order: seq<string>, keys: set<string>, left: set<string>, k: string)
    requires Enumerates(order, keys, left) && k in left
    ensures Enumerates(order + [k], keys, left - {k})
  {
    var more := order + [k];
    forall x | x in keys && x !in left - {k}
      ensures x in more
    {
      if x != k {
        assert x in order;
      } else {
        assert more[|order|] == k;
      }
    }
  }

  /** The object count the metric of a virtual node reports. */
  ghost function ObjectsOf(vnodeMap: map<string, string>, meter: string -> Metric): string -> int
  {
    oid => meter(Get(vnodeMap, oid)).objectCount
  }

  lemma {:induction false} MetersOneMore(metrics: seq<Metric>, vnodeMap: map<string, string>, order: seq<string>,
                                         meter: string -> Metric, oid: string)
    requires Meters(metrics, vnodeMap, order, meter) && oid in vnodeMap
    ensures Meters(metrics + [meter(vnodeMap[oid])], vnodeMap, order + [oid], meter)
    ensures SumObjects(metrics + [meter(vnodeMap[oid])]) == SumObjects(metrics) + ObjectsOf(vnodeMap, meter)(oid)
  {
    var m := meter(vnodeMap[oid]);
    assert Get(vnodeMap, oid) == vnodeMap[oid];
    assert ObjectsOf(vnodeMap, meter)(oid) == m.objectCount;
    SumObjectsSnoc(metrics, m);
  }

  /** One metric for each virtual node, in the arbitrary order of the map. */
  method BuildMetrics(vnodeMap: map<string, string>, s: Counts, gmHostname: string)
      returns (metrics: seq<Metric>, ghost order: seq<string>)
    ensures Enumerates(order, vnodeMap.Keys, {}) && Meters(metrics, vnodeMap, order, Meter(s, gmHostname))
    ensures SumObjects(metrics) == SumOver(vnodeMap.Keys, ObjectsOf(vnodeMap, Meter(s, gmHostname)))
  {
    var unresolvedTotal := SumUnresolved(s.unresolvedDDI);
    metrics, order := CollectMetrics(vnodeMap, s, gmHostname, unresolvedTotal, Meter(s, gmHostname));
  }

  method CollectMetrics(vnodeMap: map<string, string>, s: Counts, gmHostname: string, unresolvedTotal: int,
                        ghost meter: string -> Metric)
    returns (metrics: seq<Metric>, ghost order: seq<string>)
    requires unresolvedTotal == Total(s.unresolvedDDI) && meter == Meter(s, gmHostname)
    ensures Enumerates(order, vnodeMap.Keys, {}) && Meters(metrics, vnodeMap, order, meter)
    ensures SumObjects(metrics) == SumOver(vnodeMap.Keys, ObjectsOf(vnodeMap, meter))
  {
    metrics, order := [], [];
    var oids := vnodeMap.Keys;
    while oids != {}
      invariant Enumerates(order, vnodeMap.Keys, oids)
      invariant Meters(metrics, vnodeMap, order, meter)
      invariant SumObjects(metrics) + SumOver(oids, ObjectsOf(vnodeMap, meter))
                == SumOver(vnodeMap.Keys, ObjectsOf(vnodeMap, meter))
    {
      var oid :| oid in oids;
      SumSplit(oids, ObjectsOf(vnodeMap, meter), oid);
      EnumeratesOneMore(order, vnodeMap.Keys, oids, oid);
      MetersOneMore(metrics, vnodeMap, order, meter, oid);
      var metric := BuildMetric(vnodeMap[oid], s, gmHostname, unresolvedTotal, meter);
      metrics, order := metrics + [metric], order + [oid];
      oids := oids - {oid};
    }
  }

  // ------------------------------------------------------------ end to end

  ghost predicate DistinctHosts(vnodeMap: map<string, string>)
  {
    forall i, j | i in vnodeMap && j in vnodeMap && vnodeMap[i] == vnodeMap[j] :: i == j
  }

  /** Summing over virtual nodes with distinct hostnames is summing over the hostnames. */
  lemma {:induction false} SumOverHosts(vnodeMap: map<string, string>, hosts: set<string>, ofHost: string -> int,
                                        ofNode: string -> int)
    requires DistinctHosts(vnodeMap) && hosts <= vnodeMap.Values
    requires forall oid | oid in vnodeMap :: ofNode(oid) == ofHost(vnodeMap[oid])
    requires forall h | h in vnodeMap.Values - hosts :: ofHost(h) == 0
    ensures SumOver(vnodeMap.Keys, ofNode) == SumOver(hosts, ofHost)
  {
    SumReindex(vnodeMap.Keys, vnodeMap, ofHost, ofNode);
    assert Image(vnodeMap.Keys, vnodeMap) == vnodeMap.Values;
    SumRestrict(vnodeMap.Values, hosts, ofHost);
  }

  lemma {:induction false} CountIsMemberTotal(s: Counts, h: string)
    requires Balanced(s)
    ensures AccOf(s, h).ddiCount == MemberTotal(s.memberDDI, h)
  {
    if h !in s.accs {
      assert h !in s.memberDDI;
    }
  }

  lemma {:induction false} OwnObjectsConserve(vnodeMap: map<string, string>, s: Counts, own: string -> int)
    requires Balanced(s) && s.accs.Keys <= vnodeMap.Values && DistinctHosts(vnodeMap)
    requires forall oid | oid in vnodeMap :: own(oid) == AccOf(s, vnodeMap[oid]).ddiCount
    ensures SumOver(vnodeMap.Keys, own) == MembersTotal(s.memberDDI)
  {
    var total := (h: string) => MemberTotal(s.memberDDI, h);
    forall oid | oid in vnodeMap
      ensures own(oid) == total(vnodeMap[oid])
    {
      CountIsMemberTotal(s, vnodeMap[oid]);
    }
    SumOverHosts(vnodeMap, s.memberDDI.Keys, total, own);
    SumCongruent(s.memberDDI.Keys, total, h => MemberTotal(s.memberDDI, h));
  }

  lemma {:induction false} ExtraConserves(vnodeMap: map<string, string>, s: Counts, gmHostname: string,
                                          extra: string -> int)
    requires gmHostname in vnodeMap.Values && DistinctHosts(vnodeMap)
    requires forall oid | oid in vnodeMap :: extra(oid) == Extra(s, gmHostname, vnodeMap[oid])
    ensures SumOver(vnodeMap.Keys, extra) == Total(s.unresolvedDDI)
  {
    var master :| master in vnodeMap && vnodeMap[master] == gmHostname;
    SumSplit(vnodeMap.Keys, extra, master);
    SumZero(vnodeMap.Keys - {master}, extra);
  }

  ghost function OwnObjects(vnodeMap: map<string, string>, s: Counts): string -> int
  {
    oid => AccOf(s, Get(vnodeMap, oid)).ddiCount
  }

  ghost function ExtraObjects(vnodeMap: map<string, string>, s: Counts, gmHostname: string): string -> int
  {
    oid => Extra(s, gmHostname, Get(vnodeMap, oid))
  }

  lemma {:induction false} MeterAddsUp(vnodeMap: map<string, string>, s: Counts, gmHostname: string, oid: string)
    requires oid in vnodeMap
    ensures OwnObjects(vnodeMap, s)(oid) == AccOf(s, vnodeMap[oid]).ddiCount
    ensures ExtraObjects(vnodeMap, s, gmHostname)(oid) == Extra(s, gmHostname, vnodeMap[oid])
    ensures ObjectsOf(vnodeMap, Meter(s, gmHostname))(oid)
            == OwnObjects(vnodeMap, s)(oid) + ExtraObjects(vnodeMap, s, gmHostname)(oid)
  {
    hide Extra, AccOf;
    assert Get(vnodeMap, oid) == vnodeMap[oid];
  }

  lemma {:induction false} MetersAddUp(vnodeMap: map<string, string>, s: Counts, gmHostname: string)
    ensures var own, extra := OwnObjects(vnodeMap, s), ExtraObjects(vnodeMap, s, gmHostname);
      && (forall oid | oid in vnodeMap :: own(oid) == AccOf(s, vnodeMap[oid]).ddiCount)
      && (forall oid | oid in vnodeMap :: extra(oid) == Extra(s, gmHostname, vnodeMap[oid]))
      && (forall oid | oid in vnodeMap :: ObjectsOf(vnodeMap, Meter(s, gmHostname))(oid) == own(oid) + extra(oid))
  {
    var own, extra := OwnObjects(vnodeMap, s), ExtraObjects(vnodeMap, s, gmHostname);
    hide *;
    forall oid | oid in vnodeMap
      ensures own(oid) == AccOf(s, vnodeMap[oid]).ddiCount && extra(oid) == Extra(s, gmHostname, vnodeMap[oid])
      ensures ObjectsOf(vnodeMap, Meter(s, gmHostname))(oid) == own(oid) + extra(oid)
    {
      MeterAddsUp(vnodeMap, s, gmHostname, oid);
    }
  }

  lemma {:induction false} OwnSum(vnodeMap: map<string, string>, s: Counts, gmHostname: string)
    requires Balanced(s) && s.accs.Keys <= vnodeMap.Values && DistinctHosts(vnodeMap)
    ensures SumOver(vnodeMap.Keys, OwnObjects(vnodeMap, s)) == MembersTotal(s.memberDDI)
  {
    hide *;
    MetersAddUp(vnodeMap, s, gmHostname);
    OwnObjectsConserve(vnodeMap, s, OwnObjects(vnodeMap, s));
  }

  lemma {:induction false} ExtraSum(vnodeMap: map<string, string>, s: Counts, gmHostname: string)
    requires gmHostname in vnodeMap.Values && DistinctHosts(vnodeMap)
    ensures SumOver(vnodeMap.Keys, ExtraObjects(vnodeMap, s, gmHostname)) == Total(s.unresolvedDDI)
  {
    hide *;
    MetersAddUp(vnodeMap, s, gmHostname);
    ExtraConserves(vnodeMap, s, gmHostname, ExtraObjects(vnodeMap, s, gmHostname));
  }

  lemma {:induction false} BothSum(vnodeMap: map<string, string>, s: Counts, gmHostname: string)
    ensures SumOver(vnodeMap.Keys, ObjectsOf(vnodeMap, Meter(s, gmHostname)))
            == SumOver(vnodeMap.Keys, OwnObjects(vnodeMap, s))
               + SumOver(vnodeMap.Keys, ExtraObjects(vnodeMap, s, gmHostname))
  {
    hide *;
    MetersAddUp(vnodeMap, s, gmHostname);
    SumAdd(vnodeMap.Keys, OwnObjects(vnodeMap, s), ExtraObjects(vnodeMap, s, gmHostname),
           ObjectsOf(vnodeMap, Meter(s, gmHostname)));
  }

  /** With distinct hostnames each member's count enters the metrics once, and the unresolved
      objects once, with the Grid Master. */
  lemma {:induction false} MetricsConserve(vnodeMap: map<string, string>, s: Counts, gmHostname: string)
    requires Balanced(s) && s.accs.Keys <= vnodeMap.Values && gmHostname in vnodeMap.Values && DistinctHosts(vnodeMap)
    ensures SumOver(vnodeMap.Keys, ObjectsOf(vnodeMap, Meter(s, gmHostname))) == s.gridDDI
  {
    OwnSum(vnodeMap, s, gmHostname);
    ExtraSum(vnodeMap, s, gmHostname);
    BothSum(vnodeMap, s, gmHostname);
    hide SumOver, Total, MembersTotal, MemberTotal, OwnObjects, ExtraObjects, ObjectsOf, Meter, DistinctHosts;
  }

  /** When the grid has a member and identifiers are distinct, the Grid Master is a member and
      every accumulator belongs to one. */
  ghost predicate Closed(s: Counts, grid: Grid)
  {
    s.accs.Keys <= grid.vnodeMap.Values && grid.gmHostname in grid.vnodeMap.Values
  }

  lemma {:induction false} GridIsClosed(env: Env, nodes: seq<Object>, objects: seq<Counted>)
    requires Describes(env.grid, nodes, env.parsers) && DistinctOids(nodes) && env.grid.vnodeMap != map[]
    ensures Located(CountAll(Classifier(env), objects)) && Closed(CountAll(Classifier(env), objects), env.grid)
  {
    GlobalAddressesAreMembers(env, nodes, objects);
    ResolverNamesMembers(env.grid, nodes, env.parsers);
  }

  method SecondPass(env: Env, ghost nodes: seq<Object>, objects: seq<Counted>) returns (s: Counts)
    requires Describes(env.grid, nodes, env.parsers)
    ensures s == CountAll(Classifier(env), objects) && Balanced(s)
    ensures DistinctOids(nodes) && env.grid.vnodeMap != map[] ==> Located(s) && Closed(s, env.grid)
  {
    var result := new CountResult();
    result.ProcessAll(env, objects);
    s := result.View();
    Conservation(env, objects);
    if DistinctOids(nodes) && env.grid.vnodeMap != map[] {
      GridIsClosed(env, nodes, objects);
    }
  }

  /** Rows and metrics of balanced counts: each row total is the grid total, and so is the metrics'
      total when hostnames are distinct and the counts stay within the grid. */
  method Report(s: Counts, grid: Grid, display: string -> string)
    returns (rows: seq<FindingRow>, metrics: seq<Metric>, ghost order: seq<string>)
    requires Balanced(s)
    ensures CategoryTotal(rows, CATEGORY_DDI_OBJECTS) == s.gridDDI
    ensures CategoryTotal(rows, CATEGORY_ACTIVE_IPS) == AddressTotal(s.accs)
    ensures ListsAll(rows, s, grid.gmHostname, display)
    ensures Enumerates(order, grid.vnodeMap.Keys, {})
            && Meters(metrics, grid.vnodeMap, order, Meter(s, grid.gmHostname))
    ensures Closed(s, grid) && DistinctHosts(grid.vnodeMap) ==> SumObjects(metrics) == s.gridDDI
  {
    rows := BuildRows(s, grid.gmHostname, display);
    metrics, order := BuildMetrics(grid.vnodeMap, s, grid.gmHostname);
    if Closed(s, grid) && DistinctHosts(grid.vnodeMap) {
      MetricsConserve(grid.vnodeMap, s, grid.gmHostname);
    }
  }

  /** Scan: both passes and the report. The second pass runs over whatever objects of the backup
      belong to a family. */
  method Scan(nodes: seq<Object>, objects: seq<Counted>, parsers: Parsers, option: string -> OptionClass,
              display: string -> string)
    returns (grid: Grid, s: Counts, rows: seq<FindingRow>, metrics: seq<Metric>, ghost order: seq<string>)
    ensures Describes(grid, nodes, parsers) && s == CountAll(Classifier(Env(grid, parsers, option)), objects)
    ensures Balanced(s) && ListsAll(rows, s, grid.gmHostname, display)
    ensures CategoryTotal(rows, CATEGORY_DDI_OBJECTS) == s.gridDDI
    ensures CategoryTotal(rows, CATEGORY_ACTIVE_IPS) == AddressTotal(s.accs)
    ensures Enumerates(order, grid.vnodeMap.Keys, {}) && |metrics| == |order| == |grid.vnodeMap|
    ensures Meters(metrics, grid.vnodeMap, order, Meter(s, grid.gmHostname))
    ensures DistinctOids(nodes) && grid.vnodeMap != map[] && DistinctHosts(grid.vnodeMap)
            ==> Located(s) && SumObjects(metrics) == s.gridDDI
  {
    grid := RunPass1(nodes, parsers);
    s := SecondPass(Env(grid, parsers, option), nodes, objects);
    rows, metrics, order := Report(s, grid, display);
    EnumerationSize(order, grid.vnodeMap.Keys);
  }

  lemma {:induction false} EnumerationSize(order: seq<string>, keys: set<string>)
    requires Enumerates(order, keys, {})
    ensures |order| == |keys|
  {
    if order == [] {
      assert keys == {};
    } else {
      var n := |order| - 1;
      forall k | k in keys - {order[n]}
        ensures k in order[..n]
      {
        var i :| 0 <= i < |order| && order[i] == k;
        assert order[..n][i] == k;
      }
      EnumerationSize(order[..n], keys - {order[n]});
    }
  }
}
