/** internal/scanner/nios/counter.go on values: what one object contributes, and the fold of all contributions into
    per-member counters, grid-wide counters and address sets. */
module NiosEffects {
  import opened Base
  import opened Sums
  import opened NiosResolver
  import opened NiosPass1

  const LEASE := "lease"
  const FIXED_ADDRESS := "fixed_address"
  const HOST_ADDRESS := "host_address"
  const HOST_OBJECT := "host_object"
  const NETWORK := "network"
  const DISCOVERY_DATA := "discovery_data"
  const DHCP_OPTION := "dhcp_option"

  const DDI_FAMILIES: set<string> := {
    "dns_record_a", "dns_record_aaaa", "dns_record_cname", "dns_record_mx", "dns_record_ns", "dns_record_ptr",
    "dns_record_soa", "dns_record_srv", "dns_record_txt", "dns_record_caa", "dns_record_naptr",
    "dns_record_https", "dns_record_svcb", "host_object", "host_alias", "dns_zone", "dhcp_range",
    "exclusion_range", "network", "network_container", "network_view", "dtc_lbdn", "dtc_pool", "dtc_server",
    "dtc_monitor", "dtc_topology", "dns_record_alias", "dns_record_dname"}

  /** One object of the backup as the second pass sees it. */
  datatype Counted = Counted(family: string, props: map<string, string>, vnodeID: string)

  datatype DHCPOptionFlag = DHCPOptionFlag(network: string, number: int, space: string, flag: string, member: string)
  datatype HostRouteFlag = HostRouteFlag(network: string, member: string)

  /** Code, space and migration flag read from an option_definition; the table behind the flag is
      not part of this model. */
  datatype OptionClass = OptionClass(number: int, space: string, flag: string)

  datatype Env = Env(grid: Grid, parsers: Parsers, option: string -> OptionClass)

  datatype Acc = Acc(ddiCount: int, leaseIPs: set<string>, memberIPs: set<string>, hostIPs: set<string>,
                     leaseCount: int)

  const NO_ACC := Acc(0, {}, {}, {}, 0)

  function Plus(a: Acc, b: Acc): Acc
  {
    Acc(a.ddiCount + b.ddiCount, a.leaseIPs + b.leaseIPs, a.memberIPs + b.memberIPs, a.hostIPs + b.hostIPs,
        a.leaseCount + b.leaseCount)
  }

  /** Everything the pass has counted; the flags as multisets, since their order follows the stream. */
  datatype Counts = Counts(
    accs: map<string, Acc>, memberDDI: map<string, map<string, int>>, gridDDI: int,
    familyCounts: map<string, int>, globalIPs: set<string>, discoveryIPs: set<string>,
    gridLeaseCount: int, unresolvedDDI: map<string, int>,
    options: multiset<DHCPOptionFlag>, routes: multiset<HostRouteFlag>)

  const NO_COUNTS := Counts(map[], map[], 0, map[], {}, {}, 0, map[], multiset{}, multiset{})

  // ------------------------------------------------------------ what one object does

  /** The contribution of one object. `delta` DDI objects of `family` go to `owner` (nobody when it
      is empty); `acc` goes to the accumulator of `host` (nobody when it is empty). */
  datatype Effect = Effect(
    family: string, delta: nat, owner: string, host: string, acc: Acc, ips: set<string>,
    discovered: set<string>, leases: nat, options: seq<DHCPOptionFlag>, routes: seq<HostRouteFlag>)

  const NOTHING := Effect("", 0, "", "", NO_ACC, {}, {}, 0, [], [])

  predicate Space(c: char) { c == ' ' || 9 <= c as int <= 13 }

  /** strings.TrimSpace on ASCII text. */
  function TrimSpace(s: string): string
  {
    if s == "" then "" else if Space(s[0]) then TrimSpace(s[1..])
    else if Space(s[|s| - 1]) then TrimSpace(s[..|s| - 1]) else s
  }

  predicate White(c: char) { c as int in {9, 10, 11, 12, 13, 32} }

  predicate AllWhite(s: string) { forall c | c in s :: White(c) }

  lemma {:induction false} WhiteGrows(s: string, c: char)
    requires AllWhite(s) && Space(c)
    ensures AllWhite([c] + s) && AllWhite(s + [c])
  {
  }

  /** Only white space is trimmed, and all of it. */
  lemma {:induction false} TrimsExactly(s: string) returns (before: string, after: string)
    ensures s == before + TrimSpace(s) + after && AllWhite(before) && AllWhite(after)
    ensures TrimSpace(s) != "" ==> !White(TrimSpace(s)[0]) && !White(TrimSpace(s)[|TrimSpace(s)| - 1])
  {
    if s == "" {
      return "", "";
    }
    var first, last := s[0], s[|s| - 1];
    if Space(first) {
      var rest := s[1..];
      assert TrimSpace(s) == TrimSpace(rest) && s == [first] + rest;
      before, after := TrimsExactly(rest);
      WhiteGrows(before, first);
      hide AllWhite, White, TrimSpace, Space;
      RegroupFront([first], before, TrimSpace(rest), after);
      before := [first] + before;
    } else if Space(last) {
      var rest := s[..|s| - 1];
      assert TrimSpace(s) == TrimSpace(rest) && s == rest + [last];
      before, after := TrimsExactly(rest);
      WhiteGrows(after, last);
      hide AllWhite, White, TrimSpace, Space;
      RegroupBack(before, TrimSpace(rest), after, [last]);
      after := after + [last];
    } else {
      before, after := "", "";
    }
  }

  function OrElse(host: string, fallback: string): string { if host != "" then host else fallback }

  function LeaseHost(env: Env, vnodeID: string): string
  {
    if vnodeID != "" && vnodeID in env.grid.vnodeMap then env.grid.vnodeMap[vnodeID] else env.grid.gmHostname
  }

  function LeaseEffect(env: Env, o: Counted): Effect
  {
    var ip := TrimSpace(Get(o.props, "ip_address"));
    var ips := if Get(o.props, "binding_state") == "active" && ip != "" then {ip} else {};
    NOTHING.(host := LeaseHost(env, o.vnodeID), acc := Acc(0, ips, ips, {}, 1), ips := ips, leases := 1)
  }

  function AddressHost(env: Env, ip: string): string
  {
    OrElse(ResolveIP(env.grid.resolver.cidrEntries, ip, env.parsers), env.grid.gmHostname)
  }

  function FixedEffect(env: Env, o: Counted): Effect
  {
    var ip := TrimSpace(Get(o.props, "ip_address"));
    if ip == "" then NOTHING
    else NOTHING.(host := AddressHost(env, ip), acc := Acc(0, {}, {ip}, {}, 0), ips := {ip})
  }

  function HostAddressEffect(env: Env, o: Counted): Effect
  {
    var ip := TrimSpace(Get(o.props, "address"));
    if ip == "" then NOTHING
    else NOTHING.(host := AddressHost(env, ip), acc := Acc(0, {}, {}, {ip}, 0), ips := {ip})
  }

  function NetworkOwner(env: Env, o: Counted): string
  {
    var address, cidr := TrimSpace(Get(o.props, "address")), TrimSpace(Get(o.props, "cidr"));
    var view := Get(o.props, "network_view");
    if address != "" && cidr != "" && view != ""
    then ResolveNetwork(env.grid.resolver, address + "/" + cidr + "/" + view) else ""
  }

  function FullCIDR(o: Counted): string
  {
    var address, cidr := TrimSpace(Get(o.props, "address")), TrimSpace(Get(o.props, "cidr"));
    if '/' in cidr then cidr else if address != "" && cidr != "" then address + "/" + cidr else ""
  }

  function RouteFlags(env: Env, full: string, owner: string): seq<HostRouteFlag>
  {
    var net := if full == "" then None else env.parsers.cidr(full);
    if net.Some? && net.value.len == 32 then [HostRouteFlag(full, owner)] else []
  }

  function NetworkEffect(env: Env, o: Counted): Effect
  {
    NOTHING.(family := NETWORK, delta := 1, owner := NetworkOwner(env, o),
             routes := RouteFlags(env, FullCIDR(o), NetworkOwner(env, o)))
  }

  function OptionNetwork(o: Counted): string
  {
    var parent := Get(o.props, "parent");
    var i := IndexOf(parent, '$');
    if i < |parent| then parent[i + 1..] else ""
  }

  function OptionEffect(env: Env, o: Counted): Effect
  {
    var class_ := env.option(Get(o.props, "option_definition"));
    var network := OptionNetwork(o);
    if class_.flag == "" then NOTHING
    else NOTHING.(options := [DHCPOptionFlag(network, class_.number, class_.space, class_.flag,
                                             ResolveNetwork(env.grid.resolver, network))])
  }

  function HostObjectEffect(env: Env, o: Counted): Effect
  {
    NOTHING.(family := HOST_OBJECT, delta := if TrimSpace(Get(o.props, "aliases")) != "" then 3 else 2,
             owner := ResolveDNS(env.grid.resolver, Get(o.props, "zone")))
  }

  function RecordOwner(env: Env, o: Counted): string
  {
    var byZone := ResolveDNS(env.grid.resolver, Get(o.props, "zone"));
    var member := Get(o.props, "member");
    if byZone == "" && member != "" && member in env.grid.vnodeMap then env.grid.vnodeMap[member] else byZone
  }

  function RecordEffect(env: Env, o: Counted): Effect
  {
    NOTHING.(family := o.family, delta := 1, owner := RecordOwner(env, o))
  }

  function DiscoveryEffect(o: Counted): Effect
  {
    var ip := TrimSpace(Get(o.props, "ip_address"));
    if ip != "" then NOTHING.(discovered := {ip}) else NOTHING
  }

  function EffectOf(env: Env, o: Counted): Effect
  {
    if o.family == LEASE then LeaseEffect(env, o)
    else if o.family == FIXED_ADDRESS then FixedEffect(env, o)
    else if o.family == HOST_ADDRESS then HostAddressEffect(env, o)
    else if o.family == NETWORK then NetworkEffect(env, o)
    else if o.family == DHCP_OPTION then OptionEffect(env, o)
    else if o.family == HOST_OBJECT then HostObjectEffect(env, o)
    else if o.family == DISCOVERY_DATA then DiscoveryEffect(o)
    else if o.family in DDI_FAMILIES then RecordEffect(env, o)
    else NOTHING
  }

  // ------------------------------------------------------------ applying it

  function AddAcc(accs: map<string, Acc>, host: string, acc: Acc): map<string, Acc>
  {
    if host == "" then accs else accs[host := Plus(if host in accs then accs[host] else NO_ACC, acc)]
  }

  function AddMember(memberDDI: map<string, map<string, int>>, host: string, family: string, delta: int)
    : map<string, map<string, int>>
  {
    memberDDI[host := Bump(if host in memberDDI then memberDDI[host] else map[], family, delta)]
  }

  /** The member whose DDI count an effect raises; empty when there is none. */
  function OwnerOf(e: Effect): string { if e.delta == 0 then "" else e.owner }

  function AccsAfter(accs: map<string, Acc>, e: Effect): map<string, Acc>
  {
    AddAcc(AddAcc(accs, OwnerOf(e), NO_ACC.(ddiCount := e.delta)), e.host, e.acc)
  }

  function MembersAfter(m: map<string, map<string, int>>, e: Effect): map<string, map<string, int>>
  {
    if OwnerOf(e) == "" then m else AddMember(m, e.owner, e.family, e.delta)
  }

  function FamiliesAfter(m: map<string, int>, e: Effect): map<string, int>
  {
    if e.delta == 0 then m else Bump(m, e.family, e.delta)
  }

  function UnresolvedAfter(m: map<string, int>, e: Effect): map<string, int>
  {
    if e.delta == 0 || e.owner != "" then m else Bump(m, e.family, e.delta)
  }

  function Apply(s: Counts, e: Effect): Counts
  {
    Counts(AccsAfter(s.accs, e), MembersAfter(s.memberDDI, e), s.gridDDI + e.delta, FamiliesAfter(s.familyCounts, e),
           s.globalIPs + e.ips, s.discoveryIPs + e.discovered, s.gridLeaseCount + e.leases,
           UnresolvedAfter(s.unresolvedDDI, e), s.options + multiset(e.options), s.routes + multiset(e.routes))
  }

  function Fold(s: Counts, effects: seq<Effect>): Counts
  {
    if effects == [] then s else Apply(Fold(s, effects[..|effects| - 1]), effects[|effects| - 1])
  }

  function Classifier(env: Env): Counted -> Effect { o => EffectOf(env, o) }

  function Effects(effectOf: Counted -> Effect, objects: seq<Counted>): seq<Effect>
  {
    if objects == [] then [] else Effects(effectOf, objects[..|objects| - 1]) + [effectOf(objects[|objects| - 1])]
  }

  /** The counts after the whole stream. */
  function CountAll(effectOf: Counted -> Effect, objects: seq<Counted>): Counts
  {
    Fold(NO_COUNTS, Effects(effectOf, objects))
  }

  lemma {:induction false} CountSnoc(effectOf: Counted -> Effect, objects: seq<Counted>, o: Counted)
    ensures CountAll(effectOf, objects + [o]) == Apply(CountAll(effectOf, objects), effectOf(o))
  {
    assert (objects + [o])[..|objects|] == objects;
    var before := Effects(effectOf, objects);
    assert (before + [effectOf(o)])[..|before|] == before;
  }

  lemma {:induction false} CountNone(env: Env)
    ensures CountAll(Classifier(env), []) == NO_COUNTS
  {
  }

  lemma {:induction false} CountNext(env: Env, objects: seq<Counted>, i: nat)
    requires i < |objects|
    ensures CountAll(Classifier(env), objects[..i + 1])
            == Apply(CountAll(Classifier(env), objects[..i]), EffectOf(env, objects[i]))
  {
    hide CountAll, Apply, EffectOf;
    CountSnoc(Classifier(env), objects[..i], objects[i]);
    assert objects[..i + 1] == objects[..i] + [objects[i]];
  }

  lemma {:induction false} PlusDDI(a: Acc, d: int)
    ensures Plus(a, NO_ACC.(ddiCount := d)) == a.(ddiCount := a.ddiCount + d)
  {
  }

  /** A lease row and its address may be credited one after the other. */
  lemma {:induction false} AddAccTwice(accs: map<string, Acc>, host: string, ips: set<string>)
    ensures AddAcc(AddAcc(accs, host, NO_ACC.(leaseCount := 1)), host, Acc(0, ips, ips, {}, 0))
            == AddAcc(accs, host, Acc(0, ips, ips, {}, 1))
  {
    if host != "" {
      var a := if host in accs then accs[host] else NO_ACC;
      assert Plus(Plus(a, NO_ACC.(leaseCount := 1)), Acc(0, ips, ips, {}, 0)) == Plus(a, Acc(0, ips, ips, {}, 1));
    }
  }

  /** An effect without DDI objects and flags touches an accumulator, the addresses and the leases. */
  lemma {:induction false} ApplyAddress(s: Counts, e: Effect)
    requires e == NOTHING.(host := e.host, acc := e.acc, ips := e.ips, leases := e.leases)
    ensures Apply(s, e) == s.(accs := AddAcc(s.accs, e.host, e.acc), globalIPs := s.globalIPs + e.ips,
                              gridLeaseCount := s.gridLeaseCount + e.leases)
  {
    assert s.discoveryIPs + {} == s.discoveryIPs;
    assert s.options + multiset([]) == s.options && s.routes + multiset([]) == s.routes;
  }

  lemma {:induction false} ApplyOptions(s: Counts, e: Effect)
    requires e == NOTHING.(options := e.options)
    ensures Apply(s, e) == s.(options := s.options + multiset(e.options))
    ensures s.options + multiset([]) == s.options
  {
    assert s.discoveryIPs + {} == s.discoveryIPs && s.globalIPs + {} == s.globalIPs;
    assert s.routes + multiset([]) == s.routes;
  }

  /** An effect of DDI objects and flags touches nothing else. */
  lemma {:induction false} ApplyDDI(s: Counts, e: Effect)
    requires e == NOTHING.(family := e.family, delta := e.delta, owner := e.owner, routes := e.routes)
    ensures Apply(s, e) == s.(
      accs := AddAcc(s.accs, OwnerOf(e), NO_ACC.(ddiCount := e.delta)), memberDDI := MembersAfter(s.memberDDI, e),
      gridDDI := s.gridDDI + e.delta, familyCounts := FamiliesAfter(s.familyCounts, e),
      unresolvedDDI := UnresolvedAfter(s.unresolvedDDI, e), routes := s.routes + multiset(e.routes))
    ensures s.routes + multiset([]) == s.routes
  {
    assert s.discoveryIPs + {} == s.discoveryIPs && s.globalIPs + {} == s.globalIPs;
    assert s.options + multiset([]) == s.options;
  }
}
