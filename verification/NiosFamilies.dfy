/** What one object of each family does to the counts, in the terms of internal/scanner/nios/counter.go:288-512:
    which fields change, by how much, and for which member. */
module NiosFamilies {
  import opened Base
  import opened NiosResolver
  import opened NiosPass1
  import opened NiosEffects

  /** What is held for a member that may not have been seen yet. */
  function Held(accs: map<string, Acc>, host: string): Acc
  {
    if host in accs then accs[host] else Acc(0, {}, {}, {}, 0)
  }

  /** The accumulator of `host` becomes `acc` and all others stay; nobody's does for no host. */
  ghost predicate OnlyChanges(s: map<string, Acc>, t: map<string, Acc>, host: string, acc: Acc)
  {
    t == if host == "" then s else s[host := acc]
  }

  /** The counter of `key` rises by `n`. */
  ghost predicate Rises(s: map<string, int>, t: map<string, int>, key: string, n: int)
  {
    t == s[key := (if key in s then s[key] else 0) + n]
  }

  // ------------------------------------------------------------ addresses

  /** One lease row of `m`, with the address of the lease if it is live. */
  ghost predicate CountsLease(s: Counts, t: Counts, m: string, live: set<string>)
  {
    var a := Held(s.accs, m);
    && OnlyChanges(s.accs, t.accs, m, a.(leaseCount := a.leaseCount + 1, leaseIPs := a.leaseIPs + live,
                                         memberIPs := a.memberIPs + live))
    && t == s.(accs := t.accs, globalIPs := s.globalIPs + live, gridLeaseCount := s.gridLeaseCount + 1)
  }

  /** A lease belongs to the member of its virtual node if that is known, else to the Grid Master; its address
      counts only when it is active. */
  ghost predicate LeaseLaw(env: Env, o: Counted, s: Counts, t: Counts)
  {
    var ip := TrimSpace(Get(o.props, "ip_address"));
    var live := if Get(o.props, "binding_state") == "active" && ip != "" then {ip} else {};
    && (o.vnodeID != "" && o.vnodeID in env.grid.vnodeMap ==> CountsLease(s, t, env.grid.vnodeMap[o.vnodeID], live))
    && (o.vnodeID == "" || o.vnodeID !in env.grid.vnodeMap ==> CountsLease(s, t, env.grid.gmHostname, live))
  }

  /** The member that answers for an address: the owner of the first network holding it, else the Grid Master. */
  ghost predicate Responsible(env: Env, ip: string, m: string)
  {
    exists owner :: Answers(env.grid.resolver.cidrEntries, ip, env.parsers, owner)
                    && m == if owner != "" then owner else env.grid.gmHostname
  }

  /** A fixed address joins the member addresses of the member responsible for it. */
  ghost predicate FixedLaw(env: Env, o: Counted, s: Counts, t: Counts)
  {
    var ip := TrimSpace(Get(o.props, "ip_address"));
    && (ip == "" ==> t == s)
    && (ip != "" ==>
         && (exists m :: Responsible(env, ip, m)
                         && OnlyChanges(s.accs, t.accs, m,
                              var a := Held(s.accs, m); a.(memberIPs := a.memberIPs + {ip})))
         && t == s.(accs := t.accs, globalIPs := s.globalIPs + {ip}))
  }

  /** A host address joins the host addresses, and only those, of the member responsible for it. */
  ghost predicate HostAddressLaw(env: Env, o: Counted, s: Counts, t: Counts)
  {
    var ip := TrimSpace(Get(o.props, "address"));
    && (ip == "" ==> t == s)
    && (ip != "" ==>
         && (exists m :: Responsible(env, ip, m)
                         && OnlyChanges(s.accs, t.accs, m,
                              var a := Held(s.accs, m); a.(hostIPs := a.hostIPs + {ip})))
         && t == s.(accs := t.accs, globalIPs := s.globalIPs + {ip}))
  }

  ghost predicate DiscoveryLaw(o: Counted, s: Counts, t: Counts)
  {
    var ip := TrimSpace(Get(o.props, "ip_address"));
    t == if ip == "" then s else s.(discoveryIPs := s.discoveryIPs + {ip})
  }

  // ------------------------------------------------------------ DDI objects

  /** `n` DDI objects of `family`: in the grid total and the family count, and either in `owner`'s accumulator and
      family count or, without an owner, in the unresolved count. */
  ghost predicate CountsDDI(s: Counts, t: Counts, family: string, n: int, owner: string,
                            routes: multiset<HostRouteFlag>)
  {
    && t == s.(accs := t.accs, memberDDI := t.memberDDI, gridDDI := s.gridDDI + n, familyCounts := t.familyCounts,
               unresolvedDDI := t.unresolvedDDI, routes := s.routes + routes)
    && Rises(s.familyCounts, t.familyCounts, family, n)
    && OnlyChanges(s.accs, t.accs, owner, var a := Held(s.accs, owner); a.(ddiCount := a.ddiCount + n))
    && (owner == "" ==> t.memberDDI == s.memberDDI && Rises(s.unresolvedDDI, t.unresolvedDDI, family, n))
    && (owner != "" ==>
         && t.unresolvedDDI == s.unresolvedDDI && owner in t.memberDDI
         && t.memberDDI == s.memberDDI[owner := t.memberDDI[owner]]
         && Rises(if owner in s.memberDDI then s.memberDDI[owner] else map[], t.memberDDI[owner], family, n))
  }

  /** The text of a network: the cidr if it has a slash, else address and cidr. */
  ghost predicate NetworkText(address: string, cidr: string, text: Option<string>)
  {
    && ('/' in cidr ==> text == Some(cidr))
    && ('/' !in cidr && address != "" && cidr != "" ==> text == Some(address + "/" + cidr))
    && ('/' !in cidr && (address == "" || cidr == "") ==> text == None)
  }

  /** A flag exactly for a network whose prefix has 32 bits. */
  ghost predicate FlagsRoute(env: Env, text: Option<string>, owner: string, routes: multiset<HostRouteFlag>)
  {
    var flagged := text.Some? && env.parsers.cidr(text.value).Some? && env.parsers.cidr(text.value).value.len == 32;
    routes == if flagged then multiset{HostRouteFlag(text.value, owner)} else multiset{}
  }

  /** A network counts once, for the owner of its key "address/cidr/view" if all three parts are there. */
  ghost predicate NetworkLaw(env: Env, o: Counted, s: Counts, t: Counts)
  {
    var address, cidr := TrimSpace(Get(o.props, "address")), TrimSpace(Get(o.props, "cidr"));
    var view, owners := Get(o.props, "network_view"), env.grid.resolver.networkMember;
    var key := address + "/" + cidr + "/" + view;
    var known := address != "" && cidr != "" && view != "" && key in owners;
    exists text, routes | NetworkText(address, cidr, text) ::
      && (known ==> FlagsRoute(env, text, owners[key], routes) && CountsDDI(s, t, "network", 1, owners[key], routes))
      && (!known ==> FlagsRoute(env, text, "", routes) && CountsDDI(s, t, "network", 1, "", routes))
  }

  /** A host object counts twice, and once more with aliases, for the owner of its zone. */
  ghost predicate HostObjectLaw(env: Env, o: Counted, s: Counts, t: Counts)
  {
    var n := if TrimSpace(Get(o.props, "aliases")) == "" then 2 else 3;
    var zone, owners := Get(o.props, "zone"), env.grid.resolver.zoneMember;
    && (zone != "" && zone in owners ==> CountsDDI(s, t, "host_object", n, owners[zone], multiset{}))
    && (zone == "" || zone !in owners ==> CountsDDI(s, t, "host_object", n, "", multiset{}))
  }

  /** A record counts once: for the owner of its zone if there is one, else for the member it names, else for nobody. */
  ghost predicate RecordLaw(env: Env, o: Counted, s: Counts, t: Counts)
  {
    var zone, owners := Get(o.props, "zone"), env.grid.resolver.zoneMember;
    var member, nodes := Get(o.props, "member"), env.grid.vnodeMap;
    var byZone := zone != "" && zone in owners && owners[zone] != "";
    var byMember := !byZone && member != "" && member in nodes;
    && (byZone ==> CountsDDI(s, t, o.family, 1, owners[zone], multiset{}))
    && (byMember ==> CountsDDI(s, t, o.family, 1, nodes[member], multiset{}))
    && (!byZone && !byMember ==> CountsDDI(s, t, o.family, 1, "", multiset{}))
  }

  /** The text behind the first dollar sign; nothing without one. */
  ghost predicate BehindDollar(parent: string, network: string)
  {
    || ('$' !in parent && network == "")
    || exists before :: '$' !in before && parent == before + ("$" + network)
  }

  /** An option that needs attention is flagged with its network and the owner of that network. */
  ghost predicate OptionLaw(env: Env, o: Counted, s: Counts, t: Counts)
  {
    var class_, owners := env.option(Get(o.props, "option_definition")), env.grid.resolver.networkMember;
    && (class_.flag == "" ==> t == s)
    && (class_.flag != "" ==> exists network, owner ::
         && BehindDollar(Get(o.props, "parent"), network)
         && (network != "" && network in owners ==> owner == owners[network])
         && (network == "" || network !in owners ==> owner == "")
         && t == s.(options := s.options
                               + multiset{DHCPOptionFlag(network, class_.number, class_.space, class_.flag, owner)}))
  }

  // ------------------------------------------------------------ any object

  /** Records of fifteen types, and thirteen other families. */
  ghost predicate CountsAsDDI(family: string)
  {
    || (exists r :: family == "dns_record_" + r
                    && r in {"a", "aaaa", "cname", "mx", "ns", "ptr", "soa", "srv", "txt", "caa", "naptr",
                             "https", "svcb", "alias", "dname"})
    || family in {"host_object", "host_alias", "dns_zone", "dhcp_range", "exclusion_range", "network",
                  "network_container", "network_view", "dtc_lbdn", "dtc_pool", "dtc_server", "dtc_monitor",
                  "dtc_topology"}
  }

  lemma {:induction false} DDIFamiliesCount(family: string)
    ensures family in DDI_FAMILIES <==> CountsAsDDI(family)
  {
    assert "dns_record_" + "a" == "dns_record_a" && "dns_record_" + "aaaa" == "dns_record_aaaa";
    assert "dns_record_" + "cname" == "dns_record_cname" && "dns_record_" + "mx" == "dns_record_mx";
    assert "dns_record_" + "ns" == "dns_record_ns" && "dns_record_" + "ptr" == "dns_record_ptr";
    assert "dns_record_" + "soa" == "dns_record_soa" && "dns_record_" + "srv" == "dns_record_srv";
    assert "dns_record_" + "txt" == "dns_record_txt" && "dns_record_" + "caa" == "dns_record_caa";
    assert "dns_record_" + "naptr" == "dns_record_naptr" && "dns_record_" + "https" == "dns_record_https";
    assert "dns_record_" + "svcb" == "dns_record_svcb" && "dns_record_" + "alias" == "dns_record_alias";
    assert "dns_record_" + "dname" == "dns_record_dname";
  }

  /** `t` is what the counts should be when `o` comes after `s`. */
  ghost predicate Obeys(env: Env, o: Counted, s: Counts, t: Counts)
  {
    && (o.family == "lease" ==> LeaseLaw(env, o, s, t))
    && (o.family == "fixed_address" ==> FixedLaw(env, o, s, t))
    && (o.family == "host_address" ==> HostAddressLaw(env, o, s, t))
    && (o.family == "network" ==> NetworkLaw(env, o, s, t))
    && (o.family == "dhcp_option" ==> OptionLaw(env, o, s, t))
    && (o.family == "host_object" ==> HostObjectLaw(env, o, s, t))
    && (o.family == "discovery_data" ==> DiscoveryLaw(o, s, t))
    && (o.family !in {"lease", "fixed_address", "host_address", "network", "dhcp_option", "host_object",
                      "discovery_data"} ==>
         if CountsAsDDI(o.family) then RecordLaw(env, o, s, t) else t == s)
  }

  // ------------------------------------------------------------ what the effects do

  lemma {:induction false} HeldPlus(accs: map<string, Acc>, host: string, gain: Acc)
    ensures OnlyChanges(accs, AddAcc(accs, host, gain), host,
              var a := Held(accs, host);
              Acc(a.ddiCount + gain.ddiCount, a.leaseIPs + gain.leaseIPs, a.memberIPs + gain.memberIPs,
                  a.hostIPs + gain.hostIPs, a.leaseCount + gain.leaseCount))
  {
  }

  lemma {:induction false} LeaseObeys(env: Env, o: Counted, s: Counts)
    ensures LeaseLaw(env, o, s, Apply(s, LeaseEffect(env, o)))
  {
    var e := LeaseEffect(env, o);
    ApplyAddress(s, e);
    HeldPlus(s.accs, e.host, e.acc);
    assert forall a: set<string> :: a + {} == a;
  }

  lemma {:induction false} AddressIsResponsible(env: Env, ip: string)
    ensures Responsible(env, ip, AddressHost(env, ip))
  {
    ResolvedAnswers(env.grid.resolver.cidrEntries, ip, env.parsers);
  }

  lemma {:induction false} FixedObeys(env: Env, o: Counted, s: Counts)
    ensures FixedLaw(env, o, s, Apply(s, FixedEffect(env, o)))
  {
    var ip, e := TrimSpace(Get(o.props, "ip_address")), FixedEffect(env, o);
    ApplyAddress(s, e);
    if ip != "" {
      AddressIsResponsible(env, ip);
      HeldPlus(s.accs, e.host, e.acc);
      assert forall a: set<string> :: a + {} == a;
    } else {
      assert s.globalIPs + {} == s.globalIPs;
    }
  }

  lemma {:induction false} HostAddressObeys(env: Env, o: Counted, s: Counts)
    ensures HostAddressLaw(env, o, s, Apply(s, HostAddressEffect(env, o)))
  {
    var ip, e := TrimSpace(Get(o.props, "address")), HostAddressEffect(env, o);
    ApplyAddress(s, e);
    if ip != "" {
      AddressIsResponsible(env, ip);
      HeldPlus(s.accs, e.host, e.acc);
      assert forall a: set<string> :: a + {} == a;
    } else {
      assert s.globalIPs + {} == s.globalIPs;
    }
  }

  /** An effect of DDI objects counts them for its owner. */
  lemma {:induction false} DDICounts(s: Counts, e: Effect)
    requires e == NOTHING.(family := e.family, delta := e.delta, owner := e.owner, routes := e.routes) && e.delta > 0
    ensures CountsDDI(s, Apply(s, e), e.family, e.delta, e.owner, multiset(e.routes))
  {
    ApplyDDI(s, e);
    HeldPlus(s.accs, e.owner, NO_ACC.(ddiCount := e.delta));
    assert forall a: set<string> :: a + {} == a;
  }

  lemma {:induction false} NetworkObeys(env: Env, o: Counted, s: Counts)
    ensures NetworkLaw(env, o, s, Apply(s, NetworkEffect(env, o)))
  {
    var e := NetworkEffect(env, o);
    DDICounts(s, e);
    var text := if FullCIDR(o) == "" then None else Some(FullCIDR(o));
    assert NetworkText(TrimSpace(Get(o.props, "address")), TrimSpace(Get(o.props, "cidr")), text);
    assert FlagsRoute(env, text, e.owner, multiset(e.routes));
  }

  lemma {:induction false} HostObjectObeys(env: Env, o: Counted, s: Counts)
    ensures HostObjectLaw(env, o, s, Apply(s, HostObjectEffect(env, o)))
  {
    DDICounts(s, HostObjectEffect(env, o));
  }

  lemma {:induction false} RecordObeys(env: Env, o: Counted, s: Counts)
    ensures RecordLaw(env, o, s, Apply(s, RecordEffect(env, o)))
  {
    DDICounts(s, RecordEffect(env, o));
  }

  lemma {:induction false} DollarSplits(parent: string)
    ensures var i := IndexOf(parent, '$'); '$' !in parent[..i] && (i == |parent| ==> '$' !in parent)
  {
    if parent != "" && parent[0] != '$' {
      DollarSplits(parent[1..]);
      var i := IndexOf(parent, '$');
      assert parent == [parent[0]] + parent[1..] && parent[..i] == [parent[0]] + parent[1..][..i - 1];
    }
  }

  lemma {:induction false} OptionObeys(env: Env, o: Counted, s: Counts)
    ensures OptionLaw(env, o, s, Apply(s, OptionEffect(env, o)))
  {
    var parent, e := Get(o.props, "parent"), OptionEffect(env, o);
    ApplyOptions(s, e);
    DollarSplits(parent);
    var i := IndexOf(parent, '$');
    if i < |parent| {
      assert parent == parent[..i] + ("$" + parent[i + 1..]);
    }
    assert BehindDollar(parent, OptionNetwork(o));
  }

  lemma {:induction false} NothingChanges(s: Counts)
    ensures Apply(s, NOTHING) == s
  {
    ApplyAddress(s, NOTHING);
    assert s.globalIPs + {} == s.globalIPs;
  }

  lemma {:induction false} DiscoveryObeys(o: Counted, s: Counts)
    ensures DiscoveryLaw(o, s, Apply(s, DiscoveryEffect(o)))
  {
    NothingChanges(s);
  }

  /** The effect of every object does to the counts what its family must do. */
  lemma {:induction false} EffectObeys(env: Env, o: Counted, s: Counts)
    ensures Obeys(env, o, s, Apply(s, EffectOf(env, o)))
  {
    NothingChanges(s);
    DDIFamiliesCount(o.family);
    hide CountsAsDDI;
    LeaseObeys(env, o, s);
    FixedObeys(env, o, s);
    HostAddressObeys(env, o, s);
    NetworkObeys(env, o, s);
    OptionObeys(env, o, s);
    HostObjectObeys(env, o, s);
    DiscoveryObeys(o, s);
    RecordObeys(env, o, s);
    hide LeaseLaw, FixedLaw, HostAddressLaw, NetworkLaw, OptionLaw, HostObjectLaw, DiscoveryLaw, RecordLaw, Apply;
    hide LeaseEffect, FixedEffect, HostAddressEffect, NetworkEffect, OptionEffect, HostObjectEffect, DiscoveryEffect;
    hide RecordEffect;
  }
}
