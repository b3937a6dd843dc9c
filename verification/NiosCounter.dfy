/** internal/scanner/nios/counter.go: the second pass folds every object into per-member counters,
    grid-wide counters and address sets. */
module NiosCounter {
  import opened Sums
  import opened NiosResolver
  import opened NiosPass1
  import opened NiosEffects
  import opened NiosFamilies

  class CountResult {
    var memberAccs: map<string, Acc>
    var memberDDI: map<string, map<string, int>>
    var gridDDI: int
    var familyCounts: map<string, int>
    var globalIPSet: set<string>
    var discoveryIPSet: set<string>
    var gridLeaseCount: int
    var unresolvedDDI: map<string, int>
    var dhcpOptions: seq<DHCPOptionFlag>
    var hostRoutes: seq<HostRouteFlag>

    function View(): Counts
      reads this
    {
      Counts(memberAccs, memberDDI, gridDDI, familyCounts, globalIPSet, discoveryIPSet, gridLeaseCount, unresolvedDDI,
             multiset(dhcpOptions), multiset(hostRoutes))
    }

    constructor ()
      ensures View() == NO_COUNTS
    {
      memberAccs, memberDDI, gridDDI, familyCounts := map[], map[], 0, map[];
      globalIPSet, discoveryIPSet, gridLeaseCount, unresolvedDDI := {}, {}, 0, map[];
      dhcpOptions, hostRoutes := [], [];
    }

    function GetOrCreateAcc(hostname: string): Acc
      reads this
    {
      if hostname in memberAccs then memberAccs[hostname] else NO_ACC
    }

    method AddMemberDDI(hostname: string, family: string, delta: int)
      modifies this`memberDDI, this`memberAccs
      ensures memberDDI == AddMember(old(memberDDI), hostname, family, delta)
      ensures hostname != "" ==> memberAccs == AddAcc(old(memberAccs), hostname, NO_ACC.(ddiCount := delta))
    {
      var families := if hostname in memberDDI then memberDDI[hostname] else map[];
      families := families[family := Count(families, family) + delta];
      memberDDI := memberDDI[hostname := families];
      var acc := GetOrCreateAcc(hostname);
      PlusDDI(acc, delta);
      memberAccs := memberAccs[hostname := acc.(ddiCount := acc.ddiCount + delta)];
    }

    /** Counts `delta` objects of a DDI family for `owner`, or as unresolved. */
    method CountDDI(ghost e: Effect, family: string, delta: nat, owner: string)
      requires delta > 0 && e.family == family && e.delta == delta && e.owner == owner
      modifies this`memberAccs, this`memberDDI, this`gridDDI, this`familyCounts, this`unresolvedDDI
      ensures memberAccs == AddAcc(old(memberAccs), OwnerOf(e), NO_ACC.(ddiCount := delta))
      ensures memberDDI == MembersAfter(old(memberDDI), e)
      ensures gridDDI == old(gridDDI) + delta
      ensures familyCounts == FamiliesAfter(old(familyCounts), e)
      ensures unresolvedDDI == UnresolvedAfter(old(unresolvedDDI), e)
    {
      familyCounts := familyCounts[family := Count(familyCounts, family) + delta];
      gridDDI := gridDDI + delta;
      if owner != "" {
        AddMemberDDI(owner, family, delta);
      } else {
        unresolvedDDI := unresolvedDDI[family := Count(unresolvedDDI, family) + delta];
      }
    }

    /** Adds to a member's accumulator, creating it if absent; nobody is credited for no host. */
    method Credit(hostname: string, gain: Acc)
      modifies this`memberAccs
      ensures memberAccs == AddAcc(old(memberAccs), hostname, gain)
    {
      if hostname != "" {
        memberAccs := memberAccs[hostname := Plus(GetOrCreateAcc(hostname), gain)];
      }
    }

    /** A lease row of a member; the address counts only when the lease is active. */
    method CreditLease(memberHost: string, active: bool, ip: string)
      modifies this`memberAccs, this`globalIPSet, this`gridLeaseCount
      ensures var ips := if active && ip != "" then {ip} else {};
        && memberAccs == AddAcc(old(memberAccs), memberHost, Acc(0, ips, ips, {}, 1))
        && globalIPSet == old(globalIPSet) + ips && gridLeaseCount == old(gridLeaseCount) + 1
    {
      gridLeaseCount := gridLeaseCount + 1;
      AddAccTwice(memberAccs, memberHost, {ip});
      Credit(memberHost, NO_ACC.(leaseCount := 1));
      if active && ip != "" {
        globalIPSet := globalIPSet + {ip};
        Credit(memberHost, Acc(0, {ip}, {ip}, {}, 0));
      } else {
        assert globalIPSet + {} == globalIPSet;
      }
    }

    method ProcessLease(env: Env, o: Counted)
      modifies this
      ensures View() == Apply(old(View()), LeaseEffect(env, o))
      ensures LeaseLaw(env, o, old(View()), View())
    {
      LeaseObeys(env, o, View());
      hide LeaseLaw;
      ApplyAddress(View(), LeaseEffect(env, o));
      var ip := TrimSpace(Get(o.props, "ip_address"));
      CreditLease(LeaseHost(env, o.vnodeID), Get(o.props, "binding_state") == "active", ip);
    }

    method AttributeAddress(env: Env, ip: string) returns (memberHost: string)
      ensures memberHost == AddressHost(env, ip)
    {
      memberHost := ResolveIPMember(env.grid.resolver.cidrEntries, ip, env.parsers);
      if memberHost == "" {
        memberHost := env.grid.gmHostname;
      }
    }

    method ProcessFixedAddress(env: Env, o: Counted)
      modifies this
      ensures View() == Apply(old(View()), FixedEffect(env, o))
      ensures FixedLaw(env, o, old(View()), View())
    {
      FixedObeys(env, o, View());
      hide FixedLaw;
      ApplyAddress(View(), FixedEffect(env, o));
      var ip := TrimSpace(Get(o.props, "ip_address"));
      if ip != "" {
        globalIPSet := globalIPSet + {ip};
        var memberHost := AttributeAddress(env, ip);
        Credit(memberHost, Acc(0, {}, {ip}, {}, 0));
      } else {
        assert globalIPSet + {} == globalIPSet;
      }
    }

    method ProcessHostAddress(env: Env, o: Counted)
      modifies this
      ensures View() == Apply(old(View()), HostAddressEffect(env, o))
      ensures HostAddressLaw(env, o, old(View()), View())
    {
      HostAddressObeys(env, o, View());
      hide HostAddressLaw;
      ApplyAddress(View(), HostAddressEffect(env, o));
      var ip := TrimSpace(Get(o.props, "address"));
      if ip != "" {
        globalIPSet := globalIPSet + {ip};
        var memberHost := AttributeAddress(env, ip);
        Credit(memberHost, Acc(0, {}, {}, {ip}, 0));
      } else {
        assert globalIPSet + {} == globalIPSet;
      }
    }

    /** A /32 network is flagged as a host route. */
    method FlagHostRoute(env: Env, fullCIDR: string, memberHost: string)
      modifies this`hostRoutes
      ensures hostRoutes == old(hostRoutes) + RouteFlags(env, fullCIDR, memberHost)
    {
      if fullCIDR != "" {
        var ipNet := env.parsers.cidr(fullCIDR);
        if ipNet.Some? && ipNet.value.len == 32 {
          hostRoutes := hostRoutes + [HostRouteFlag(fullCIDR, memberHost)];
        }
      }
    }

    method ProcessNetwork(env: Env, o: Counted)
      modifies this
      ensures View() == Apply(old(View()), NetworkEffect(env, o))
      ensures NetworkLaw(env, o, old(View()), View())
    {
      NetworkObeys(env, o, View());
      hide NetworkLaw;
      ApplyDDI(View(), NetworkEffect(env, o));
      var memberHost := NetworkOwner(env, o);
      CountDDI(NetworkEffect(env, o), NETWORK, 1, memberHost);
      FlagHostRoute(env, FullCIDR(o), memberHost);
    }

    method ProcessDHCPOption(env: Env, o: Counted)
      modifies this
      ensures View() == Apply(old(View()), OptionEffect(env, o))
      ensures OptionLaw(env, o, old(View()), View())
    {
      OptionObeys(env, o, View());
      hide *;
      FlagOption(env, o);
    }

    method FlagOption(env: Env, o: Counted)
      modifies this
      ensures View() == Apply(old(View()), OptionEffect(env, o))
    {
      ApplyOptions(View(), OptionEffect(env, o));
      var parentRef := Get(o.props, "parent");
      var network := "";
      var idx := IndexOf(parentRef, '$');
      if idx < |parentRef| {
        network := parentRef[idx + 1..];
      }
      var class_ := env.option(Get(o.props, "option_definition"));
      if class_.flag == "" {
        return;
      }
      var memberHost := ResolveNetwork(env.grid.resolver, network);
      dhcpOptions := dhcpOptions + [DHCPOptionFlag(network, class_.number, class_.space, class_.flag, memberHost)];
    }

    method ProcessHostObject(env: Env, o: Counted)
      modifies this
      ensures View() == Apply(old(View()), HostObjectEffect(env, o))
      ensures HostObjectLaw(env, o, old(View()), View())
    {
      HostObjectObeys(env, o, View());
      hide HostObjectLaw;
      ApplyDDI(View(), HostObjectEffect(env, o));
      var delta := 2;
      if TrimSpace(Get(o.props, "aliases")) != "" {
        delta := 3;
      }
      CountDDI(HostObjectEffect(env, o), HOST_OBJECT, delta, ResolveDNS(env.grid.resolver, Get(o.props, "zone")));
    }

    method ProcessRecord(env: Env, o: Counted)
      modifies this
      ensures View() == Apply(old(View()), RecordEffect(env, o))
      ensures RecordLaw(env, o, old(View()), View())
    {
      RecordObeys(env, o, View());
      hide RecordLaw;
      ApplyDDI(View(), RecordEffect(env, o));
      var zone, memberProp := Get(o.props, "zone"), Get(o.props, "member");
      var memberHost := "";
      if zone != "" {
        memberHost := ResolveDNS(env.grid.resolver, zone);
      }
      if memberHost == "" && memberProp != "" && memberProp in env.grid.vnodeMap {
        memberHost := env.grid.vnodeMap[memberProp];
      }
      CountDDI(RecordEffect(env, o), o.family, 1, memberHost);
    }

    method ProcessObject(env: Env, o: Counted)
      modifies this
      ensures View() == Apply(old(View()), EffectOf(env, o))
      ensures Obeys(env, o, old(View()), View())
    {
      EffectObeys(env, o, View());
      hide Obeys;
      if o.family == LEASE {
        ProcessLease(env, o);
      } else if o.family == FIXED_ADDRESS {
        ProcessFixedAddress(env, o);
      } else if o.family == HOST_ADDRESS {
        ProcessHostAddress(env, o);
      } else if o.family == NETWORK {
        ProcessNetwork(env, o);
      } else if o.family == DHCP_OPTION {
        ProcessDHCPOption(env, o);
      } else if o.family == HOST_OBJECT {
        ProcessHostObject(env, o);
      } else if o.family == DISCOVERY_DATA {
        var ip := TrimSpace(Get(o.props, "ip_address"));
        if ip != "" {
          discoveryIPSet := discoveryIPSet + {ip};
        }
      } else if o.family in DDI_FAMILIES {
        ProcessRecord(env, o);
      }
    }

    method ProcessAll(env: Env, objects: seq<Counted>)
      requires View() == NO_COUNTS
      modifies this
      ensures View() == CountAll(Classifier(env), objects)
    {
      hide CountAll, Classifier, Apply, EffectOf;
      CountNone(env);
      for i := 0 to |objects|
        invariant View() == CountAll(Classifier(env), objects[..i])
      {
        CountNext(env, objects, i);
        ProcessObject(env, objects[i]);
      }
      assert objects[..|objects|] == objects;
    }
  }
}
