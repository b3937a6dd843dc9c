/** Who owns a zone or a network, read off the recorded objects of internal/scanner/nios/pass1.go:71-340: which object
    counts when several name the same key, and in which order the tiers are asked. */
module NiosTiers {
  import opened Base
  import opened NiosResolver
  import opened NiosPass1

  /** The object gives `key` the value `value`, both non-empty. */
  ghost predicate Gives(o: Object, kind: Kind, keyProp: string, valueProp: string, key: string, value: string)
  {
    && o.kind == kind && key != "" && value != ""
    && keyProp in o.props && o.props[keyProp] == key && valueProp in o.props && o.props[valueProp] == value
  }

  /** The object gives `key` some value. */
  ghost predicate Knows(o: Object, kind: Kind, keyProp: string, valueProp: string, key: string)
  {
    exists value :: Gives(o, kind, keyProp, valueProp, key, value)
  }

  /** `value` is what the first object that knows `key` gives it. */
  ghost predicate First(objects: seq<Object>, kind: Kind, keyProp: string, valueProp: string, key: string,
                        value: string)
  {
    exists i: nat :: i < |objects| && Gives(objects[i], kind, keyProp, valueProp, key, value)
                     && forall j | 0 <= j < i :: !Knows(objects[j], kind, keyProp, valueProp, key)
  }

  /** `value` is what the last object that knows `key` gives it. */
  ghost predicate Last(objects: seq<Object>, kind: Kind, keyProp: string, valueProp: string, key: string, value: string)
  {
    exists i: nat :: i < |objects| && Gives(objects[i], kind, keyProp, valueProp, key, value)
                     && forall j | i < j < |objects| :: !Knows(objects[j], kind, keyProp, valueProp, key)
  }

  /** No object knows `key`. */
  ghost predicate Unknown(objects: seq<Object>, kind: Kind, keyProp: string, valueProp: string, key: string)
  {
    forall o | o in objects :: !Knows(o, kind, keyProp, valueProp, key)
  }

  lemma {:induction false} PairGives(o: Object, kind: Kind, keyProp: string, valueProp: string, key: string)
    ensures var p := Pair(o, kind, keyProp, valueProp);
      && (p.Some? && p.value.0 == key ==> Gives(o, kind, keyProp, valueProp, key, p.value.1))
      && (p.None? || p.value.0 != key ==> !Knows(o, kind, keyProp, valueProp, key))
  {
  }

  /** Of several contributions to a key the first counts. */
  lemma {:induction false} FirstCounts(objects: seq<Object>, kind: Kind, keyProp: string, valueProp: string,
                                       key: string)
    ensures var m := FirstWins(objects, kind, keyProp, valueProp);
      && (key in m ==> First(objects, kind, keyProp, valueProp, key, m[key]))
      && (key !in m ==> Unknown(objects, kind, keyProp, valueProp, key))
  {
    if objects != [] {
      var n := |objects| - 1;
      var before, o := objects[..n], objects[n];
      FirstCounts(before, kind, keyProp, valueProp, key);
      PairGives(o, kind, keyProp, valueProp, key);
      var old_, m := FirstWins(before, kind, keyProp, valueProp), FirstWins(objects, kind, keyProp, valueProp);
      assert m == NoteFirst(old_, Pair(o, kind, keyProp, valueProp));
      assert objects == before + [o];
      hide Gives, Knows, Pair, FirstWins;
      if key in old_ {
        FirstStays(before, o, kind, keyProp, valueProp, key, old_[key]);
      }
    }
  }

  lemma {:induction false} FirstStays(before: seq<Object>, o: Object, kind: Kind, keyProp: string, valueProp: string,
                                      key: string, value: string)
    requires First(before, kind, keyProp, valueProp, key, value)
    ensures First(before + [o], kind, keyProp, valueProp, key, value)
  {
    hide Gives, Knows;
    var i: nat :| i < |before| && Gives(before[i], kind, keyProp, valueProp, key, value)
                  && forall j | 0 <= j < i :: !Knows(before[j], kind, keyProp, valueProp, key);
    var all := before + [o];
    assert all[i] == before[i] && forall j | 0 <= j < i :: all[j] == before[j];
  }

  /** Of several contributions to a key the last counts. */
  lemma {:induction false} LastCounts(objects: seq<Object>, kind: Kind, keyProp: string, valueProp: string, key: string)
    ensures var m := LastWins(objects, kind, keyProp, valueProp);
      && (key in m ==> Last(objects, kind, keyProp, valueProp, key, m[key]))
      && (key !in m ==> Unknown(objects, kind, keyProp, valueProp, key))
  {
    if objects != [] {
      var n := |objects| - 1;
      var before, o := objects[..n], objects[n];
      LastCounts(before, kind, keyProp, valueProp, key);
      PairGives(o, kind, keyProp, valueProp, key);
      var old_, m := LastWins(before, kind, keyProp, valueProp), LastWins(objects, kind, keyProp, valueProp);
      assert m == NoteLast(old_, Pair(o, kind, keyProp, valueProp));
      assert objects == before + [o];
      hide Gives, Knows, Pair, LastWins;
      if key in old_ && !Knows(o, kind, keyProp, valueProp, key) {
        LastStays(before, o, kind, keyProp, valueProp, key, old_[key]);
      }
    }
  }

  lemma {:induction false} LastStays(before: seq<Object>, o: Object, kind: Kind, keyProp: string, valueProp: string,
                                     key: string, value: string)
    requires Last(before, kind, keyProp, valueProp, key, value) && !Knows(o, kind, keyProp, valueProp, key)
    ensures Last(before + [o], kind, keyProp, valueProp, key, value)
  {
    hide Gives, Knows;
    var i: nat :| i < |before| && Gives(before[i], kind, keyProp, valueProp, key, value)
                  && forall j | i < j < |before| :: !Knows(before[j], kind, keyProp, valueProp, key);
    var all := before + [o];
    assert all[i] == before[i] && forall j | i < j < |before| :: all[j] == before[j];
  }

  /** The map of first contributions says exactly which value came first. */
  lemma {:induction false} FirstWinsIs(objects: seq<Object>, kind: Kind, keyProp: string, valueProp: string,
                                       key: string, value: string)
    ensures var m := FirstWins(objects, kind, keyProp, valueProp);
      && (First(objects, kind, keyProp, valueProp, key, value) <==> key in m && m[key] == value)
      && (Unknown(objects, kind, keyProp, valueProp, key) <==> key !in m)
  {
    FirstCounts(objects, kind, keyProp, valueProp, key);
    hide FirstWins;
    forall v, w | First(objects, kind, keyProp, valueProp, key, v) && First(objects, kind, keyProp, valueProp, key, w)
      ensures v == w
    {
    }
    if v :| First(objects, kind, keyProp, valueProp, key, v) {
      var i: nat :| i < |objects| && Gives(objects[i], kind, keyProp, valueProp, key, v);
      assert Knows(objects[i], kind, keyProp, valueProp, key) && objects[i] in objects;
    }
  }

  /** The map of last contributions says exactly which value came last. */
  lemma {:induction false} LastWinsIs(objects: seq<Object>, kind: Kind, keyProp: string, valueProp: string, key: string,
                                      value: string)
    ensures var m := LastWins(objects, kind, keyProp, valueProp);
      && (Last(objects, kind, keyProp, valueProp, key, value) <==> key in m && m[key] == value)
      && (Unknown(objects, kind, keyProp, valueProp, key) <==> key !in m)
  {
    LastCounts(objects, kind, keyProp, valueProp, key);
    hide LastWins;
    forall v, w | Last(objects, kind, keyProp, valueProp, key, v) && Last(objects, kind, keyProp, valueProp, key, w)
      ensures v == w
    {
    }
    if v :| Last(objects, kind, keyProp, valueProp, key, v) {
      var i: nat :| i < |objects| && Gives(objects[i], kind, keyProp, valueProp, key, v);
      assert Knows(objects[i], kind, keyProp, valueProp, key) && objects[i] in objects;
    }
  }

  // ------------------------------------------------------------ the tiers

  /** `host` is the member of the virtual node `oid`. */
  ghost predicate IsMember(objects: seq<Object>, oid: string, host: string)
  {
    Last(objects, VirtualNode, "virtual_oid", "host_name", oid, host)
  }

  /** The member a name-server group stands for: its primary, or its forwarder when it has no primary. */
  ghost predicate Leads(objects: seq<Object>, group: string, oid: string)
  {
    || First(objects, NSGroupPrimary, "ns_group", "grid_member", group, oid)
    || (Unknown(objects, NSGroupPrimary, "ns_group", "grid_member", group)
        && First(objects, NSGroupForward, "ns_group", "forward_address", group, oid))
  }

  /** First tier: the group assigned last to the zone stands for the member `host`. */
  ghost predicate ByGroup(objects: seq<Object>, zone: string, host: string)
  {
    exists group, oid :: Last(objects, Zone, "zone", "assigned_ns_group", zone, group) && Leads(objects, group, oid)
                         && IsMember(objects, oid, host)
  }

  /** Two spellings of one domain name: equal but for the case of letters and a final dot. */
  ghost predicate SameName(host: string, primary: string)
  {
    ToLower(host) == TrimDot(TrimDot(ToLower(primary)))
  }

  lemma {:induction false} Lowers(s: string)
    ensures |ToLower(s)| == |s|
    ensures forall i | 0 <= i < |s| ::
      ToLower(s)[i] as int == s[i] as int + (if 'A' <= s[i] <= 'Z' then 32 else 0)
  {
    if s != "" {
      Lowers(s[1..]);
    }
  }

  lemma {:induction false} TrimsOneDot(s: string)
    ensures TrimDot(s + ".") == s
    ensures s == "" || s[|s| - 1] != '.' ==> TrimDot(s) == s
  {
    assert (s + ".")[..|s|] == s;
  }

  /** Second tier: `host` is a member whose name is the primary server of the zone's last SOA record. */
  ghost predicate BySoa(objects: seq<Object>, zone: string, host: string)
  {
    && (exists oid :: IsMember(objects, oid, host))
    && (exists primary :: Last(objects, BindSOA, "zone", "mname", zone, primary) && SameName(host, primary))
  }

  ghost predicate NoneEmpty(m: map<string, string>) { forall k | k in m :: k != "" && m[k] != "" }

  lemma {:induction false} NoEmptyValues(objects: seq<Object>, kind: Kind, keyProp: string, valueProp: string)
    ensures NoneEmpty(FirstWins(objects, kind, keyProp, valueProp))
    ensures NoneEmpty(LastWins(objects, kind, keyProp, valueProp))
  {
    if objects != [] {
      var before, p := objects[..|objects| - 1], Pair(objects[|objects| - 1], kind, keyProp, valueProp);
      NoEmptyValues(before, kind, keyProp, valueProp);
      assert FirstWins(objects, kind, keyProp, valueProp) == NoteFirst(FirstWins(before, kind, keyProp, valueProp), p);
      assert LastWins(objects, kind, keyProp, valueProp) == NoteLast(LastWins(before, kind, keyProp, valueProp), p);
      assert p.Some? ==> p.value.0 != "" && p.value.1 != "";
      hide FirstWins, LastWins, Pair;
    }
  }

  /** The member that the maps of the first pass make a group stand for. */
  function Leader(objects: seq<Object>, group: string): Option<string>
  {
    var primary := FirstWins(objects, NSGroupPrimary, "ns_group", "grid_member");
    var forward := FirstWins(objects, NSGroupForward, "ns_group", "forward_address");
    if group in primary then Some(primary[group]) else if group in forward then Some(forward[group]) else None
  }

  lemma {:induction false} LeaderIs(objects: seq<Object>, group: string, oid: string)
    ensures Leads(objects, group, oid) <==> Leader(objects, group) == Some(oid)
  {
    FirstWinsIs(objects, NSGroupPrimary, "ns_group", "grid_member", group, oid);
    FirstWinsIs(objects, NSGroupForward, "ns_group", "forward_address", group, oid);
    hide First, Unknown, FirstWins;
  }

  lemma {:induction false} GroupOwnerAsks(objects: seq<Object>, zone: string)
    ensures var groups := LastWins(objects, Zone, "zone", "assigned_ns_group");
      var nodes := LastWins(objects, VirtualNode, "virtual_oid", "host_name");
      GroupOwner(objects, zone)
      == if zone in groups && Leader(objects, groups[zone]).Some? && Leader(objects, groups[zone]).value in nodes
         then Some(nodes[Leader(objects, groups[zone]).value]) else None
  {
    hide FirstWins, LastWins;
    NoEmptyValues(objects, NSGroupPrimary, "ns_group", "grid_member");
    NoEmptyValues(objects, NSGroupForward, "ns_group", "forward_address");
    NoEmptyValues(objects, VirtualNode, "virtual_oid", "host_name");
  }

  /** The first tier of the resolver is the plain one. */
  lemma {:induction false} GroupOwnerIs(objects: seq<Object>, zone: string, host: string)
    ensures ByGroup(objects, zone, host) <==> GroupOwner(objects, zone) == Some(host)
  {
    GroupOwnerAsks(objects, zone);
    forall group, oid
      ensures Last(objects, Zone, "zone", "assigned_ns_group", zone, group) <==>
        var groups := LastWins(objects, Zone, "zone", "assigned_ns_group"); zone in groups && groups[zone] == group
      ensures Leads(objects, group, oid) <==> Leader(objects, group) == Some(oid)
      ensures IsMember(objects, oid, host) <==>
        var nodes := LastWins(objects, VirtualNode, "virtual_oid", "host_name"); oid in nodes && nodes[oid] == host
    {
      LastWinsIs(objects, Zone, "zone", "assigned_ns_group", zone, group);
      LeaderIs(objects, group, oid);
      LastWinsIs(objects, VirtualNode, "virtual_oid", "host_name", oid, host);
    }
    hide LastWins, Last, Leads, IsMember, FirstWins, GroupOwner, Leader;
    var groups := LastWins(objects, Zone, "zone", "assigned_ns_group");
    if GroupOwner(objects, zone) == Some(host) {
      var group := groups[zone];
      var oid := Leader(objects, group).value;
      assert Last(objects, Zone, "zone", "assigned_ns_group", zone, group) && Leads(objects, group, oid);
      assert IsMember(objects, oid, host);
    }
  }

  lemma {:induction false} SoaIs(objects: seq<Object>, zone: string)
    ensures var m := LastWins(objects, BindSOA, "zone", "mname");
      && SoaOf(objects).Keys == m.Keys
      && (zone in m ==> SoaOf(objects)[zone] == TrimDot(ToLower(m[zone])))
  {
    if objects != [] {
      SoaIs(objects[..|objects| - 1], zone);
    }
  }

  lemma {:induction false} LowerTwice(s: string)
    ensures ToLower(ToLower(s)) == ToLower(s) && ToLower(TrimDot(ToLower(s))) == TrimDot(ToLower(s))
  {
    var t, u := ToLower(s), TrimDot(ToLower(s));
    Lowers(s);
    Lowers(t);
    Lowers(u);
    hide ToLower, LowerChar;
    assert forall i | 0 <= i < |t| :: !('A' <= t[i] <= 'Z');
    assert forall i | 0 <= i < |t| :: ToLower(t)[i] as int == t[i] as int;
    assert forall i | 0 <= i < |u| :: u[i] == t[i] && ToLower(u)[i] as int == u[i] as int;
    SameCodes(ToLower(t), t);
    SameCodes(ToLower(u), u);
  }

  lemma {:induction false} SameCodes(a: string, b: string)
    requires |a| == |b| && forall i | 0 <= i < |a| :: a[i] as int == b[i] as int
    ensures a == b
  {
  }

  /** The second tier of the resolver is the plain one. */
  lemma {:induction false} SoaOwnerIs(objects: seq<Object>, zone: string, host: string)
    ensures BySoa(objects, zone, host) <==> SoaOwner(objects, zone, host)
  {
    var m, nodes := LastWins(objects, BindSOA, "zone", "mname"),
      LastWins(objects, VirtualNode, "virtual_oid", "host_name");
    SoaIs(objects, zone);
    forall oid
      ensures IsMember(objects, oid, host) <==> oid in nodes && nodes[oid] == host
    {
      LastWinsIs(objects, VirtualNode, "virtual_oid", "host_name", oid, host);
    }
    forall primary
      ensures Last(objects, BindSOA, "zone", "mname", zone, primary) <==> zone in m && m[zone] == primary
    {
      LastWinsIs(objects, BindSOA, "zone", "mname", zone, primary);
    }
    hide LastWins, Last, IsMember, SoaOf, ToLower, TrimDot;
    LowerTwice(if zone in m then m[zone] else "");
    if SoaOwner(objects, zone, host) {
      var oid :| oid in nodes && nodes[oid] == host;
      assert IsMember(objects, oid, host);
      assert Last(objects, BindSOA, "zone", "mname", zone, m[zone]) && SameName(host, m[zone]);
    }
  }

  // ------------------------------------------------------------ what the grid says

  /** A zone's owner: by its group, else by its SOA primary, else the Grid Master; and exactly the recorded zones have
      one. */
  lemma {:induction false} ZoneOwners(grid: Grid, objects: seq<Object>, parsers: Parsers, zone: string)
    requires Describes(grid, objects, parsers)
    ensures zone in grid.resolver.zoneMember
            <==> zone != "" && exists o ::
              o in objects && o.kind == Zone && "zone" in o.props && o.props["zone"] == zone
    ensures zone in grid.resolver.zoneMember ==>
      var host := grid.resolver.zoneMember[zone];
      || ByGroup(objects, zone, host)
      || ((forall h :: !ByGroup(objects, zone, h))
          && (BySoa(objects, zone, host) || ((forall h :: !BySoa(objects, zone, h)) && host == grid.gmHostname)))
  {
    forall h
      ensures ByGroup(objects, zone, h) <==> GroupOwner(objects, zone) == Some(h)
      ensures BySoa(objects, zone, h) <==> SoaOwner(objects, zone, h)
    {
      GroupOwnerIs(objects, zone, h);
      SoaOwnerIs(objects, zone, h);
    }
    hide ByGroup, BySoa, GroupOwner, SoaOwner, LastWins, FirstWins, NamesMaster, AttributesNetworks;
    assert zone in grid.resolver.zoneMember.Keys <==> zone in ZonesOf(objects);
  }

  /** A network's owner: the member of the node that the first object for the network names. */
  lemma {:induction false} NetworkOwners(grid: Grid, objects: seq<Object>, parsers: Parsers, network: string,
                                         host: string)
    requires Describes(grid, objects, parsers)
    ensures (network in grid.resolver.networkMember && grid.resolver.networkMember[network] == host)
            <==> exists oid :: First(objects, DHCPMember, "network", "member", network, oid)
                               && IsMember(objects, oid, host)
  {
    var dhcp, nodes := FirstWins(objects, DHCPMember, "network", "member"),
      LastWins(objects, VirtualNode, "virtual_oid", "host_name");
    forall oid
      ensures First(objects, DHCPMember, "network", "member", network, oid) <==> network in dhcp && dhcp[network] == oid
      ensures IsMember(objects, oid, host) <==> oid in nodes && nodes[oid] == host
    {
      FirstWinsIs(objects, DHCPMember, "network", "member", network, oid);
      LastWinsIs(objects, VirtualNode, "virtual_oid", "host_name", oid, host);
    }
    hide First, IsMember, LastWins, FirstWins, NamesMaster, AttributesZones;
    if network in dhcp && dhcp[network] in nodes {
      assert First(objects, DHCPMember, "network", "member", network, dhcp[network]);
    }
  }

  /** The Grid Master: the member flagged last with a name and an identifier, else any member, else nobody. */
  lemma {:induction false} MasterIsFlagged(objects: seq<Object>)
    ensures Master(objects) != "" ==> exists i: nat ::
              && i < |objects| && Flagged(objects[i], Master(objects))
              && forall j, h | i < j < |objects| :: !Flagged(objects[j], h)
    ensures Master(objects) == "" ==> forall o, h | o in objects :: !Flagged(o, h)
  {
    if objects != [] {
      var n := |objects| - 1;
      var before, o := objects[..n], objects[n];
      MasterIsFlagged(before);
      assert objects == before + [o];
      FlaggedIs(o);
      hide Flagged, MarksMaster;
      if !MarksMaster(o) && Master(before) != "" {
        var i: nat :| i < n && Flagged(before[i], Master(before)) && forall j, h | i < j < n :: !Flagged(before[j], h);
        assert objects[i] == before[i] && forall j | i < j < n :: objects[j] == before[j];
      }
    }
  }

  /** A virtual node with identifier and name `host`, marked as master in either way. */
  ghost predicate Flagged(o: Object, host: string)
  {
    && (exists oid :: Gives(o, VirtualNode, "virtual_oid", "host_name", oid, host))
    && (Get(o.props, "is_master") == "true" || Get(o.props, "is_grid_master") == "true")
  }

  lemma {:induction false} FlaggedIs(o: Object)
    ensures MarksMaster(o) ==> Flagged(o, Get(o.props, "host_name")) && Get(o.props, "host_name") != ""
    ensures !MarksMaster(o) ==> forall h :: !Flagged(o, h)
  {
    if MarksMaster(o) {
      assert Gives(o, VirtualNode, "virtual_oid", "host_name", Get(o.props, "virtual_oid"), Get(o.props, "host_name"));
    }
  }
}
