/** internal/scanner/nios/pass1.go: what the first pass learns about members, and the three-tier
    attribution of zones built from it. */
module NiosPass1 {
  import opened Base
  import opened NiosResolver

  /** The __type strings the first pass dispatches on, as far as attribution is concerned. */
  datatype Kind = VirtualNode | NSGroupPrimary | NSGroupForward | DHCPMember | Zone | BindSOA | OtherKind

  datatype Object = Object(kind: Kind, props: map<string, string>)

  /** Go's map lookup: the empty string for an absent key. */
  function Get(props: map<string, string>, key: string): (value: string)
    ensures key in props ==> value == props[key]
    ensures key !in props ==> value == ""
  {
    if key in props then props[key] else ""
  }

  function LowerChar(c: char): char
  {
    if 'A' <= c <= 'Z' then c - 'A' + 'a' else c
  }

  /** strings.ToLower on ASCII text. */
  function ToLower(s: string): string
  {
    if s == "" then "" else [LowerChar(s[0])] + ToLower(s[1..])
  }

  function TrimDot(s: string): string
  {
    if s != "" && s[|s| - 1] == '.' then s[..|s| - 1] else s
  }

  // ------------------------------------------------- what each map should hold

  /** Key and value an object contributes; None when it is of another kind or either is empty. */
  function Pair(o: Object, kind: Kind, keyProp: string, valueProp: string): Option<(string, string)>
  {
    if o.kind == kind && Get(o.props, keyProp) != "" && Get(o.props, valueProp) != ""
    then Some((Get(o.props, keyProp), Get(o.props, valueProp))) else None
  }

  /** The first contribution to each key counts. */
  function FirstWins(objects: seq<Object>, kind: Kind, keyProp: string, valueProp: string): map<string, string>
  {
    if objects == [] then map[]
    else NoteFirst(FirstWins(objects[..|objects| - 1], kind, keyProp, valueProp),
                   Pair(objects[|objects| - 1], kind, keyProp, valueProp))
  }

  function NoteFirst(m: map<string, string>, p: Option<(string, string)>): map<string, string>
  {
    if p.Some? && p.value.0 !in m then m[p.value.0 := p.value.1] else m
  }

  /** The last contribution to each key counts. */
  function LastWins(objects: seq<Object>, kind: Kind, keyProp: string, valueProp: string): map<string, string>
  {
    if objects == [] then map[]
    else NoteLast(LastWins(objects[..|objects| - 1], kind, keyProp, valueProp),
                  Pair(objects[|objects| - 1], kind, keyProp, valueProp))
  }

  function NoteLast(m: map<string, string>, p: Option<(string, string)>): map<string, string>
  {
    if p.Some? then m[p.value.0 := p.value.1] else m
  }

  /** Zones with a name, whether or not they have a name-server group. */
  function ZonesOf(objects: seq<Object>): set<string>
  {
    set o | o in objects && o.kind.Zone? && Get(o.props, "zone") != "" :: Get(o.props, "zone")
  }

  predicate MarksMaster(o: Object)
  {
    && Pair(o, VirtualNode, "virtual_oid", "host_name").Some?
    && (Get(o.props, "is_master") == "true" || Get(o.props, "is_grid_master") == "true")
  }

  /** The last member flagged as master. */
  function Master(objects: seq<Object>): string
  {
    if objects == [] then ""
    else if MarksMaster(objects[|objects| - 1]) then Get(objects[|objects| - 1].props, "host_name")
    else Master(objects[..|objects| - 1])
  }

  // ------------------------------------------------------------- the program

  class Pass1State {
    var vnodeMap: map<string, string>
    var gmHostname: string
    var nsGroupPrimary: map<string, string>
    var nsGroupForward: map<string, string>
    var dhcpMembers: map<string, string>
    var zoneNSGroup: map<string, string>
    var allZoneRefs: set<string>
    var soaPrimaryMap: map<string, string>

    constructor ()
      ensures Collected([]) && gmHostname == ""
    {
      vnodeMap, gmHostname := map[], "";
      nsGroupPrimary, nsGroupForward, dhcpMembers := map[], map[], map[];
      zoneNSGroup, allZoneRefs, soaPrimaryMap := map[], {}, map[];
    }

    /** The maps after recording `objects` in order. */
    ghost predicate Collected(objects: seq<Object>)
      reads this
    {
      && vnodeMap == LastWins(objects, VirtualNode, "virtual_oid", "host_name")
      && nsGroupPrimary == FirstWins(objects, NSGroupPrimary, "ns_group", "grid_member")
      && nsGroupForward == FirstWins(objects, NSGroupForward, "ns_group", "forward_address")
      && dhcpMembers == FirstWins(objects, DHCPMember, "network", "member")
      && zoneNSGroup == LastWins(objects, Zone, "zone", "assigned_ns_group")
      && allZoneRefs == ZonesOf(objects)
      && soaPrimaryMap == SoaOf(objects)
    }

    method RecordVirtualNode(o: Object)
      requires o.kind.VirtualNode?
      modifies this`vnodeMap, this`gmHostname
      ensures vnodeMap == NoteLast(old(vnodeMap), Pair(o, VirtualNode, "virtual_oid", "host_name"))
      ensures gmHostname == if MarksMaster(o) then Get(o.props, "host_name") else old(gmHostname)
    {
      var oid, hostname := Get(o.props, "virtual_oid"), Get(o.props, "host_name");
      if oid == "" || hostname == "" {
        return;
      }
      vnodeMap := vnodeMap[oid := hostname];
      if Get(o.props, "is_master") == "true" || Get(o.props, "is_grid_master") == "true" {
        gmHostname := hostname;
      }
    }

    method RecordZone(o: Object)
      requires o.kind.Zone?
      modifies this`allZoneRefs, this`zoneNSGroup
      ensures allZoneRefs == old(allZoneRefs) + (if Get(o.props, "zone") != "" then {Get(o.props, "zone")} else {})
      ensures zoneNSGroup == NoteLast(old(zoneNSGroup), Pair(o, Zone, "zone", "assigned_ns_group"))
    {
      var zoneRef := Get(o.props, "zone");
      if zoneRef == "" {
        return;
      }
      var nsGroup := Get(o.props, "assigned_ns_group");
      allZoneRefs := allZoneRefs + {zoneRef};
      if nsGroup != "" {
        zoneNSGroup := zoneNSGroup[zoneRef := nsGroup];
      }
    }

    method RecordBindSOA(o: Object)
      requires o.kind.BindSOA?
      modifies this`soaPrimaryMap
      ensures soaPrimaryMap == NoteSoa(old(soaPrimaryMap), Pair(o, BindSOA, "zone", "mname"))
    {
      var zoneRef, primaryNS := Get(o.props, "zone"), Get(o.props, "mname");
      if zoneRef == "" || primaryNS == "" {
        return;
      }
      soaPrimaryMap := soaPrimaryMap[zoneRef := TrimDot(ToLower(primaryNS))];
    }

    method Record(o: Object)
      modifies this
      ensures vnodeMap == NoteLast(old(vnodeMap), Pair(o, VirtualNode, "virtual_oid", "host_name"))
      ensures gmHostname == if MarksMaster(o) then Get(o.props, "host_name") else old(gmHostname)
      ensures nsGroupPrimary == NoteFirst(old(nsGroupPrimary), Pair(o, NSGroupPrimary, "ns_group", "grid_member"))
      ensures nsGroupForward == NoteFirst(old(nsGroupForward), Pair(o, NSGroupForward, "ns_group", "forward_address"))
      ensures dhcpMembers == NoteFirst(old(dhcpMembers), Pair(o, DHCPMember, "network", "member"))
      ensures zoneNSGroup == NoteLast(old(zoneNSGroup), Pair(o, Zone, "zone", "assigned_ns_group"))
      ensures allZoneRefs == old(allZoneRefs) + ZonesOf([o])
      ensures soaPrimaryMap == NoteSoa(old(soaPrimaryMap), Pair(o, BindSOA, "zone", "mname"))
    {
      ZonesOfOne(o);
      match o.kind {
        case VirtualNode => RecordVirtualNode(o);
        case NSGroupPrimary =>
          nsGroupPrimary := RecordFirst(nsGroupPrimary, Get(o.props, "ns_group"), Get(o.props, "grid_member"));
        case NSGroupForward =>
          nsGroupForward := RecordFirst(nsGroupForward, Get(o.props, "ns_group"), Get(o.props, "forward_address"));
        case DHCPMember =>
          dhcpMembers := RecordFirst(dhcpMembers, Get(o.props, "network"), Get(o.props, "member"));
        case Zone => RecordZone(o);
        case BindSOA => RecordBindSOA(o);
        case OtherKind =>
      }
    }

    /** The fallback of finalize: without a flagged master, any member will do. */
    method Finalize()
      modifies this`gmHostname
      ensures old(gmHostname) != "" ==> gmHostname == old(gmHostname)
      ensures old(gmHostname) == "" && vnodeMap != map[] ==> gmHostname in vnodeMap.Values
      ensures vnodeMap == map[] ==> gmHostname == old(gmHostname)
    {
      if gmHostname == "" && |vnodeMap| > 0 {
        var oid :| oid in vnodeMap;
        gmHostname := vnodeMap[oid];
      }
    }
  }

  function RecordFirst(m: map<string, string>, key: string, value: string): map<string, string>
  {
    if key != "" && value != "" && key !in m then m[key := value] else m
  }

  /** Normalised primary name server of each zone, from the last SOA record that names one. */
  function SoaOf(objects: seq<Object>): map<string, string>
  {
    if objects == [] then map[]
    else
      var m := SoaOf(objects[..|objects| - 1]);
      NoteSoa(m, Pair(objects[|objects| - 1], BindSOA, "zone", "mname"))
  }

  function NoteSoa(m: map<string, string>, p: Option<(string, string)>): map<string, string>
  {
    if p.Some? then m[p.value.0 := TrimDot(ToLower(p.value.1))] else m
  }

  lemma {:induction false} ZonesOfOne(o: Object)
    ensures ZonesOf([o]) == if o.kind.Zone? && Get(o.props, "zone") != "" then {Get(o.props, "zone")} else {}
  {
    assert o in [o];
  }

  lemma {:induction false} ZonesSnoc(objects: seq<Object>, o: Object)
    ensures ZonesOf(objects + [o]) == ZonesOf(objects) + ZonesOf([o])
  {
    assert forall x :: x in objects + [o] <==> x in objects || x in [o];
  }

  /** Everything the second pass needs to know about members. */
  datatype Grid = Grid(vnodeMap: map<string, string>, gmHostname: string, resolver: Resolver)

  /** First tier: the zone's group, its primary or else its forwarder, and that member's hostname. */
  function GroupOwner(objects: seq<Object>, zone: string): Option<string>
  {
    var groups := LastWins(objects, Zone, "zone", "assigned_ns_group");
    if zone !in groups then None
    else
      var primary := Get(FirstWins(objects, NSGroupPrimary, "ns_group", "grid_member"), groups[zone]);
      var oid := if primary != "" then primary
                 else Get(FirstWins(objects, NSGroupForward, "ns_group", "forward_address"), groups[zone]);
      var vnodes := LastWins(objects, VirtualNode, "virtual_oid", "host_name");
      if oid != "" && oid in vnodes then Some(vnodes[oid]) else None
  }

  /** Second tier: `host` is a member whose lower-case name is the zone's SOA primary. */
  ghost predicate SoaOwner(objects: seq<Object>, zone: string, host: string)
  {
    && zone in SoaOf(objects)
    && host in LastWins(objects, VirtualNode, "virtual_oid", "host_name").Values
    && ToLower(host) == TrimDot(ToLower(SoaOf(objects)[zone]))
  }

  /** The owner of a zone: by group, else by SOA primary, else the Grid Master. */
  ghost predicate Owns(objects: seq<Object>, gm: string, zone: string, host: string)
  {
    match GroupOwner(objects, zone)
    case Some(h) => host == h
    case None => SoaOwner(objects, zone, host) || (host == gm && forall h :: !SoaOwner(objects, zone, h))
  }

  ghost predicate AttributesZones(grid: Grid, objects: seq<Object>)
  {
    && grid.resolver.zoneMember.Keys == ZonesOf(objects)
    && OwnsEach(grid.resolver.zoneMember, objects, grid.gmHostname)
  }

  ghost predicate AttributesNetworks(grid: Grid, objects: seq<Object>, parsers: Parsers)
  {
    var dhcp := FirstWins(objects, DHCPMember, "network", "member");
    var vnodes := LastWins(objects, VirtualNode, "virtual_oid", "host_name");
    && grid.resolver.networkMember == (map n | n in dhcp && dhcp[n] in vnodes :: vnodes[dhcp[n]])
    && Lists(grid.resolver.cidrEntries, grid.resolver.networkMember, parsers)
  }

  /** The flagged master, or with no flag any member, or nobody when there are no members. */
  ghost predicate NamesMaster(grid: Grid, objects: seq<Object>)
  {
    if Master(objects) != "" then grid.gmHostname == Master(objects)
    else if grid.vnodeMap == map[] then grid.gmHostname == ""
    else grid.gmHostname in grid.vnodeMap.Values
  }

  ghost predicate Describes(grid: Grid, objects: seq<Object>, parsers: Parsers)
  {
    && grid.vnodeMap == LastWins(objects, VirtualNode, "virtual_oid", "host_name")
    && NamesMaster(grid, objects) && AttributesZones(grid, objects) && AttributesNetworks(grid, objects, parsers)
  }

  method BuildHostnameLookup(vnodeMap: map<string, string>) returns (lookup: map<string, string>)
    ensures Offers(lookup, vnodeMap)
  {
    lookup := map[];
    var oids := vnodeMap.Keys;
    while oids != {}
      invariant oids <= vnodeMap.Keys
      invariant forall k | k in lookup :: lookup[k] in vnodeMap.Values && ToLower(lookup[k]) == k
      invariant forall oid | oid in vnodeMap && oid !in oids :: ToLower(vnodeMap[oid]) in lookup
    {
      var oid :| oid in oids;
      lookup := lookup[ToLower(vnodeMap[oid]) := vnodeMap[oid]];
      oids := oids - {oid};
    }
  }

  /** First tier of buildResolver. */
  method ResolveByGroup(state: Pass1State, ghost objects: seq<Object>) returns (zoneMember: map<string, string>)
    requires state.Collected(objects)
    ensures forall z :: if z in zoneMember then GroupOwner(objects, z) == Some(zoneMember[z])
            else GroupOwner(objects, z).None?
  {
    zoneMember := map[];
    var zones := state.zoneNSGroup.Keys;
    while zones != {}
      invariant zones <= state.zoneNSGroup.Keys
      invariant forall z | z in zoneMember ::
                z in state.zoneNSGroup && z !in zones && GroupOwner(objects, z) == Some(zoneMember[z])
      invariant forall z | z in state.zoneNSGroup && z !in zones && z !in zoneMember :: GroupOwner(objects, z).None?
    {
      var zoneRef :| zoneRef in zones;
      var nsGroup := state.zoneNSGroup[zoneRef];
      var memberOID := Get(state.nsGroupPrimary, nsGroup);
      if memberOID == "" {
        memberOID := Get(state.nsGroupForward, nsGroup);
      }
      if memberOID != "" && memberOID in state.vnodeMap {
        zoneMember := zoneMember[zoneRef := state.vnodeMap[memberOID]];
      }
      zones := zones - {zoneRef};
    }
  }

  /** The lookup offers each member under its lower-case name. */
  ghost predicate Offers(lookup: map<string, string>, vnodeMap: map<string, string>)
  {
    && (forall k | k in lookup :: lookup[k] in vnodeMap.Values && ToLower(lookup[k]) == k)
    && (forall oid | oid in vnodeMap :: ToLower(vnodeMap[oid]) in lookup)
  }

  /** Second and third tier of buildResolver for one unresolved zone. */
  method ResolveBySoa(state: Pass1State, lookup: map<string, string>, zoneRef: string, ghost objects: seq<Object>)
      returns (host: string)
    requires state.Collected(objects) && Offers(lookup, state.vnodeMap) && GroupOwner(objects, zoneRef).None?
    ensures Owns(objects, state.gmHostname, zoneRef, host)
  {
    if zoneRef in state.soaPrimaryMap {
      var normalized := TrimDot(ToLower(state.soaPrimaryMap[zoneRef]));
      if normalized in lookup {
        return lookup[normalized];
      }
      assert forall h | h in state.vnodeMap.Values :: ToLower(h) in lookup;
    }
    return state.gmHostname;
  }

  ghost predicate OwnsEach(zoneMember: map<string, string>, objects: seq<Object>, gm: string)
  {
    forall z | z in zoneMember :: Owns(objects, gm, z, zoneMember[z])
  }

  lemma {:induction false} OwnsOneMore(zoneMember: map<string, string>, objects: seq<Object>, gm: string, zone: string,
                                       host: string)
    requires OwnsEach(zoneMember, objects, gm) && Owns(objects, gm, zone, host)
    ensures OwnsEach(zoneMember[zone := host], objects, gm)
  {
  }

  method ResolveRest(state: Pass1State, lookup: map<string, string>, byGroup: map<string, string>,
                     ghost objects: seq<Object>)
    returns (zoneMember: map<string, string>)
    requires state.Collected(objects) && Offers(lookup, state.vnodeMap)
    requires OwnsEach(byGroup, objects, state.gmHostname) && byGroup.Keys <= state.allZoneRefs
    requires forall z | z !in byGroup :: GroupOwner(objects, z).None?
    ensures zoneMember.Keys == state.allZoneRefs && OwnsEach(zoneMember, objects, state.gmHostname)
  {
    zoneMember := byGroup;
    var zones := state.allZoneRefs;
    while zones != {}
      invariant zones <= state.allZoneRefs
      invariant zoneMember.Keys == byGroup.Keys + (state.allZoneRefs - zones)
      invariant OwnsEach(zoneMember, objects, state.gmHostname)
    {
      var zoneRef :| zoneRef in zones;
      if zoneRef !in zoneMember {
        var host := ResolveBySoa(state, lookup, zoneRef, objects);
        OwnsOneMore(zoneMember, objects, state.gmHostname, zoneRef, host);
        zoneMember := zoneMember[zoneRef := host];
      }
      zones := zones - {zoneRef};
    }
  }

  method ResolveZones(state: Pass1State, lookup: map<string, string>, ghost objects: seq<Object>)
      returns (zoneMember: map<string, string>)
    requires state.Collected(objects) && Offers(lookup, state.vnodeMap)
    ensures zoneMember.Keys == ZonesOf(objects)
    ensures OwnsEach(zoneMember, objects, state.gmHostname)
  {
    var byGroup := ResolveByGroup(state, objects);
    GroupZonesAreZones(objects);
    assert byGroup.Keys <= state.allZoneRefs by {
      forall z | z in byGroup
        ensures z in state.allZoneRefs
      {
        assert GroupOwner(objects, z).Some?;
      }
    }
    zoneMember := ResolveRest(state, lookup, byGroup, objects);
  }

  method BuildResolver(state: Pass1State, parsers: Parsers, ghost objects: seq<Object>) returns (grid: Grid)
    requires state.Collected(objects)
    ensures grid.vnodeMap == state.vnodeMap && grid.gmHostname == state.gmHostname
    ensures AttributesZones(grid, objects) && AttributesNetworks(grid, objects, parsers)
  {
    var lookup := BuildHostnameLookup(state.vnodeMap);
    var zoneMember := ResolveZones(state, lookup, objects);
    var networkMember := map n | n in state.dhcpMembers && state.dhcpMembers[n] in state.vnodeMap ::
      state.vnodeMap[state.dhcpMembers[n]];
    var entries := BuildCIDREntries(networkMember, parsers);
    grid := Grid(state.vnodeMap, state.gmHostname, Resolver(zoneMember, networkMember, entries));
  }

  lemma {:induction false} GroupZonesAreZones(objects: seq<Object>)
    ensures LastWins(objects, Zone, "zone", "assigned_ns_group").Keys <= ZonesOf(objects)
  {
    if objects != [] {
      var before, o := objects[..|objects| - 1], objects[|objects| - 1];
      assert objects == before + [o];
      GroupZonesAreZones(before);
      ZonesSnoc(before, o);
    }
  }

  method RecordAll(state: Pass1State, objects: seq<Object>)
    requires state.Collected([]) && state.gmHostname == ""
    modifies state
    ensures state.Collected(objects) && state.gmHostname == Master(objects)
  {
    for i := 0 to |objects|
      invariant state.Collected(objects[..i]) && state.gmHostname == Master(objects[..i])
    {
      assert objects[..i + 1][..i] == objects[..i] && objects[..i + 1] == objects[..i] + [objects[i]];
      ZonesSnoc(objects[..i], objects[i]);
      state.Record(objects[i]);
    }
    assert objects[..|objects|] == objects;
  }

  method RunPass1(objects: seq<Object>, parsers: Parsers) returns (grid: Grid)
    ensures Describes(grid, objects, parsers)
  {
    var state := new Pass1State();
    RecordAll(state, objects);
    state.Finalize();
    grid := BuildResolver(state, parsers, objects);
  }

  // ------------------------------------------------- what the second pass relies on

  /** Every recorded virtual node has its own object identifier. */
  ghost predicate DistinctOids(objects: seq<Object>)
  {
    forall i, j | 0 <= i < j < |objects| ::
      var p, q := Pair(objects[i], VirtualNode, "virtual_oid", "host_name"),
        Pair(objects[j], VirtualNode, "virtual_oid", "host_name");
      p.Some? && q.Some? ==> p.value.0 != q.value.0
  }

  lemma {:induction false} VnodesAt(objects: seq<Object>, i: nat)
    requires DistinctOids(objects) && i < |objects|
    ensures var p := Pair(objects[i], VirtualNode, "virtual_oid", "host_name");
      var m := LastWins(objects, VirtualNode, "virtual_oid", "host_name");
      p.Some? ==> p.value.0 in m && m[p.value.0] == p.value.1
  {
    var n := |objects| - 1;
    if i < n {
      VnodesAt(objects[..n], i);
    }
  }

  lemma {:induction false} MasterIsRecorded(objects: seq<Object>)
    ensures Master(objects) != "" ==> exists i: nat ::
            i < |objects| && MarksMaster(objects[i]) && Master(objects) == Get(objects[i].props, "host_name")
  {
    if objects != [] {
      var n := |objects| - 1;
      MasterIsRecorded(objects[..n]);
      if MarksMaster(objects[n]) {
      } else if Master(objects) != "" {
        var i: nat :| i < n && MarksMaster(objects[..n][i])
          && Master(objects) == Get(objects[..n][i].props, "host_name");
        assert objects[i] == objects[..n][i];
      }
    }
  }

  /** Hostnames are never empty. */
  lemma {:induction false} HostsNamed(objects: seq<Object>)
    ensures "" !in LastWins(objects, VirtualNode, "virtual_oid", "host_name").Values
  {
    if objects != [] {
      HostsNamed(objects[..|objects| - 1]);
    }
  }

  /** With distinct identifiers every hostname the resolver can answer is a member's, and so is the
      Grid Master's as soon as there is a member. */
  lemma {:induction false} ResolverNamesMembers(grid: Grid, objects: seq<Object>, parsers: Parsers)
    requires Describes(grid, objects, parsers) && DistinctOids(objects) && grid.vnodeMap != map[]
    ensures grid.gmHostname in grid.vnodeMap.Values && "" !in grid.vnodeMap.Values
    ensures grid.resolver.zoneMember.Values <= grid.vnodeMap.Values
    ensures grid.resolver.networkMember.Values <= grid.vnodeMap.Values
    ensures forall e | e in grid.resolver.cidrEntries :: e.member in grid.vnodeMap.Values
  {
    HostsNamed(objects);
    MasterIsRecorded(objects);
    if Master(objects) != "" {
      var i: nat :| i < |objects| && MarksMaster(objects[i]) && Master(objects) == Get(objects[i].props, "host_name");
      VnodesAt(objects, i);
    }
    forall z | z in grid.resolver.zoneMember
      ensures grid.resolver.zoneMember[z] in grid.vnodeMap.Values
    {
      assert Owns(objects, grid.gmHostname, z, grid.resolver.zoneMember[z]);
    }
  }
}
