/** What the second pass guarantees whatever the backup: the order of the objects does not matter,
    and every counted object is accounted for exactly once in each of the tallies. */
module NiosLaws {
  import opened Base
  import opened Sums
  import opened NiosResolver
  import opened NiosPass1
  import opened NiosEffects

  // ------------------------------------------------------------ order independence

  lemma {:induction false} AddAccCommutes(accs: map<string, Acc>, h: string, a: Acc, g: string, b: Acc)
    ensures AddAcc(AddAcc(accs, h, a), g, b) == AddAcc(AddAcc(accs, g, b), h, a)
  {
    if h != "" && g != "" {
      PlusCommutes(if h in accs then accs[h] else NO_ACC, a, b);
      assert AddAcc(AddAcc(accs, h, a), g, b).Keys == AddAcc(AddAcc(accs, g, b), h, a).Keys;
    }
  }

  lemma {:induction false} PlusCommutes(x: Acc, a: Acc, b: Acc)
    ensures Plus(Plus(x, a), b) == Plus(Plus(x, b), a)
  {
    assert x.leaseIPs + a.leaseIPs + b.leaseIPs == x.leaseIPs + b.leaseIPs + a.leaseIPs;
    assert x.memberIPs + a.memberIPs + b.memberIPs == x.memberIPs + b.memberIPs + a.memberIPs;
    assert x.hostIPs + a.hostIPs + b.hostIPs == x.hostIPs + b.hostIPs + a.hostIPs;
  }

  lemma {:induction false} AccsCommute(accs: map<string, Acc>, a: Effect, b: Effect)
    ensures AccsAfter(AccsAfter(accs, a), b) == AccsAfter(AccsAfter(accs, b), a)
  {
    var da, db := NO_ACC.(ddiCount := a.delta), NO_ACC.(ddiCount := b.delta);
    var x := AddAcc(accs, OwnerOf(a), da);
    AddAccCommutes(x, a.host, a.acc, OwnerOf(b), db);
    AddAccCommutes(accs, OwnerOf(a), da, OwnerOf(b), db);
    var y := AddAcc(accs, OwnerOf(b), db);
    AddAccCommutes(AddAcc(y, OwnerOf(a), da), a.host, a.acc, b.host, b.acc);
    AddAccCommutes(y, OwnerOf(a), da, b.host, b.acc);
  }

  lemma {:induction false} MembersCommute(m: map<string, map<string, int>>, a: Effect, b: Effect)
    ensures MembersAfter(MembersAfter(m, a), b) == MembersAfter(MembersAfter(m, b), a)
  {
    if OwnerOf(a) != "" && OwnerOf(b) != "" {
      BumpCommutes(if a.owner in m then m[a.owner] else map[], a.family, a.delta, b.family, b.delta);
    }
  }

  /** Two objects may be processed in either order. */
  lemma {:induction false} ApplyCommutes(s: Counts, a: Effect, b: Effect)
    ensures Apply(Apply(s, a), b) == Apply(Apply(s, b), a)
  {
    AccsCommute(s.accs, a, b);
    MembersCommute(s.memberDDI, a, b);
    BumpCommutes(s.familyCounts, a.family, a.delta, b.family, b.delta);
    BumpCommutes(s.unresolvedDDI, a.family, a.delta, b.family, b.delta);
    UnionCommutes(s.globalIPs, a.ips, b.ips);
    UnionCommutes(s.discoveryIPs, a.discovered, b.discovered);
    BagsCommute(s.options, multiset(a.options), multiset(b.options));
    BagsCommute(s.routes, multiset(a.routes), multiset(b.routes));
  }

  lemma {:induction false} UnionCommutes<T>(s: set<T>, a: set<T>, b: set<T>)
    ensures s + a + b == s + b + a
  {
  }

  lemma {:induction false} BagsCommute<T>(s: multiset<T>, a: multiset<T>, b: multiset<T>)
    ensures s + a + b == s + b + a
  {
  }

  lemma {:induction false} FoldSnoc(s: Counts, effects: seq<Effect>, e: Effect)
    ensures Fold(s, effects + [e]) == Apply(Fold(s, effects), e)
  {
    assert (effects + [e])[..|effects|] == effects;
  }

  lemma {:induction false} SplitLast<T>(a: seq<T>, e: T, b: seq<T>)
    requires b != []
    ensures a + [e] + b == (a + [e] + b[..|b| - 1]) + [b[|b| - 1]]
    ensures a + b == (a + b[..|b| - 1]) + [b[|b| - 1]]
  {
  }

  lemma {:induction false} ApplyLater(s: Counts, a: seq<Effect>, e: Effect, b: seq<Effect>)
    ensures Fold(s, a + [e] + b) == Apply(Fold(s, a + b), e)
  {
    if b == [] {
      assert a + [e] + b == a + [e] && a + b == a;
      FoldSnoc(s, a, e);
    } else {
      var c, last := b[..|b| - 1], b[|b| - 1];
      SplitLast(a, e, b);
      ApplyLater(s, a, e, c);
      FoldSnoc(s, a + [e] + c, last);
      FoldSnoc(s, a + c, last);
      ApplyCommutes(Fold(s, a + c), e, last);
    }
  }

  lemma {:induction false} ApplyAt(s: Counts, b: seq<Effect>, k: nat)
    requires k < |b|
    ensures Fold(s, b) == Apply(Fold(s, b[..k] + b[k + 1..]), b[k])
  {
    ApplyLater(s, b[..k], b[k], b[k + 1..]);
    SplitAt(b, k);
  }

  lemma {:induction false} ApplyHead(s: Counts, a: seq<Effect>)
    requires a != []
    ensures Fold(s, a) == Apply(Fold(s, a[1..]), a[0])
  {
    hide Apply, Fold;
    ApplyAt(s, a, 0);
    DropHead(a);
  }

  lemma {:induction false} DropHead<T>(a: seq<T>)
    requires a != []
    ensures a[..0] + a[0 + 1..] == a[1..]
  {
  }

  /** The same effects in any order leave the same counts. */
  lemma {:induction false} FoldPermutes(s: Counts, a: seq<Effect>, b: seq<Effect>)
    requires multiset(a) == multiset(b)
    ensures Fold(s, a) == Fold(s, b)
    decreases |a|
  {
    if a == [] {
      SameLength(a, b);
    } else {
      var k := RemoveHead(a, b);
      ApplyHead(s, a);
      ApplyAt(s, b, k);
      FoldPermutes(s, a[1..], b[..k] + b[k + 1..]);
    }
  }

  lemma {:induction false} EffectsAppend(effectOf: Counted -> Effect, a: seq<Counted>, b: seq<Counted>)
    ensures Effects(effectOf, a + b) == Effects(effectOf, a) + Effects(effectOf, b)
  {
    if b == [] {
      assert a + b == a;
    } else {
      assert (a + b)[..|a + b| - 1] == a + b[..|b| - 1];
      EffectsAppend(effectOf, a, b[..|b| - 1]);
    }
  }

  lemma {:induction false} EffectsSplit(effectOf: Counted -> Effect, a: seq<Counted>, o: Counted, b: seq<Counted>)
    ensures multiset(Effects(effectOf, a + [o] + b)) == multiset(Effects(effectOf, a + b)) + multiset{effectOf(o)}
  {
    assert [o][..0] == [] && Effects(effectOf, [o]) == [effectOf(o)];
    EffectsAppend(effectOf, a, [o]);
    EffectsAppend(effectOf, a + [o], b);
    EffectsAppend(effectOf, a, b);
  }

  lemma {:induction false} EffectsAt(effectOf: Counted -> Effect, b: seq<Counted>, k: nat)
    requires k < |b|
    ensures multiset(Effects(effectOf, b))
            == multiset(Effects(effectOf, b[..k] + b[k + 1..])) + multiset{effectOf(b[k])}
  {
    EffectsSplit(effectOf, b[..k], b[k], b[k + 1..]);
    SplitAt(b, k);
  }

  lemma {:induction false} EffectsHead(effectOf: Counted -> Effect, a: seq<Counted>)
    requires a != []
    ensures multiset(Effects(effectOf, a)) == multiset(Effects(effectOf, a[1..])) + multiset{effectOf(a[0])}
  {
    hide Effects;
    EffectsAt(effectOf, a, 0);
    DropHead(a);
  }

  lemma {:induction false} EffectsPermute(effectOf: Counted -> Effect, a: seq<Counted>, b: seq<Counted>)
    requires multiset(a) == multiset(b)
    ensures multiset(Effects(effectOf, a)) == multiset(Effects(effectOf, b))
    decreases |a|
  {
    if a == [] {
      SameLength(a, b);
    } else {
      var k := RemoveHead(a, b);
      EffectsHead(effectOf, a);
      EffectsAt(effectOf, b, k);
      EffectsPermute(effectOf, a[1..], b[..k] + b[k + 1..]);
    }
  }

  /** Any permutation of the object stream yields the same counters, maps and address sets, and the
      same multisets of flags. */
  lemma {:induction false} OrderIndependent(env: Env, a: seq<Counted>, b: seq<Counted>)
    requires multiset(a) == multiset(b)
    ensures CountAll(Classifier(env), a) == CountAll(Classifier(env), b)
  {
    EffectsPermute(Classifier(env), a, b);
    FoldPermutes(NO_COUNTS, Effects(Classifier(env), a), Effects(Classifier(env), b));
  }

  // ------------------------------------------------------------ conservation

  ghost function MemberTotal(m: map<string, map<string, int>>, host: string): int
  {
    if host in m then Total(m[host]) else 0
  }

  ghost function MembersTotal(m: map<string, map<string, int>>): int
  {
    SumOver(m.Keys, h => MemberTotal(m, h))
  }

  lemma {:induction false} TotalOfNone()
    ensures Total<string>(map[]) == 0
  {
  }

  lemma {:induction false} MembersTotalAdd(m: map<string, map<string, int>>, host: string, family: string, delta: int)
    ensures MembersTotal(AddMember(m, host, family, delta)) == MembersTotal(m) + delta
    ensures forall h :: MemberTotal(AddMember(m, host, family, delta), h)
                        == MemberTotal(m, h) + if h == host then delta else 0
  {
    var n := AddMember(m, host, family, delta);
    TotalBump(if host in m then m[host] else map[], family, delta);
    TotalOfNone();
    SumSplit(n.Keys, h => MemberTotal(n, h), host);
    SumCongruent(n.Keys - {host}, h => MemberTotal(n, h), h => MemberTotal(m, h));
    if host in m {
      SumSplit(m.Keys, h => MemberTotal(m, h), host);
      assert n.Keys - {host} == m.Keys - {host};
    } else {
      assert n.Keys - {host} == m.Keys;
    }
  }

  ghost predicate Positive(m: map<string, int>) { forall f | f in m :: m[f] > 0 }

  /** Every counted DDI object is in one family, with one member or unresolved, and in the
      accumulator of that member. */
  ghost predicate Balanced(s: Counts)
  {
    && s.gridDDI == Total(s.familyCounts)
    && s.gridDDI == MembersTotal(s.memberDDI) + Total(s.unresolvedDDI)
    && s.memberDDI.Keys <= s.accs.Keys
    && (forall h | h in s.accs :: s.accs[h].ddiCount == MemberTotal(s.memberDDI, h))
    && Positive(s.unresolvedDDI) && forall h | h in s.memberDDI :: Positive(s.memberDDI[h])
  }

  lemma {:induction false} MembersAfterTotals(m: map<string, map<string, int>>, e: Effect)
    ensures MembersTotal(MembersAfter(m, e)) == MembersTotal(m) + if OwnerOf(e) == "" then 0 else e.delta
    ensures forall h :: MemberTotal(MembersAfter(m, e), h)
                        == MemberTotal(m, h) + if OwnerOf(e) != "" && h == OwnerOf(e) then e.delta else 0
  {
    MembersTotalAdd(m, e.owner, e.family, e.delta);
  }

  lemma {:induction false} AccsAfterCounts(accs: map<string, Acc>, e: Effect, h: string)
    requires e.acc.ddiCount == 0 && h in AccsAfter(accs, e)
    ensures AccsAfter(accs, e)[h].ddiCount
            == (if h in accs then accs[h].ddiCount else 0) + if OwnerOf(e) != "" && h == OwnerOf(e) then e.delta else 0
  {
  }

  lemma {:induction false} AccsStayBalanced(s: Counts, e: Effect)
    requires Balanced(s) && e.acc.ddiCount == 0
    ensures var accs, m := AccsAfter(s.accs, e), MembersAfter(s.memberDDI, e);
      m.Keys <= accs.Keys && forall h | h in accs :: accs[h].ddiCount == MemberTotal(m, h)
  {
    var accs, m := AccsAfter(s.accs, e), MembersAfter(s.memberDDI, e);
    MembersAfterTotals(s.memberDDI, e);
    forall h | h in accs
      ensures accs[h].ddiCount == MemberTotal(m, h)
    {
      AccsAfterCounts(s.accs, e, h);
    }
  }

  lemma {:induction false} MembersStayPositive(m: map<string, map<string, int>>, e: Effect)
    requires forall h | h in m :: Positive(m[h])
    ensures forall h | h in MembersAfter(m, e) :: Positive(MembersAfter(m, e)[h])
  {
  }

  lemma {:induction false} ApplyBalanced(s: Counts, e: Effect)
    requires Balanced(s) && e.acc.ddiCount == 0
    ensures Balanced(Apply(s, e))
  {
    TotalBump(s.familyCounts, e.family, e.delta);
    TotalBump(s.unresolvedDDI, e.family, e.delta);
    MembersAfterTotals(s.memberDDI, e);
    AccsStayBalanced(s, e);
    MembersStayPositive(s.memberDDI, e);
  }

  /** Objects that are not DDI objects credit no DDI count. */
  lemma {:induction false} EffectCreditsNoDDI(env: Env, o: Counted)
    ensures EffectOf(env, o).acc.ddiCount == 0
  {
  }

  lemma {:induction false} BalancedFold(effectOf: Counted -> Effect, objects: seq<Counted>)
    requires forall o :: effectOf(o).acc.ddiCount == 0
    ensures Balanced(CountAll(effectOf, objects))
  {
    if objects == [] {
      TotalOfNone();
    } else {
      var before, o := objects[..|objects| - 1], objects[|objects| - 1];
      BalancedFold(effectOf, before);
      ApplyBalanced(CountAll(effectOf, before), effectOf(o));
      assert objects == before + [o];
      CountSnoc(effectOf, before, o);
    }
  }

  /** gridDDI equals the sum over families, and the sum over members plus the unresolved objects;
      each member's accumulator agrees with its own families. */
  lemma {:induction false} Conservation(env: Env, objects: seq<Counted>)
    ensures Balanced(CountAll(Classifier(env), objects))
  {
    forall o: Counted
      ensures Classifier(env)(o).acc.ddiCount == 0
    {
      EffectCreditsNoDDI(env, o);
    }
    BalancedFold(Classifier(env), objects);
  }

  // ------------------------------------------------------------ addresses and members

  /** The address of an effect, if any, goes to a member; leases count as member addresses too. */
  ghost predicate Located(s: Counts)
  {
    && (forall ip :: ip in s.globalIPs <==> exists h :: h in s.accs && ip in s.accs[h].memberIPs + s.accs[h].hostIPs)
    && (forall h | h in s.accs :: s.accs[h].leaseIPs <= s.accs[h].memberIPs)
  }

  ghost predicate WellAddressed(e: Effect, hosts: set<string>)
  {
    && (e.host in hosts || (e.host == "" && e.acc == NO_ACC && e.ips == {}))
    && e.ips == e.acc.memberIPs + e.acc.hostIPs && e.acc.leaseIPs <= e.acc.memberIPs
    && (e.owner in hosts || e.owner == "")
  }

  ghost predicate LocatedIn(accs: map<string, Acc>, ip: string)
  {
    exists h :: h in accs && ip in accs[h].memberIPs + accs[h].hostIPs
  }

  lemma {:induction false} AddAccLocated(accs: map<string, Acc>, host: string, acc: Acc, ip: string)
    requires host != ""
    ensures LocatedIn(AddAcc(accs, host, acc), ip) <==> LocatedIn(accs, ip) || ip in acc.memberIPs + acc.hostIPs
  {
    var after := AddAcc(accs, host, acc);
    if h :| h in accs && ip in accs[h].memberIPs + accs[h].hostIPs {
      assert h in after && ip in after[h].memberIPs + after[h].hostIPs;
    }
    if ip in acc.memberIPs + acc.hostIPs {
      assert ip in after[host].memberIPs + after[host].hostIPs;
    }
    if h :| h in after && ip in after[h].memberIPs + after[h].hostIPs {
      assert h != host ==> h in accs && after[h] == accs[h];
    }
  }

  lemma {:induction false} ApplyLocated(s: Counts, e: Effect, hosts: set<string>)
    requires Located(s) && WellAddressed(e, hosts) && s.accs.Keys <= hosts && "" !in hosts
    ensures Located(Apply(s, e)) && Apply(s, e).accs.Keys <= hosts
  {
    var mid, u := AddAcc(s.accs, OwnerOf(e), NO_ACC.(ddiCount := e.delta)), Apply(s, e);
    forall ip
      ensures ip in u.globalIPs <==> exists h :: h in u.accs && ip in u.accs[h].memberIPs + u.accs[h].hostIPs
    {
      if OwnerOf(e) != "" {
        AddAccLocated(s.accs, OwnerOf(e), NO_ACC.(ddiCount := e.delta), ip);
      }
      if e.host != "" {
        AddAccLocated(mid, e.host, e.acc, ip);
      }
    }
  }

  ghost predicate NamesOnly(env: Env, hosts: set<string>)
  {
    && hosts == env.grid.vnodeMap.Values && "" !in hosts && env.grid.gmHostname in hosts
    && env.grid.resolver.zoneMember.Values <= hosts && env.grid.resolver.networkMember.Values <= hosts
    && forall e | e in env.grid.resolver.cidrEntries :: e.member in hosts
  }

  lemma {:induction false} AddressEffectsStay(env: Env, o: Counted, hosts: set<string>)
    requires NamesOnly(env, hosts)
    ensures WellAddressed(LeaseEffect(env, o), hosts)
    ensures WellAddressed(FixedEffect(env, o), hosts) && WellAddressed(HostAddressEffect(env, o), hosts)
  {
    ResolveIPInGrid(env, TrimSpace(Get(o.props, "ip_address")), hosts);
    ResolveIPInGrid(env, TrimSpace(Get(o.props, "address")), hosts);
  }

  lemma {:induction false} OwnerEffectsStay(env: Env, o: Counted, hosts: set<string>)
    requires NamesOnly(env, hosts)
    ensures WellAddressed(NetworkEffect(env, o), hosts) && WellAddressed(HostObjectEffect(env, o), hosts)
    ensures RecordOwner(env, o) in hosts || RecordOwner(env, o) == ""
  {
  }

  lemma {:induction false} OthersStay(env: Env, o: Counted, hosts: set<string>)
    requires RecordOwner(env, o) in hosts || RecordOwner(env, o) == ""
    ensures WellAddressed(NOTHING, hosts) && WellAddressed(OptionEffect(env, o), hosts)
    ensures WellAddressed(DiscoveryEffect(o), hosts) && WellAddressed(RecordEffect(env, o), hosts)
  {
    hide TrimSpace, Get;
  }

  /** Every object's address and DDI count go to members of the grid. */
  lemma {:induction false} EffectsStayInGrid(env: Env, o: Counted, hosts: set<string>)
    requires NamesOnly(env, hosts)
    ensures WellAddressed(EffectOf(env, o), hosts)
  {
    AddressEffectsStay(env, o, hosts);
    OwnerEffectsStay(env, o, hosts);
    OthersStay(env, o, hosts);
    hide WellAddressed, OptionEffect, DiscoveryEffect, RecordEffect;
    hide NamesOnly, LeaseEffect, FixedEffect, HostAddressEffect, NetworkEffect, HostObjectEffect, RecordOwner;
  }

  lemma {:induction false} ResolveIPInGrid(env: Env, ip: string, hosts: set<string>)
    requires env.grid.gmHostname in hosts
    requires forall e | e in env.grid.resolver.cidrEntries :: e.member in hosts
    ensures AddressHost(env, ip) in hosts
  {
    if ip != "" && env.parsers.ip(ip).Some? {
      FirstMatchListed(env.grid.resolver.cidrEntries, env.parsers.ip(ip).value);
    }
  }

  lemma {:induction false} FirstMatchListed(entries: seq<CidrEntry>, a: Addr)
    ensures FirstMatch(entries, a).Some? ==> FirstMatch(entries, a).value in entries
  {
    if entries != [] {
      FirstMatchListed(entries[1..], a);
    }
  }

  lemma {:induction false} LocatedFold(effectOf: Counted -> Effect, objects: seq<Counted>, hosts: set<string>)
    requires "" !in hosts && forall o :: WellAddressed(effectOf(o), hosts)
    ensures Located(CountAll(effectOf, objects)) && CountAll(effectOf, objects).accs.Keys <= hosts
  {
    if objects != [] {
      var before, o := objects[..|objects| - 1], objects[|objects| - 1];
      LocatedFold(effectOf, before, hosts);
      ApplyLocated(CountAll(effectOf, before), effectOf(o), hosts);
      assert objects == before + [o];
      CountSnoc(effectOf, before, o);
    }
  }

  /** With at least one member and distinct identifiers: only members own anything, and the grid's
      address set is the union of all members' two address sets. */
  lemma {:induction false} GlobalAddressesAreMembers(env: Env, nodes: seq<Object>, objects: seq<Counted>)
    requires Describes(env.grid, nodes, env.parsers) && DistinctOids(nodes) && env.grid.vnodeMap != map[]
    ensures Located(CountAll(Classifier(env), objects))
    ensures CountAll(Classifier(env), objects).accs.Keys <= env.grid.vnodeMap.Values
  {
    var hosts := env.grid.vnodeMap.Values;
    ResolverNamesMembers(env.grid, nodes, env.parsers);
    forall o: Counted
      ensures WellAddressed(Classifier(env)(o), hosts)
    {
      EffectsStayInGrid(env, o, hosts);
    }
    LocatedFold(Classifier(env), objects, hosts);
  }
}
