/** When next-fit packing returns the fewest instances. A legal packing is held against the cuts of the
    sorted members: next-fit is never beaten by a cut, so only the order of the members can cost instances. */
module XaasOptimality {
  import opened Base
  import opened TokenTiers
  import opened XaasConsolidation

  /** What one instance may hold: members within every XL limit, or a single member of any size. */
  predicate Permitted(run: seq<Member>, cap: Capacity)
  {
    |run| <= 1 || Fits(run, cap)
  }

  ghost predicate AllPermitted(groups: seq<seq<Member>>, cap: Capacity)
  {
    forall i | 0 <= i < |groups| :: Permitted(groups[i], cap)
  }

  /** `groups` share the members out, in any way at all. */
  ghost predicate Packs(groups: seq<seq<Member>>, members: seq<Member>, cap: Capacity)
  {
    multiset(Flatten(groups)) == multiset(members) && AllPermitted(groups, cap)
  }

  /** `groups` leave the members in the order of `ms`. */
  ghost predicate Cut(groups: seq<seq<Member>>, ms: seq<Member>, cap: Capacity)
  {
    Flatten(groups) == ms && AllPermitted(groups, cap)
  }

  ghost predicate Fewest(groups: seq<seq<Member>>, members: seq<Member>, cap: Capacity)
  {
    Packs(groups, members, cap) && forall other | Packs(other, members, cap) :: |groups| <= |other|
  }

  lemma {:induction false} NextFitIsCut(groups: seq<seq<Member>>, ms: seq<Member>, cap: Capacity)
    requires NextFit(groups, ms, cap)
    ensures Cut(groups, ms, cap)
  {
    hide Fits;
    forall i | 0 <= i < |groups|
      ensures Permitted(groups[i], cap)
    {
      assert Run(groups[i], cap) && groups[i][..|groups[i]|] == groups[i];
      assert |groups[i]| >= 2 ==> PrefixFits(groups[i], |groups[i]|, cap);
    }
  }

  lemma {:induction false} PartFits(a: seq<Member>, b: seq<Member>, c: seq<Member>, cap: Capacity)
    requires NonNegative(a + b + c) && Fits(a + b + c, cap)
    ensures Fits(b, cap)
  {
    hide Total;
    TotalAppend(a + b, c);
    TotalAppend(a, b);
    assert forall m | m in a || m in c :: m in a + b + c;
    TotalNonNegative(a);
    TotalNonNegative(c);
  }

  /** A run that starts inside the group `o`, before its last `d` members, does not close inside it. */
  lemma {:induction false} RunOutlastsGroup(run: nat, o: seq<Member>, d: nat, ms: seq<Member>, cap: Capacity)
    requires NonNegative(o) && Permitted(o, cap) && 0 < d <= |o| && 0 < run < |ms|
    requires d <= |ms| && ms[..d] == o[|o| - d..]
    requires !Fits(ms[..run + 1], cap)
    ensures d <= run
  {
    hide Fits;
    if run < d {
      var k := |o| - d;
      var b := ms[..run + 1];
      assert b == ms[..d][..run + 1];
      assert o == o[..k] + b + o[k + run + 1..];
      PartFits(o[..k], b, o[k + run + 1..], cap);
    }
  }

  /** Greedy stays ahead: next-fit over what is left of a cut never needs more than the rest of the cut. */
  lemma {:induction false} StaysAhead(groups: seq<seq<Member>>, k: nat, other: seq<seq<Member>>, cap: Capacity)
    requires NonNegative(Flatten(other)) && AllPermitted(other, cap)
    requires k <= |Flatten(other)| && NextFit(groups, Flatten(other)[k..], cap)
    ensures |groups| <= |other|
    decreases |other|
  {
    hide Fits, Permitted;
    var ms := Flatten(other)[k..];
    if groups != [] {
      FirstRunClosesAt(groups, ms, cap);
      PermittedParts(other, cap);
      hide AllPermitted, NonNegative, NextFit, PrefixFits;
      var o, rest, n := other[0], Flatten(other[1..]), |groups[0]|;
      if k >= |o| {
        assert ms == rest[k - |o|..];
        StaysAhead(groups, k - |o|, other[1..], cap);
      } else if |groups| >= 2 {
        SuffixParts(o, rest, k);
        RunOutlastsGroup(n, o, |o| - k, ms, cap);
        assert ms[n..] == rest[n - (|o| - k)..];
        TailNextFit(groups, ms, cap);
        StaysAhead(groups[1..], n - (|o| - k), other[1..], cap);
      }
    }
  }

  lemma {:induction false} PermittedParts(other: seq<seq<Member>>, cap: Capacity)
    requires other != [] && NonNegative(Flatten(other)) && AllPermitted(other, cap)
    ensures Flatten(other) == other[0] + Flatten(other[1..])
    ensures NonNegative(other[0]) && NonNegative(Flatten(other[1..]))
    ensures Permitted(other[0], cap) && AllPermitted(other[1..], cap)
  {
    hide Permitted;
    assert forall m | m in other[0] || m in Flatten(other[1..]) :: m in Flatten(other);
  }

  lemma {:induction false} SuffixParts<T>(o: seq<T>, rest: seq<T>, k: nat)
    requires k < |o|
    ensures (o + rest)[k..] == o[k..] + rest && (o + rest)[k..][..|o| - k] == o[|o| - (|o| - k)..]
  {
  }

  /** No cut of the sorted members into permitted groups has fewer groups than the packer's. */
  lemma {:induction false} NoCutIsShorter(members: seq<Member>, groups: seq<seq<Member>>, other: seq<seq<Member>>,
                                          cap: Capacity)
    requires NonNegative(members) && NextFit(groups, SortedByKey(members), cap)
    requires Cut(other, SortedByKey(members), cap)
    ensures |groups| <= |other|
  {
    hide Fits, SortedByKey;
    SortFacts(members, 0);
    NonNegativePermutes(members, SortedByKey(members));
    assert Flatten(other)[0..] == SortedByKey(members);
    StaysAhead(groups, 0, other, cap);
  }

  /** The packer returns the fewest instances exactly when some packing into the fewest instances keeps
      the members in sorted order. */
  lemma {:induction false} FewestIff(members: seq<Member>, groups: seq<seq<Member>>, cap: Capacity)
    requires NonNegative(members) && NextFit(groups, SortedByKey(members), cap)
    ensures Fewest(groups, members, cap)
            <==> exists best :: Fewest(best, members, cap) && Cut(best, SortedByKey(members), cap)
  {
    SortFacts(members, 0);
    NextFitIsCut(groups, SortedByKey(members), cap);
    hide Fits, SortedByKey, NextFit, AllPermitted;
    if best :| Fewest(best, members, cap) && Cut(best, SortedByKey(members), cap) {
      NoCutIsShorter(members, groups, best, cap);
    }
  }

  /** The packer returns at most `n` instances exactly when the sorted members can be cut into `n` groups or fewer. */
  lemma {:induction false} AtMostIff(members: seq<Member>, groups: seq<seq<Member>>, n: nat, cap: Capacity)
    requires NonNegative(members) && NextFit(groups, SortedByKey(members), cap)
    ensures |groups| <= n <==> exists other | Cut(other, SortedByKey(members), cap) :: |other| <= n
  {
    NextFitIsCut(groups, SortedByKey(members), cap);
    hide Fits, SortedByKey, NextFit, AllPermitted;
    if other :| Cut(other, SortedByKey(members), cap) && |other| <= n {
      NoCutIsShorter(members, groups, other, cap);
    }
  }

  /** The sorted members fall into two permitted halves at position `n`. */
  predicate Halves(members: seq<Member>, n: nat, cap: Capacity)
  {
    n <= |SortedByKey(members)| && Permitted(SortedByKey(members)[..n], cap)
      && Permitted(SortedByKey(members)[n..], cap)
  }

  lemma {:induction false} AtMostTwoIff(members: seq<Member>, groups: seq<seq<Member>>, cap: Capacity)
    requires NonNegative(members) && NextFit(groups, SortedByKey(members), cap)
    ensures |groups| <= 2 <==> exists n: nat :: Halves(members, n, cap)
  {
    var sorted := SortedByKey(members);
    hide Fits, SortedByKey;
    if |groups| <= 2 {
      NextFitIsCut(groups, sorted, cap);
      hide NextFit;
      FlattenTwo(groups);
      var n := if groups == [] then 0 else |groups[0]|;
      assert sorted[..n] == (if groups == [] then [] else groups[0]);
      assert sorted[n..] == (if |groups| <= 1 then [] else groups[1]);
      assert Halves(members, n, cap);
    }
    if n: nat :| Halves(members, n, cap) {
      var other := [sorted[..n], sorted[n..]];
      hide NextFit;
      FlattenTwo(other);
      assert sorted[..n] + sorted[n..] == sorted;
      NoCutIsShorter(members, groups, other, cap);
    }
  }

  lemma {:induction false} FlattenTwo<T>(parts: seq<seq<T>>)
    requires |parts| <= 2
    ensures Flatten(parts) == (if parts == [] then [] else parts[0]) + (if |parts| <= 1 then [] else parts[1])
  {
    if |parts| == 2 {
      assert Flatten(parts[1..]) == parts[1] + Flatten(parts[1..][1..]);
    }
  }

  /** Sorted members that fall into two halves are packed into the fewest instances. */
  lemma {:induction false} UpToTwoInstancesAreOptimal(members: seq<Member>, groups: seq<seq<Member>>, n: nat,
                                                      cap: Capacity)
    requires NonNegative(members) && NextFit(groups, SortedByKey(members), cap)
    requires Halves(members, n, cap)
    ensures Fewest(groups, members, cap)
  {
    hide SortedByKey, Total;
    SortFacts(members, 0);
    NextFitIsCut(groups, SortedByKey(members), cap);
    AtMostTwoIff(members, groups, cap);
    OneInstanceIff(members, groups, cap);
    hide Halves, NextFit, AllPermitted;
    forall other | Packs(other, members, cap)
      ensures |groups| <= |other|
    {
      AtLeast(members, groups, other, cap);
    }
  }

  lemma {:induction false} AtLeast(members: seq<Member>, groups: seq<seq<Member>>, other: seq<seq<Member>>,
                                   cap: Capacity)
    requires Packs(other, members, cap) && |groups| <= 2
    requires Cut(groups, SortedByKey(members), cap)
    requires members == [] ==> groups == []
    requires |members| == 1 || (members != [] && Fits(members, cap)) ==> |groups| == 1
    ensures |groups| <= |other|
  {
    hide SortedByKey, Total;
    FlattenTwo(if |other| <= 2 then other else []);
    if |other| == 1 {
      assert other[0] + [] == other[0] && Permitted(other[0], cap);
      SameLength(other[0], members);
      TotalPermutes(other[0], members);
    } else if other == [] {
      SameLength([], members);
    }
  }

  /** An awkward quadruple gets one instance more than the fewest. */
  lemma {:induction false} AwkwardIsNotFewest(groups: seq<seq<Member>>, a: Member, b: Member, c: Member, d: Member,
                                              cap: Capacity)
    requires Awkward(a, b, c, d, cap) && NextFit(groups, SortedByKey([a, b, c, d]), cap)
    ensures |groups| == 3 && !Fewest(groups, [a, b, c, d], cap)
  {
    hide *;
    FewestIsNotGuaranteed(a, b, c, d, cap);
    TwoWouldSuffice(a, b, c, d, cap);
    NextFitIsUnique(groups, [[a], [b, c], [d]], SortedByKey([a, b, c, d]), cap);
    LegalIsPacked([[a, d], [b, c]], [a, b, c, d], cap);
    NotFewest(groups, [[a, d], [b, c]], [a, b, c, d], cap);
  }

  lemma {:induction false} LegalIsPacked(other: seq<seq<Member>>, members: seq<Member>, cap: Capacity)
    requires LegalPacking(other, members, cap)
    ensures Packs(other, members, cap)
  {
    hide Fits;
    assert forall i | 0 <= i < |other| :: Fits(other[i], cap) ==> Permitted(other[i], cap);
  }

  lemma {:induction false} NotFewest(groups: seq<seq<Member>>, other: seq<seq<Member>>, members: seq<Member>,
                                     cap: Capacity)
    requires Packs(other, members, cap) && |other| < |groups|
    ensures !Fewest(groups, members, cap)
  {
    hide Packs;
  }

  // ---------------------------------------------------------------- members of equal demand

  ghost predicate EqualDemands(ms: seq<Member>, load: Load)
  {
    forall m | m in ms :: Demand(m) == load
  }

  lemma {:induction false} EqualTotals(a: seq<Member>, b: seq<Member>, load: Load)
    requires |a| == |b| && EqualDemands(a, load) && EqualDemands(b, load)
    ensures Total(a) == Total(b)
  {
    if a != [] {
      assert a[|a| - 1] in a && b[|b| - 1] in b;
      EqualTotals(a[..|a| - 1], b[..|b| - 1], load);
    }
  }

  /** The cut of `ms` whose groups have the lengths of `other`. */
  ghost function Recut(other: seq<seq<Member>>, ms: seq<Member>): (r: seq<seq<Member>>)
    requires |Flatten(other)| == |ms|
  {
    if other == [] then [] else [ms[..|other[0]|]] + Recut(other[1..], ms[|other[0]|..])
  }

  lemma {:induction false} CutCons(run: seq<Member>, tail: seq<seq<Member>>, ms: seq<Member>, cap: Capacity)
    requires Permitted(run, cap) && Cut(tail, ms, cap)
    ensures Cut([run] + tail, run + ms, cap)
  {
    hide Permitted;
    assert ([run] + tail)[1..] == tail;
  }

  lemma {:induction false} RecutIsCut(other: seq<seq<Member>>, ms: seq<Member>, load: Load, cap: Capacity)
    requires |Flatten(other)| == |ms| && AllPermitted(other, cap)
    requires EqualDemands(Flatten(other), load) && EqualDemands(ms, load)
    ensures Cut(Recut(other, ms), ms, cap) && |Recut(other, ms)| == |other|
  {
    hide Total;
    if other != [] {
      var o, rest := other[0], Flatten(other[1..]);
      assert forall m | m in o || m in rest :: m in Flatten(other);
      assert EqualDemands(ms[..|o|], load) && EqualDemands(ms[|o|..], load);
      EqualTotals(o, ms[..|o|], load);
      assert Permitted(o, cap) && Permitted(ms[..|o|], cap);
      RecutIsCut(other[1..], ms[|o|..], load, cap);
      CutCons(ms[..|o|], Recut(other[1..], ms[|o|..]), ms[|o|..], cap);
      hide Permitted, EqualDemands, AllPermitted, Flatten;
      assert ms[..|o|] + ms[|o|..] == ms;
    }
  }

  /** Members of equal demand are packed into the fewest instances. */
  lemma {:induction false} EqualDemandsAreOptimal(members: seq<Member>, groups: seq<seq<Member>>, load: Load,
                                                  cap: Capacity)
    requires NonNegative(members) && NextFit(groups, SortedByKey(members), cap)
    requires EqualDemands(members, load)
    ensures Fewest(groups, members, cap)
  {
    var sorted := SortedByKey(members);
    hide SortedByKey, Fits;
    SortFacts(members, 0);
    NextFitIsCut(groups, sorted, cap);
    SameElements(members, sorted);
    forall other | Packs(other, members, cap)
      ensures |groups| <= |other|
    {
      SameElements(members, Flatten(other));
      hide NextFit;
      RecutIsCut(other, sorted, load, cap);
      NoCutIsShorter(members, groups, Recut(other, sorted), cap);
    }
  }

  lemma {:induction false} SameElements<T>(a: seq<T>, b: seq<T>)
    requires multiset(a) == multiset(b)
    ensures |a| == |b| && forall x | x in b :: x in a
  {
    SameLength(a, b);
    forall x | x in b
      ensures x in a
    {
      assert x in multiset(b);
    }
  }
}
