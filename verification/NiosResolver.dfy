/** memberResolver of internal/scanner/nios/counter.go: longest-prefix attribution of addresses. */
module NiosResolver {
  import opened Base
  import opened MachineInt

  /** An address of `bits` bits (32 for IPv4) as a number. */
  datatype Addr = Addr(bits: nat, value: nat)

  /** A network: some address in it and the prefix length. */
  datatype Net = Net(addr: Addr, len: nat)

  datatype CidrEntry = CidrEntry(network: Net, member: string, prefixLen: nat)

  /** net.ParseIP and net.ParseCIDR, which are not part of this model. */
  datatype Parsers = Parsers(ip: string -> Option<Addr>, cidr: string -> Option<Net>)

  datatype Resolver = Resolver(
    zoneMember: map<string, string>, networkMember: map<string, string>, cidrEntries: seq<CidrEntry>)

  /** The first `len` bits of an address. */
  function PrefixBits(a: Addr, len: nat): int
  {
    if len >= a.bits then a.value else a.value / Pow2(a.bits - len)
  }

  /** IPNet.Contains: same family and same masked bits. */
  predicate InNet(n: Net, a: Addr)
  {
    n.addr.bits == a.bits && PrefixBits(n.addr, n.len) == PrefixBits(a, n.len)
  }

  // ------------------------------------------------------------ what containment means

  /** The number of addresses in a network: 2^(bits - len). */
  function BlockSize(n: Net): nat { if n.len < n.addr.bits then Pow2(n.addr.bits - n.len) else 1 }

  /** `v` lies in the k-th block of `size` addresses. */
  predicate InBlock(k: nat, size: nat, v: nat) { k * size <= v < k * size + size }

  /** The network holds the address: both are of one family and lie in the same aligned block of 2^(bits - len)
      addresses. */
  ghost predicate Holds(n: Net, a: Addr)
  {
    n.addr.bits == a.bits && exists k: nat ::
      InBlock(k, BlockSize(n), n.addr.value) && InBlock(k, BlockSize(n), a.value)
  }

  lemma {:induction false} BlockIsQuotient(k: nat, size: nat, v: nat)
    requires size > 0
    ensures InBlock(k, size, v) <==> k == v / size
  {
    var q := v / size;
    assert v == q * size + v % size;
    if k < q {
      Below(k, q, size);
    } else if k > q {
      Below(q, k, size);
    }
  }

  lemma {:induction false} Below(k: nat, q: nat, size: nat)
    requires k < q
    ensures k * size + size <= q * size
  {
    assert q * size == k * size + (q - k) * size;
    assert (q - k) * size == size + (q - k - 1) * size;
  }

  lemma {:induction false} SharedBlock(size: nat, x: nat, y: nat)
    requires size > 0
    ensures (exists k: nat :: InBlock(k, size, x) && InBlock(k, size, y)) <==> x / size == y / size
  {
    hide InBlock;
    BlockIsQuotient(x / size, size, x);
    BlockIsQuotient(x / size, size, y);
    if k: nat :| InBlock(k, size, x) && InBlock(k, size, y) {
      BlockIsQuotient(k, size, x);
      BlockIsQuotient(k, size, y);
    }
  }

  /** Comparing masked bits is asking whether the network's block holds the address. */
  lemma {:induction false} InNetIsBlock(n: Net, a: Addr)
    ensures InNet(n, a) <==> Holds(n, a)
  {
    PrefixIsQuotient(n.addr, n.len);
    PrefixIsQuotient(a, n.len);
    hide InBlock, PrefixBits, Pow2;
    SharedBlock(BlockSize(n), n.addr.value, a.value);
  }

  lemma {:induction false} PrefixIsQuotient(a: Addr, len: nat)
    ensures PrefixBits(a, len) == a.value / BlockSize(Net(a, len)) && BlockSize(Net(a, len)) > 0
  {
  }

  /** Two networks are the same network when their masks agree and one holds the other's address. */
  ghost predicate SameNet(m: Net, n: Net)
  {
    m.len == n.len && Holds(m, n.addr)
  }

  // ------------------------------------------------------------ building the entries

  /** Position of the first `c`, or |s|. */
  function IndexOf(s: string, c: char): (i: nat)
    ensures i <= |s|
    ensures i < |s| ==> s[i] == c
  {
    if s == "" || s[0] == c then 0 else 1 + IndexOf(s[1..], c)
  }

  /** "address/cidr" of a key "address/cidr/view"; None without a slash. */
  function CidrText(key: string): Option<string>
  {
    var i := IndexOf(key, '/');
    if i == |key| then None
    else
      var rest := key[i + 1..];
      Some(key[..i] + "/" + rest[..IndexOf(rest, '/')])
  }

  lemma {:induction false} IndexOfFirst(a: string, c: char, b: string)
    requires c !in a && (b == "" || b[0] == c)
    ensures IndexOf(a + b, c) == |a|
  {
    if a == "" {
      assert a + b == b;
    } else {
      assert (a + b)[1..] == a[1..] + b;
      IndexOfFirst(a[1..], c, b);
    }
  }

  /** A key "address/cidr", with or without a view behind another slash, gives "address/cidr"; a key without a
      slash gives nothing. */
  lemma {:induction false} CidrTextOfKey(address: string, cidr: string, view: string)
    requires '/' !in address && '/' !in cidr && (view == "" || view[0] == '/')
    ensures CidrText(address + ("/" + (cidr + view))) == Some(address + "/" + cidr)
    ensures CidrText(address) == None
  {
    var key, rest := address + ("/" + (cidr + view)), cidr + view;
    IndexOfFirst(address, '/', "/" + rest);
    IndexOfFirst(address, '/', "");
    IndexOfFirst(cidr, '/', view);
    assert address + "" == address && key[..|address|] == address && key[|address| + 1..] == rest;
    assert rest[..|cidr|] == cidr;
  }

  function EntryOf(key: string, member: string, parsers: Parsers): Option<CidrEntry>
  {
    var text := CidrText(key);
    if text.None? then None
    else
      var net := parsers.cidr(text.value);
      if net.None? then None else Some(CidrEntry(net.value, member, net.value.len))
  }

  /** `entries` holds the parsable keys of the map, longest prefix first. */
  ghost predicate Lists(entries: seq<CidrEntry>, networkMember: map<string, string>, parsers: Parsers)
  {
    && (forall e | e in entries :: exists k :: k in networkMember && EntryOf(k, networkMember[k], parsers) == Some(e))
    && (forall k | k in networkMember ::
          EntryOf(k, networkMember[k], parsers).Some? ==> EntryOf(k, networkMember[k], parsers).value in entries)
    && Descending(entries)
  }

  /** Walks the map in an arbitrary order. */
  method CollectEntries(networkMember: map<string, string>, parsers: Parsers) returns (entries: seq<CidrEntry>)
    ensures forall e | e in entries :: exists k ::
            k in networkMember && EntryOf(k, networkMember[k], parsers) == Some(e)
    ensures forall k | k in networkMember ::
      EntryOf(k, networkMember[k], parsers).Some? ==> EntryOf(k, networkMember[k], parsers).value in entries
  {
    entries := [];
    var keys := networkMember.Keys;
    while keys != {}
      invariant keys <= networkMember.Keys
      invariant forall e | e in entries :: exists k ::
                k in networkMember && EntryOf(k, networkMember[k], parsers) == Some(e)
      invariant forall k | k in networkMember && k !in keys ::
        EntryOf(k, networkMember[k], parsers).Some? ==> EntryOf(k, networkMember[k], parsers).value in entries
    {
      var key :| key in keys;
      var entry := EntryOf(key, networkMember[key], parsers);
      if entry.Some? {
        entries := entries + [entry.value];
      }
      keys := keys - {key};
    }
  }

  /** sort.Slice by descending prefix length: unstable, so any longest remaining entry may come next. */
  method SortSlice(entries: seq<CidrEntry>) returns (sorted: seq<CidrEntry>)
    ensures multiset(sorted) == multiset(entries)
    ensures Descending(sorted)
  {
    sorted := [];
    var rest := entries;
    while rest != []
      invariant multiset(sorted) + multiset(rest) == multiset(entries)
      invariant Descending(sorted)
      invariant forall i, e | 0 <= i < |sorted| && e in rest :: sorted[i].prefixLen >= e.prefixLen
      decreases |rest|
    {
      LongestExists(rest);
      var k: nat :| k < |rest| && forall e | e in rest :: e.prefixLen <= rest[k].prefixLen;
      TakeOut(rest, k);
      sorted := sorted + [rest[k]];
      rest := rest[..k] + rest[k + 1..];
    }
  }

  ghost predicate Descending(entries: seq<CidrEntry>)
  {
    forall i, j | 0 <= i < j < |entries| :: entries[i].prefixLen >= entries[j].prefixLen
  }

  lemma {:induction false} TakeOut<T>(s: seq<T>, k: nat)
    requires k < |s|
    ensures multiset(s[..k] + s[k + 1..]) + multiset{s[k]} == multiset(s)
    ensures forall e | e in s[..k] + s[k + 1..] :: e in s
  {
    assert s == s[..k] + [s[k]] + s[k + 1..];
  }

  lemma {:induction false} LongestExists(rest: seq<CidrEntry>)
    requires rest != []
    ensures exists k: nat :: k < |rest| && forall e | e in rest :: e.prefixLen <= rest[k].prefixLen
  {
    var k := 0;
    for i := 0 to |rest|
      invariant k < |rest| && forall j | 0 <= j < i :: rest[j].prefixLen <= rest[k].prefixLen
    {
      if rest[i].prefixLen > rest[k].prefixLen {
        k := i;
      }
    }
  }

  method BuildCIDREntries(networkMember: map<string, string>, parsers: Parsers) returns (entries: seq<CidrEntry>)
    ensures Lists(entries, networkMember, parsers)
  {
    var found := CollectEntries(networkMember, parsers);
    entries := SortSlice(found);
    forall e
      ensures e in entries <==> e in found
    {
      assert e in multiset(entries) <==> e in multiset(found);
    }
  }

  // ------------------------------------------------------------ lookup

  /** First entry containing the address. */
  function FirstMatch(entries: seq<CidrEntry>, a: Addr): Option<CidrEntry>
  {
    if entries == [] then None
    else if InNet(entries[0].network, a) then Some(entries[0])
    else FirstMatch(entries[1..], a)
  }

  function ResolveIP(entries: seq<CidrEntry>, ip: string, parsers: Parsers): string
  {
    var parsed := if ip == "" then None else parsers.ip(ip);
    if parsed.None? then ""
    else
      var e := FirstMatch(entries, parsed.value);
      if e.Some? then e.value.member else ""
  }

  /** The owner named first among the entries whose block holds the address; empty when there is none or the text is
      no address. */
  ghost predicate Answers(entries: seq<CidrEntry>, ip: string, parsers: Parsers, member: string)
  {
    if ip == "" || parsers.ip(ip).None? then member == ""
    else
      var a := parsers.ip(ip).value;
      || (member == "" && forall e | e in entries :: !Holds(e.network, a))
      || exists i: nat :: i < |entries| && Holds(entries[i].network, a) && entries[i].member == member
                          && forall j | 0 <= j < i :: !Holds(entries[j].network, a)
  }

  lemma {:induction false} ResolvedAnswers(entries: seq<CidrEntry>, ip: string, parsers: Parsers)
    ensures Answers(entries, ip, parsers, ResolveIP(entries, ip, parsers))
  {
    if ip != "" && parsers.ip(ip).Some? {
      FirstMatchIsFirst(entries, parsers.ip(ip).value);
    }
  }

  lemma {:induction false} FirstMatchIsFirst(entries: seq<CidrEntry>, a: Addr)
    ensures FirstMatch(entries, a).None? ==> forall e | e in entries :: !Holds(e.network, a)
    ensures FirstMatch(entries, a).Some? ==>
      exists i: nat :: i < |entries| && Holds(entries[i].network, a) && entries[i] == FirstMatch(entries, a).value
                       && forall j | 0 <= j < i :: !Holds(entries[j].network, a)
  {
    if entries != [] {
      InNetIsBlock(entries[0].network, a);
      hide InNet, Holds;
      var tail := entries[1..];
      FirstMatchIsFirst(tail, a);
      assert forall e | e in entries :: e == entries[0] || e in tail;
      if InNet(entries[0].network, a) {
        assert FirstMatch(entries, a) == Some(entries[0]);
      } else if i: nat :| i < |tail| && Holds(tail[i].network, a) && tail[i] == FirstMatch(tail, a).value
                          && forall j | 0 <= j < i :: !Holds(tail[j].network, a) {
        assert entries[i + 1] == tail[i];
        assert forall j | 0 < j < i + 1 :: entries[j] == tail[j - 1];
      }
    }
  }

  method ResolveIPMember(entries: seq<CidrEntry>, ip: string, parsers: Parsers) returns (member: string)
    ensures member == ResolveIP(entries, ip, parsers)
    ensures Answers(entries, ip, parsers, member)
  {
    hide Holds;
    if ip == "" {
      return "";
    }
    var parsed := parsers.ip(ip);
    if parsed.None? {
      return "";
    }
    assert entries[0..] == entries;
    for i := 0 to |entries|
      invariant FirstMatch(entries[i..], parsed.value) == FirstMatch(entries, parsed.value)
      invariant forall j | 0 <= j < i :: !Holds(entries[j].network, parsed.value)
    {
      InNetIsBlock(entries[i].network, parsed.value);
      assert entries[i..][0] == entries[i] && entries[i..][1..] == entries[i + 1..];
      if InNet(entries[i].network, parsed.value) {
        return entries[i].member;
      }
    }
    return "";
  }

  function ResolveDNS(r: Resolver, zone: string): string
  {
    if zone != "" && zone in r.zoneMember then r.zoneMember[zone] else ""
  }

  function ResolveNetwork(r: Resolver, network: string): string
  {
    if network != "" && network in r.networkMember then r.networkMember[network] else ""
  }

  // ------------------------------------------------------------ longest prefix

  /** A key of the map, and the network it names, whose block holds the address. */
  ghost predicate Candidate(k: string, net: Net, networkMember: map<string, string>, parsers: Parsers, a: Addr)
  {
    && k in networkMember && CidrText(k).Some? && parsers.cidr(CidrText(k).value) == Some(net)
    && Holds(net, a)
  }

  lemma {:induction false} FirstMatchIsLongest(entries: seq<CidrEntry>, a: Addr)
    requires Descending(entries)
    ensures var m := FirstMatch(entries, a);
      && (m.Some? ==> m.value in entries && Holds(m.value.network, a)
                      && forall e | e in entries && Holds(e.network, a) :: e.prefixLen <= m.value.prefixLen)
      && (m.None? ==> forall e | e in entries :: !Holds(e.network, a))
  {
    if entries != [] {
      InNetIsBlock(entries[0].network, a);
      hide InNet, Holds;
      FirstMatchIsLongest(entries[1..], a);
      assert forall e | e in entries :: e == entries[0] || e in entries[1..];
    }
  }

  /** Longest match (section 5.1 of RFC 4632): the answer is the owner of a network of greatest prefix length
      whose block holds the address, and there is none exactly when no network's block does. */
  lemma {:induction false} LongestPrefixMatch(entries: seq<CidrEntry>, networkMember: map<string, string>,
                                              parsers: Parsers, a: Addr)
    requires Lists(entries, networkMember, parsers)
    ensures var m := FirstMatch(entries, a);
      && (m.None? <==> forall k, net :: !Candidate(k, net, networkMember, parsers, a))
      && (m.Some? ==> exists k, net ::
           && Candidate(k, net, networkMember, parsers, a) && networkMember[k] == m.value.member
           && forall j, other | Candidate(j, other, networkMember, parsers, a) :: other.len <= net.len)
  {
    FirstMatchIsLongest(entries, a);
    hide FirstMatch, Holds;
    var m := FirstMatch(entries, a);
    forall j, other | Candidate(j, other, networkMember, parsers, a)
      ensures m.Some? && other.len <= m.value.prefixLen
    {
      assert EntryOf(j, networkMember[j], parsers).value in entries;
    }
    if m.Some? {
      var k :| k in networkMember && EntryOf(k, networkMember[k], parsers) == Some(m.value);
      assert Candidate(k, m.value.network, networkMember, parsers, a);
    }
  }

  /** No network, after masking, is listed with two different owners. */
  ghost predicate OneOwnerEach(networkMember: map<string, string>, parsers: Parsers)
  {
    forall j, k | j in networkMember && k in networkMember ::
      var d, e := EntryOf(j, networkMember[j], parsers), EntryOf(k, networkMember[k], parsers);
      d.Some? && e.Some? && SameNet(d.value.network, e.value.network) ==> networkMember[j] == networkMember[k]
  }

  /** Neither the map's iteration order nor the instability of the sort shows in the answer. */
  lemma {:induction false} AnswerIsOrderIndependent(a: seq<CidrEntry>, b: seq<CidrEntry>,
                                                    networkMember: map<string, string>, parsers: Parsers, ip: string)
    requires Lists(a, networkMember, parsers) && Lists(b, networkMember, parsers)
    requires OneOwnerEach(networkMember, parsers)
    ensures ResolveIP(a, ip, parsers) == ResolveIP(b, ip, parsers)
  {
    if ip != "" && parsers.ip(ip).Some? {
      var addr := parsers.ip(ip).value;
      FirstMatchIsLongest(a, addr);
      FirstMatchIsLongest(b, addr);
      SameEntries(a, b, networkMember, parsers);
      var m, n := FirstMatch(a, addr), FirstMatch(b, addr);
      if m.Some? && n.Some? {
        var j :| j in networkMember && EntryOf(j, networkMember[j], parsers) == Some(m.value);
        var k :| k in networkMember && EntryOf(k, networkMember[k], parsers) == Some(n.value);
        HoldSame(m.value.network, n.value.network, addr);
      }
    }
  }

  /** Networks of one length that hold the same address are one network. */
  lemma {:induction false} HoldSame(m: Net, n: Net, a: Addr)
    requires Holds(m, a) && Holds(n, a) && m.len == n.len
    ensures SameNet(m, n)
  {
    InNetIsBlock(m, a);
    InNetIsBlock(n, a);
    InNetIsBlock(m, n.addr);
    hide Holds;
  }

  lemma {:induction false} SameEntries(a: seq<CidrEntry>, b: seq<CidrEntry>, networkMember: map<string, string>,
                                       parsers: Parsers)
    requires Lists(a, networkMember, parsers) && Lists(b, networkMember, parsers)
    ensures forall e :: e in a <==> e in b
  {
  }
}
