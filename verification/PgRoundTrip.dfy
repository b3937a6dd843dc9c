/** Printing an archive header and table of contents and reading it back. Printers take the bytes
    that follow, so every statement holds for any suffix. */
module PgRoundTrip {
  import opened Base
  import opened MachineInt
  import opened PgDump

  // ------------------------------------------------------------ integers

  function Magnitude(v: int): nat { if v < 0 then -v else v }

  /** What a sign byte and `size` value bytes can hold of a 64-bit number. */
  predicate Fits(v: int, size: nat)
  {
    Magnitude(v) < Pow256(size) && Magnitude(v) < TWO63
  }

  function Digits(v: nat, size: nat): (b: Bytes)
    ensures |b| == size
  {
    if size == 0 then [] else [v % 256] + Digits(v / 256, size - 1)
  }

  lemma {:induction false} DigitsBack(v: nat, size: nat, m: nat)
    requires m <= size && v < Pow256(m)
    ensures LittleEndian(Digits(v, size)[..m]) == v
  {
    if m > 0 {
      assert Digits(v, size)[..m] == [v % 256] + Digits(v / 256, size - 1)[..m - 1];
      assert v == 256 * (v / 256) + v % 256;
      DigitsBack(v / 256, size - 1, m - 1);
    }
  }

  lemma {:induction false} Pow256Of8()
    ensures Pow256(8) == TWO64
  {
    assert Pow256(4) == 0x1_0000_0000;
    assert Pow256(6) == 0x1_0000_0000_0000;
  }

  lemma {:induction false} Value64Back(v: nat, size: nat)
    requires Fits(v, size)
    ensures Value64(Digits(v, size)) == v
  {
    if size <= 8 {
      DigitsBack(v, size, size);
      assert Digits(v, size)[..size] == Digits(v, size);
    } else {
      Pow256Of8();
      DigitsBack(v, size, 8);
    }
  }

  function PrintInt(v: int, size: nat, k: Bytes): Bytes
  {
    [if v < 0 then 1 else 0] + (Digits(Magnitude(v), size) + k)
  }

  lemma {:induction false} TakeExactly(b: Bytes, k: Bytes, field: string)
    ensures Take(b + k, |b|, field) == Parsed(b, k)
  {
  }

  lemma {:induction false} IntBack(v: int, size: nat, k: Bytes, field: string)
    requires Fits(v, size)
    ensures IntAt(PrintInt(v, size, k), size, field) == Parsed(v, k)
  {
    var sign: Bytes, digits := [if v < 0 then 1 else 0], Digits(Magnitude(v), size);
    TakeExactly(sign, digits + k, field);
    TakeExactly(digits, k, field);
    Value64Back(Magnitude(v), size);
  }

  lemma {:induction false} IntIfBack(present: bool, v: int, size: nat, k: Bytes, field: string)
    requires present ==> Fits(v, size)
    ensures IntIf(present, PrintIntIf(present, v, size, k), size, field) == Parsed(if present then v else 0, k)
  {
    if present {
      IntBack(v, size, k, field);
    }
  }

  function PrintIntIf(present: bool, v: int, size: nat, k: Bytes): Bytes { if present then PrintInt(v, size, k) else k }

  // ------------------------------------------------------------ strings

  /** A C string pointer: None is NULL, written with length -1. */
  type Str = Option<Bytes>

  predicate StrFits(s: Str, size: nat) { if s.None? then size > 0 else Fits(|s.value|, size) }

  function Kept(s: Str): Bytes { if s.None? then [] else s.value }

  function PrintStr(s: Str, size: nat, k: Bytes): Bytes
  {
    if s.None? then PrintInt(-1, size, k) else PrintInt(|s.value|, size, s.value + k)
  }

  lemma {:induction false} StrBack(s: Str, size: nat, k: Bytes, field: string)
    requires StrFits(s, size)
    ensures StrAt(PrintStr(s, size, k), size, field) == Parsed(Kept(s), k)
  {
    if s.None? {
      IntBack(-1, size, k, field);
    } else {
      IntBack(|s.value|, size, s.value + k, field);
      TakeExactly(s.value, k, field);
    }
  }

  function PrintStrIf(present: bool, s: Str, size: nat, k: Bytes): Bytes { if present then PrintStr(s, size, k) else k }

  lemma {:induction false} StrIfBack(present: bool, s: Str, size: nat, k: Bytes, field: string)
    requires present ==> StrFits(s, size)
    ensures StrIf(present, PrintStrIf(present, s, size, k), size, field) == Parsed(if present then Kept(s) else [], k)
  {
    if present {
      StrBack(s, size, k, field);
    }
  }

  // ------------------------------------------------------------ offsets

  datatype RawOffset = NotSet | NoData | Set(val: nat)

  predicate OffsetFits(o: RawOffset, size: nat) { o.Set? ==> Fits(o.val, size) }

  function KeptOffset(present: bool, o: RawOffset): Offset
  {
    if present && o.Set? then Offset(o.val, true) else Offset(0, false)
  }

  function PrintOffset(present: bool, o: RawOffset, size: nat, k: Bytes): Bytes
  {
    if !present then k
    else match o
      case NotSet => [1] + k
      case NoData => [2] + k
      case Set(v) => [4] + (Digits(v, size) + k)
  }

  lemma {:induction false} OffsetBack(present: bool, o: RawOffset, size: nat, k: Bytes, field: string)
    requires present ==> OffsetFits(o, size)
    ensures OffsetIf(present, PrintOffset(present, o, size, k), size, field) == Parsed(KeptOffset(present, o), k)
  {
    TakeExactly([OFFSET_POS_NOT_SET], k, field);
    TakeExactly([OFFSET_NO_DATA], k, field);
    if present && o.Set? {
      TakeExactly([OFFSET_POS_SET], Digits(o.val, size) + k, field);
      TakeExactly(Digits(o.val, size), k, field);
      Value64Back(o.val, size);
    }
  }

  // ------------------------------------------------------------ one entry

  /** All fields of an entry, in file order; those a version does not have are not printed. */
  datatype RawHead = RawHead(dumpID: int, hadDumper: int, tableoid: Str, oid: Str, tag: Str, desc: Str)
  datatype RawMiddle = RawMiddle(section: int, defn: Str, dropStmt: Str, filename: Str, copyStmt: Str, namespace: Str)
  datatype RawOwner = RawOwner(tablespace: Str, tableam: Str, relkind: Str, owner: Str, withOids: Str)
  datatype RawEntry = RawEntry(head: RawHead, middle: RawMiddle, owner: RawOwner, deps: seq<Bytes>,
                               dataLength: RawOffset, dataPos: RawOffset)

  predicate HeadFits(h: RawHead, l: Layout)
  {
    && Fits(h.dumpID, l.intSize) && Fits(h.hadDumper, l.intSize)
    && (l.ver >= PgDumpVer(1, 3, 0) ==> StrFits(h.tableoid, l.intSize))
    && StrFits(h.oid, l.intSize) && StrFits(h.tag, l.intSize) && StrFits(h.desc, l.intSize)
  }

  function PrintHead(h: RawHead, l: Layout, k: Bytes): Bytes
  {
    var n := l.intSize;
    PrintInt(h.dumpID, n, PrintInt(h.hadDumper, n, PrintStrIf(l.ver >= PgDumpVer(1, 3, 0), h.tableoid, n,
      PrintStr(h.oid, n, PrintStr(h.tag, n, PrintStr(h.desc, n, k))))))
  }

  lemma {:induction false} HeadBack(h: RawHead, l: Layout, k: Bytes)
    requires HeadFits(h, l)
    ensures HeadAt(PrintHead(h, l, k), l) == Parsed(Head(Wrap32(h.dumpID), Kept(h.tag), Kept(h.desc)), k)
  {
    hide PrintInt, PrintStr, PrintStrIf, IntAt, StrAt, StrIf, Fits, StrFits, Wrap32;
    var n := l.intSize;
    var k5 := PrintStr(h.desc, n, k);
    var k4 := PrintStr(h.tag, n, k5);
    var k3 := PrintStr(h.oid, n, k4);
    var k2 := PrintStrIf(l.ver >= PgDumpVer(1, 3, 0), h.tableoid, n, k3);
    var k1 := PrintInt(h.hadDumper, n, k2);
    IntBack(h.dumpID, n, k1, "dumpID");
    IntBack(h.hadDumper, n, k2, "hadDumper");
    StrIfBack(l.ver >= PgDumpVer(1, 3, 0), h.tableoid, n, k3, "tableoid");
    StrBack(h.oid, n, k4, "oid");
    StrBack(h.tag, n, k5, "tag");
    StrBack(h.desc, n, k, "desc");
  }

  predicate MiddleFits(m: RawMiddle, l: Layout)
  {
    && (l.ver >= PgDumpVer(1, 11, 0) ==> Fits(m.section, l.intSize))
    && StrFits(m.defn, l.intSize) && StrFits(m.dropStmt, l.intSize)
    && (l.ver < PgDumpVer(1, 3, 0) ==> StrFits(m.filename, l.intSize))
    && StrFits(m.copyStmt, l.intSize) && StrFits(m.namespace, l.intSize)
  }

  function PrintMiddle(m: RawMiddle, l: Layout, k: Bytes): Bytes
  {
    var n := l.intSize;
    PrintIntIf(l.ver >= PgDumpVer(1, 11, 0), m.section, n, PrintStr(m.defn, n, PrintStr(m.dropStmt, n,
      PrintStrIf(l.ver < PgDumpVer(1, 3, 0), m.filename, n, PrintStr(m.copyStmt, n, PrintStr(m.namespace, n, k))))))
  }

  function KeptSection(m: RawMiddle, l: Layout): int { if l.ver >= PgDumpVer(1, 11, 0) then Wrap32(m.section) else 0 }

  lemma {:induction false} MiddleBack(m: RawMiddle, l: Layout, k: Bytes)
    requires MiddleFits(m, l)
    ensures MiddleAt(PrintMiddle(m, l, k), l) == Parsed(Middle(KeptSection(m, l), Kept(m.copyStmt)), k)
  {
    assert Wrap32(0) == 0;
    hide PrintInt, PrintStr, PrintStrIf, PrintIntIf, IntAt, StrAt, StrIf, IntIf, Fits, StrFits, Wrap32;
    var n := l.intSize;
    var k5 := PrintStr(m.namespace, n, k);
    var k4 := PrintStr(m.copyStmt, n, k5);
    var k3 := PrintStrIf(l.ver < PgDumpVer(1, 3, 0), m.filename, n, k4);
    var k2 := PrintStr(m.dropStmt, n, k3);
    var k1 := PrintStr(m.defn, n, k2);
    IntIfBack(l.ver >= PgDumpVer(1, 11, 0), m.section, n, k1, "section");
    StrBack(m.defn, n, k2, "defn");
    StrBack(m.dropStmt, n, k3, "dropStmt");
    StrIfBack(l.ver < PgDumpVer(1, 3, 0), m.filename, n, k4, "filename");
    StrBack(m.copyStmt, n, k5, "copyStmt");
    StrBack(m.namespace, n, k, "namespace");
  }

  predicate OwnerFits(o: RawOwner, l: Layout)
  {
    && (l.ver >= PgDumpVer(1, 10, 0) ==> StrFits(o.tablespace, l.intSize))
    && (l.ver >= PgDumpVer(1, 14, 0) ==> StrFits(o.tableam, l.intSize))
    && (l.ver >= PgDumpVer(1, 16, 0) ==> StrFits(o.relkind, l.intSize))
    && StrFits(o.owner, l.intSize)
    && (l.ver < PgDumpVer(1, 9, 0) ==> StrFits(o.withOids, l.intSize))
  }

  function PrintOwner(o: RawOwner, l: Layout, k: Bytes): Bytes
  {
    var n := l.intSize;
    PrintStrIf(l.ver >= PgDumpVer(1, 10, 0), o.tablespace, n, PrintStrIf(l.ver >= PgDumpVer(1, 14, 0), o.tableam, n,
      PrintStrIf(l.ver >= PgDumpVer(1, 16, 0), o.relkind, n, PrintStr(o.owner, n,
      PrintStrIf(l.ver < PgDumpVer(1, 9, 0), o.withOids, n, k)))))
  }

  lemma {:induction false} OwnerBack(o: RawOwner, l: Layout, k: Bytes)
    requires OwnerFits(o, l)
    ensures OwnerAt(PrintOwner(o, l, k), l) == Parsed((), k)
  {
    hide PrintStr, PrintStrIf, StrAt, StrIf, StrFits;
    var n := l.intSize;
    var k4 := PrintStrIf(l.ver < PgDumpVer(1, 9, 0), o.withOids, n, k);
    var k3 := PrintStr(o.owner, n, k4);
    var k2 := PrintStrIf(l.ver >= PgDumpVer(1, 16, 0), o.relkind, n, k3);
    var k1 := PrintStrIf(l.ver >= PgDumpVer(1, 14, 0), o.tableam, n, k2);
    StrIfBack(l.ver >= PgDumpVer(1, 10, 0), o.tablespace, n, k1, "tablespace");
    StrIfBack(l.ver >= PgDumpVer(1, 14, 0), o.tableam, n, k2, "tableam");
    StrIfBack(l.ver >= PgDumpVer(1, 16, 0), o.relkind, n, k3, "relkind");
    StrBack(o.owner, n, k4, "owner");
    StrIfBack(l.ver < PgDumpVer(1, 9, 0), o.withOids, n, k, "withOids");
  }

  function PrintDeps(deps: seq<Bytes>, size: nat, k: Bytes): Bytes
  {
    if deps == [] then PrintStr(None, size, k) else PrintStr(Some(deps[0]), size, PrintDeps(deps[1..], size, k))
  }

  /** Dependencies are not empty, as an empty one ends the list. */
  predicate DepsFit(deps: seq<Bytes>, size: nat)
  {
    size > 0 && forall d | d in deps :: d != [] && Fits(|d|, size)
  }

  lemma {:induction false} DepsBack(deps: seq<Bytes>, size: nat, k: Bytes)
    requires DepsFit(deps, size)
    ensures DepsAt(PrintDeps(deps, size, k), size) == Parsed((), k)
  {
    if deps == [] {
      StrBack(None, size, k, "dep");
    } else {
      StrBack(Some(deps[0]), size, PrintDeps(deps[1..], size, k), "dep");
      DepsBack(deps[1..], size, k);
    }
  }

  predicate DataFits(e: RawEntry, l: Layout)
  {
    && (l.ver >= PgDumpVer(1, 8, 0) ==> OffsetFits(e.dataLength, l.offSize))
    && (l.ver >= PgDumpVer(1, 1, 0) ==> OffsetFits(e.dataPos, l.offSize))
  }

  function PrintData(e: RawEntry, l: Layout, k: Bytes): Bytes
  {
    PrintOffset(l.ver >= PgDumpVer(1, 8, 0), e.dataLength, l.offSize,
      PrintOffset(l.ver >= PgDumpVer(1, 1, 0), e.dataPos, l.offSize, k))
  }

  lemma {:induction false} DataBack(e: RawEntry, l: Layout, k: Bytes)
    requires DataFits(e, l)
    ensures DataAt(PrintData(e, l, k), l) == Parsed(KeptOffset(l.ver >= PgDumpVer(1, 1, 0), e.dataPos), k)
  {
    hide PrintOffset, OffsetIf, OffsetFits;
    OffsetBack(l.ver >= PgDumpVer(1, 8, 0), e.dataLength, l.offSize,
               PrintOffset(l.ver >= PgDumpVer(1, 1, 0), e.dataPos, l.offSize, k), "dataLength");
    OffsetBack(l.ver >= PgDumpVer(1, 1, 0), e.dataPos, l.offSize, k, "dataPos");
  }

  predicate EntryFits(e: RawEntry, l: Layout)
  {
    HeadFits(e.head, l) && MiddleFits(e.middle, l) && OwnerFits(e.owner, l) && DepsFit(e.deps, l.intSize)
      && DataFits(e, l)
  }

  function PrintEntry(e: RawEntry, l: Layout, k: Bytes): Bytes
  {
    PrintHead(e.head, l, PrintMiddle(e.middle, l,
                                     PrintOwner(e.owner, l, PrintDeps(e.deps, l.intSize, PrintData(e, l, k)))))
  }

  /** What the reader keeps of an entry: numbers as 32-bit, NULL strings as empty ones. */
  function KeptEntry(e: RawEntry, l: Layout, comprAlgo: int): TocEntry
  {
    TocEntry(Wrap32(e.head.dumpID), Kept(e.head.tag), Kept(e.head.desc), KeptSection(e.middle, l),
             Kept(e.middle.copyStmt),
             KeptOffset(l.ver >= PgDumpVer(1, 1, 0), e.dataPos), comprAlgo)
  }

  lemma {:induction false} EntryBack(e: RawEntry, l: Layout, comprAlgo: int, k: Bytes)
    requires EntryFits(e, l)
    ensures EntryAt(PrintEntry(e, l, k), l, comprAlgo) == Parsed(KeptEntry(e, l, comprAlgo), k)
  {
    hide HeadAt, MiddleAt, OwnerAt, DepsAt, DataAt, PrintHead, PrintMiddle, PrintOwner, PrintDeps, PrintData;
    hide HeadFits, MiddleFits, OwnerFits, DepsFit, DataFits, Wrap32;
    var k4 := PrintData(e, l, k);
    var k3 := PrintDeps(e.deps, l.intSize, k4);
    var k2 := PrintOwner(e.owner, l, k3);
    HeadBack(e.head, l, PrintMiddle(e.middle, l, k2));
    MiddleBack(e.middle, l, k2);
    OwnerBack(e.owner, l, k3);
    DepsBack(e.deps, l.intSize, k4);
    DataBack(e, l, k);
  }

  // ------------------------------------------------------------ lists

  function PrintAll<R>(print_: (R, Bytes) -> Bytes, items: seq<R>, k: Bytes): Bytes
  {
    if items == [] then k else print_(items[0], PrintAll(print_, items[1..], k))
  }

  function KeepAll<R, T>(keep: R -> T, items: seq<R>): seq<T>
  {
    if items == [] then [] else [keep(items[0])] + KeepAll(keep, items[1..])
  }

  lemma {:induction false} RepeatBack<R(!new), T(!new)>(item: Bytes -> Parse<T>, print_: (R, Bytes) -> Bytes,
                                        keep: R -> T,
                                                        items: seq<R>, k: Bytes, read: seq<T>)
    requires forall r, after | r in items :: item(print_(r, after)) == Parsed(keep(r), after)
    ensures Repeat(item, PrintAll(print_, items, k), |items|, read) == Parsed(read + KeepAll(keep, items), k)
  {
    if items != [] {
      RepeatBack(item, print_, keep, items[1..], k, read + [keep(items[0])]);
      assert read + [keep(items[0])] + KeepAll(keep, items[1..]) == read + KeepAll(keep, items);
    } else {
      assert read + [] == read;
    }
  }

  function EntryPrinter(l: Layout): (RawEntry, Bytes) -> Bytes { (e, k) => PrintEntry(e, l, k) }

  function EntryKeeper(l: Layout, comprAlgo: int): RawEntry -> TocEntry { e => KeptEntry(e, l, comprAlgo) }

  lemma {:induction false} TocBack(toc: seq<RawEntry>, l: Layout, comprAlgo: int, k: Bytes)
    requires Fits(|toc|, l.intSize) && forall e | e in toc :: EntryFits(e, l)
    ensures TocAt(PrintInt(|toc|, l.intSize, PrintAll(EntryPrinter(l), toc, k)), l, comprAlgo)
            == Parsed(KeepAll(EntryKeeper(l, comprAlgo), toc), k)
  {
    hide EntryFits, EntryAt, PrintEntry, KeptEntry, Repeat, PrintAll, KeepAll, PrintInt, IntAt, Fits;
    IntBack(|toc|, l.intSize, PrintAll(EntryPrinter(l), toc, k), "tocCount");
    forall e, after | e in toc
      ensures EntryParser(l, comprAlgo)(EntryPrinter(l)(e, after)) == Parsed(EntryKeeper(l, comprAlgo)(e), after)
    {
      EntryBack(e, l, comprAlgo, after);
    }
    RepeatBack(EntryParser(l, comprAlgo), EntryPrinter(l), EntryKeeper(l, comprAlgo), toc, k, []);
    assert [] + KeepAll(EntryKeeper(l, comprAlgo), toc) == KeepAll(EntryKeeper(l, comprAlgo), toc);
  }

  // ------------------------------------------------------------ the whole table of contents

  datatype Tablespace = Tablespace(name: Str, location: Str)

  datatype RawDoc = RawDoc(header: Header, compression: int, crtm: int, dbname: Str, remoteVersion: Str,
                           pgdumpVersion: Str,
                           tablespaces: seq<Tablespace>, toc: seq<RawEntry>)

  function PrintTablespace(t: Tablespace, size: nat, k: Bytes): Bytes
  {
    PrintStr(t.name, size, PrintStr(t.location, size, k))
  }

  function TablespacePrinter(size: nat): (Tablespace, Bytes) -> Bytes { (t, k) => PrintTablespace(t, size, k) }

  function PrintTablespaces(ts: seq<Tablespace>, l: Layout, k: Bytes): Bytes
  {
    if l.ver >= PgDumpVer(1, 10, 0)
    then PrintInt(|ts|, l.intSize, PrintAll(TablespacePrinter(l.intSize), ts, k)) else k
  }

  predicate TablespacesFit(ts: seq<Tablespace>, l: Layout)
  {
    l.ver >= PgDumpVer(1, 10, 0) ==>
      Fits(|ts|, l.intSize) && forall t | t in ts :: StrFits(t.name, l.intSize) && StrFits(t.location, l.intSize)
  }

  function TablespaceCount(ts: seq<Tablespace>, l: Layout): int { if l.ver >= PgDumpVer(1, 10, 0) then |ts| else 0 }

  function Forget<R>(): R -> () { _ => () }

  lemma {:induction false} TablespaceBack(t: Tablespace, size: nat, k: Bytes)
    requires StrFits(t.name, size) && StrFits(t.location, size)
    ensures TablespaceAt(PrintTablespace(t, size, k), size) == Parsed((), k)
  {
    StrBack(t.name, size, PrintStr(t.location, size, k), "tablespace name");
    StrBack(t.location, size, k, "tablespace location");
  }

  /** The count read is the number printed, and reading that many leaves what follows. */
  lemma {:induction false} TablespacesBack(ts: seq<Tablespace>, l: Layout, k: Bytes)
    requires TablespacesFit(ts, l)
    ensures exists s :: IntIf(l.ver >= PgDumpVer(1, 10, 0), PrintTablespaces(ts, l, k), l.intSize, "tablespace count")
                        == Parsed(TablespaceCount(ts, l), s)
                        && Repeat(TablespaceParser(l.intSize), s, TablespaceCount(ts, l), []).Parsed?
                        && Repeat(TablespaceParser(l.intSize), s, TablespaceCount(ts, l), []).rest == k
  {
    var present, n := l.ver >= PgDumpVer(1, 10, 0), l.intSize;
    var s := if present then PrintAll(TablespacePrinter(n), ts, k) else k;
    IntIfBack(present, |ts|, n, s, "tablespace count");
    if present {
      forall t, after | t in ts
        ensures TablespaceParser(n)(TablespacePrinter(n)(t, after)) == Parsed(Forget<Tablespace>()(t), after)
      {
        TablespaceBack(t, n, after);
      }
      RepeatBack(TablespaceParser(n), TablespacePrinter(n), Forget<Tablespace>(), ts, k, []);
    }
    assert IntIf(present, PrintTablespaces(ts, l, k), n, "tablespace count") == Parsed(TablespaceCount(ts, l), s);
  }

  predicate PreambleFits(a: RawDoc, l: Layout)
  {
    Fits(a.crtm, l.intSize) && StrFits(a.dbname, l.intSize) && StrFits(a.remoteVersion, l.intSize)
    && StrFits(a.pgdumpVersion, l.intSize) && TablespacesFit(a.tablespaces, l)
  }

  function PrintPreamble(a: RawDoc, l: Layout, k: Bytes): Bytes
  {
    var n := l.intSize;
    PrintInt(a.crtm, n, PrintStr(a.dbname, n, PrintStr(a.remoteVersion, n, PrintStr(a.pgdumpVersion, n,
      PrintTablespaces(a.tablespaces, l, k)))))
  }

  lemma {:induction false} PreambleBack(a: RawDoc, l: Layout, k: Bytes)
    requires PreambleFits(a, l)
    ensures PreambleAt(PrintPreamble(a, l, k), l) == Parsed((), k)
  {
    hide PrintInt, PrintStr, IntAt, StrAt, Fits, StrFits, IntIf, Repeat, PrintTablespaces, TablespacesFit;
    var n := l.intSize;
    var k4 := PrintTablespaces(a.tablespaces, l, k);
    var k3 := PrintStr(a.pgdumpVersion, n, k4);
    var k2 := PrintStr(a.remoteVersion, n, k3);
    IntBack(a.crtm, n, PrintStr(a.dbname, n, k2), "crtm");
    StrBack(a.dbname, n, k2, "dbname");
    StrBack(a.remoteVersion, n, k3, "remoteVersion");
    StrBack(a.pgdumpVersion, n, k4, "pgdumpVersion");
    TablespacesBack(a.tablespaces, l, k);
  }

  /** From version 1.15 on an algorithm, from 1.2 on a level, before that nothing. */
  function PrintCompression(v: int, l: Layout, k: Bytes): Bytes
  {
    PrintIntIf(l.ver >= PgDumpVer(1, 2, 0), v, l.intSize, k)
  }

  function KeptAlgo(v: int, l: Layout): int { if l.ver >= PgDumpVer(1, 15, 0) then Wrap32(v) else 0 }

  lemma {:induction false} CompressionBack(v: int, l: Layout, k: Bytes)
    requires l.ver >= PgDumpVer(1, 2, 0) ==> Fits(v, l.intSize)
    ensures ComprAt(PrintCompression(v, l, k), l) == Parsed(KeptAlgo(v, l), k)
  {
    if l.ver >= PgDumpVer(1, 15, 0) {
      IntBack(v, l.intSize, k, "compressionAlgo");
    } else {
      IntIfBack(l.ver >= PgDumpVer(1, 2, 0), v, l.intSize, k, "compressionLevel");
    }
  }

  function HeaderBytes(h: Header): Bytes
  {
    [h.version.maj, h.version.min, h.version.rev, h.intSize, h.offSize, h.format]
  }

  lemma {:induction false} HeaderBack(h: Header, k: Bytes)
    ensures HeaderAt(MAGIC + (HeaderBytes(h) + k)) == Parsed(h, k)
  {
    TakeExactly(MAGIC, HeaderBytes(h) + k, "magic");
    TakeExactly(HeaderBytes(h), k, "header bytes");
  }

  predicate DocFits(a: RawDoc)
  {
    var l := LayoutOf(a.header);
    && (l.ver >= PgDumpVer(1, 2, 0) ==> Fits(a.compression, l.intSize))
    && PreambleFits(a, l) && Fits(|a.toc|, l.intSize) && forall e | e in a.toc :: EntryFits(e, l)
  }

  function PrintDoc(a: RawDoc, k: Bytes): Bytes
  {
    var l := LayoutOf(a.header);
    [80, 71, 68, 77, 80] + (HeaderBytes(a.header) + PrintCompression(a.compression, l, PrintPreamble(a, l,
      PrintInt(|a.toc|, l.intSize, PrintAll(EntryPrinter(l), a.toc, k)))))
  }

  function KeptDoc(a: RawDoc): Doc
  {
    var l := LayoutOf(a.header);
    Doc(a.header, KeptAlgo(a.compression, l), KeepAll(EntryKeeper(l, KeptAlgo(a.compression, l)), a.toc))
  }

  /** For every version triple and every pair of word sizes, reading a printed archive gives the
      fields it keeps and stops exactly at the end of the table of contents. */
  lemma {:induction false} RoundTrip(a: RawDoc, k: Bytes)
    requires DocFits(a)
    ensures DocAt(PrintDoc(a, k)) == Parsed(KeptDoc(a), k)
  {
    hide HeaderAt, ComprAt, PreambleAt, TocAt, PrintCompression, PrintPreamble, PrintInt, PrintAll, KeepAll, EntryFits,
      Fits, PreambleFits;
    var l := LayoutOf(a.header);
    var k2 := PrintInt(|a.toc|, l.intSize, PrintAll(EntryPrinter(l), a.toc, k));
    var k1 := PrintPreamble(a, l, k2);
    HeaderBack(a.header, PrintCompression(a.compression, l, k1));
    CompressionBack(a.compression, l, k1);
    PreambleBack(a, l, k2);
    TocBack(a.toc, l, KeptAlgo(a.compression, l), k);
  }

  // ------------------------------------------------------------ ordinary archives fit

  predicate Short(s: Str) { s.None? || |s.value| < 0x1_0000_0000 }

  lemma {:induction false} FourBytesFit(v: int, size: nat)
    requires size >= 4 && -0x1_0000_0000 < v < 0x1_0000_0000
    ensures Fits(v, size)
  {
    Pow256Grows(4, size);
    assert Pow256(2) == 0x1_0000 && Pow256(4) == 0x1_0000_0000;
  }

  lemma {:induction false} Pow256Grows(a: nat, b: nat)
    requires a <= b
    ensures Pow256(a) <= Pow256(b)
  {
    if a < b {
      Pow256Grows(a, b - 1);
    }
  }

  lemma {:induction false} ShortFits(s: Str, size: nat)
    requires size >= 4 && Short(s)
    ensures StrFits(s, size)
  {
    if s.Some? {
      FourBytesFit(|s.value|, size);
    }
  }

  /** With words of four bytes or more every entry fits whose numbers and lengths are below 2^32. */
  lemma {:induction false} OrdinaryEntryFits(e: RawEntry, l: Layout)
    requires l.intSize >= 4 && l.offSize >= 4
    requires 0 <= e.head.dumpID < 0x1_0000_0000 && 0 <= e.head.hadDumper < 0x1_0000_0000
    requires 0 <= e.middle.section < 0x1_0000_0000
    requires Short(e.head.tableoid) && Short(e.head.oid) && Short(e.head.tag) && Short(e.head.desc)
    requires Short(e.middle.defn) && Short(e.middle.dropStmt) && Short(e.middle.filename) && Short(e.middle.copyStmt)
    requires Short(e.middle.namespace) && Short(e.owner.tablespace) && Short(e.owner.tableam)
    requires Short(e.owner.relkind) && Short(e.owner.owner) && Short(e.owner.withOids)
    requires forall d | d in e.deps :: d != [] && Short(Some(d))
    requires e.dataLength.Set? ==> e.dataLength.val < 0x1_0000_0000
    requires e.dataPos.Set? ==> e.dataPos.val < 0x1_0000_0000
    ensures EntryFits(e, l)
  {
    forall v, size: nat | size >= 4 && -0x1_0000_0000 < v < 0x1_0000_0000
      ensures Fits(v, size)
    {
      FourBytesFit(v, size);
    }
    forall s, size: nat | size >= 4 && Short(s)
      ensures StrFits(s, size)
    {
      ShortFits(s, size);
    }
    hide Fits, StrFits;
    forall d | d in e.deps
      ensures d != [] && Fits(|d|, l.intSize)
    {
      assert Short(Some(d));
    }
  }
}
