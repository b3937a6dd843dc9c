/** internal/scanner/efficientip/backup.go: the pg_dump custom-format archive reader. The functions
    describe a parse of a byte string; the methods of Stream are the program. */
module PgDump {
  import opened MachineInt

  type Byte = b: int | 0 <= b < 256
  type Bytes = seq<Byte>

  const MAGIC: Bytes := [80, 71, 68, 77, 80] // PGDMP

  const OFFSET_POS_NOT_SET: Byte := 1
  const OFFSET_NO_DATA: Byte := 2
  const OFFSET_POS_SET: Byte := 4

  /** The error names the field that could not be read. */
  datatype Result<+T> = Ok(value: T) | Err(field: string) {
    predicate IsFailure() { Err? }
    function PropagateFailure<U>(): Result<U> requires Err? { Err(field) }
    function Extract(): T requires Ok? { value }
  }

  /** A parse: the value and what follows it, or the field that failed. */
  datatype Parse<+T> = Parsed(value: T, rest: Bytes) | Failed(field: string) {
    predicate IsFailure() { Failed? }
    function PropagateFailure<U>(): Parse<U> requires Failed? { Failed(field) }
    function Extract(): (T, Bytes) requires Parsed? { (value, rest) }
  }

  // ------------------------------------------------------------ little-endian numbers

  function Pow256(n: nat): (r: nat)
    ensures r > 0
  {
    if n == 0 then 1 else 256 * Pow256(n - 1)
  }

  function LittleEndian(b: Bytes): nat
  {
    if b == [] then 0 else b[0] + 256 * LittleEndian(b[1..])
  }

  lemma {:induction false} LittleEndianSnoc(b: Bytes, x: Byte)
    ensures LittleEndian(b + [x]) == LittleEndian(b) + x * Pow256(|b|)
  {
    if b == [] {
      assert [x][1..] == [];
    } else {
      assert (b + [x])[1..] == b[1..] + [x];
      LittleEndianSnoc(b[1..], x);
    }
  }

  /** int64(b) << (8 * i): from 64 bits on nothing is left. */
  function Shl64(b: Byte, i: nat): int
  {
    if i < 8 then Wrap64(b * Pow256(i)) else 0
  }

  /** The low eight bytes, read as a signed 64-bit number. */
  function Value64(b: Bytes): int
  {
    Wrap64(LittleEndian(if |b| <= 8 then b else b[..8]))
  }

  lemma {:induction false} Value64Snoc(b: Bytes, x: Byte)
    ensures Value64(b + [x]) == Wrap64(Value64(b) + Shl64(x, |b|))
  {
    if |b| < 8 {
      LittleEndianSnoc(b, x);
      WrapSum(LittleEndian(b), x * Pow256(|b|));
    } else {
      assert (b + [x])[..8] == b[..8];
    }
  }

  // ------------------------------------------------------------ the format

  function Take(s: Bytes, n: nat, field: string): (p: Parse<Bytes>)
    ensures p.Parsed? ==> |p.value| == n && s == p.value + p.rest
  {
    if n <= |s| then Parsed(s[..n], s[n..]) else Failed(field)
  }

  function SignedValue(sign: Byte, buf: Bytes): int
  {
    if sign != 0 then Wrap64(-Value64(buf)) else Value64(buf)
  }

  function IntAt(s: Bytes, intSize: nat, field: string): (p: Parse<int>)
    ensures p.Parsed? ==> |p.rest| < |s|
  {
    var (sign, s1) :- Take(s, 1, field);
    var (buf, s2) :- Take(s1, intSize, field);
    Parsed(SignedValue(sign[0], buf), s2)
  }

  /** NULL and the empty string both read as the empty string. */
  function StrAt(s: Bytes, intSize: nat, field: string): (p: Parse<Bytes>)
    ensures p.Parsed? ==> |p.rest| < |s|
  {
    var (l, s1) :- IntAt(s, intSize, field);
    if l <= 0 then Parsed([], s1) else Take(s1, l, field)
  }

  /** A string that is there only in some versions. */
  function StrIf(present: bool, s: Bytes, intSize: nat, field: string): (p: Parse<Bytes>)
  {
    if present then StrAt(s, intSize, field) else Parsed([], s)
  }

  function IntIf(present: bool, s: Bytes, intSize: nat, field: string): (p: Parse<int>)
  {
    if present then IntAt(s, intSize, field) else Parsed(0, s)
  }

  datatype Offset = Offset(val: int, set_: bool)

  function OffsetAt(s: Bytes, offSize: nat, field: string): (p: Parse<Offset>)
  {
    var (flag, s1) :- Take(s, 1, field);
    if flag[0] == OFFSET_POS_NOT_SET || flag[0] == OFFSET_NO_DATA then Parsed(Offset(0, false), s1)
    else if flag[0] == OFFSET_POS_SET then
      var (buf, s2) :- Take(s1, offSize, field);
      Parsed(Offset(Value64(buf), true), s2)
    else Failed(field)
  }

  function OffsetIf(present: bool, s: Bytes, offSize: nat, field: string): (p: Parse<Offset>)
  {
    if present then OffsetAt(s, offSize, field) else Parsed(Offset(0, false), s)
  }

  function PgDumpVer(maj: int, min: int, rev: int): int
  {
    (maj * 256 + min) * 256 + rev
  }

  datatype Version = Version(maj: Byte, min: Byte, rev: Byte)

  /** Lexicographic order of version triples. */
  predicate AtLeast(v: Version, w: Version)
  {
    v.maj > w.maj || (v.maj == w.maj && (v.min > w.min || (v.min == w.min && v.rev >= w.rev)))
  }

  /** Comparing packed versions is comparing the triples. */
  lemma {:induction false} PackedOrderIsLexicographic(v: Version, w: Version)
    ensures PgDumpVer(v.maj, v.min, v.rev) >= PgDumpVer(w.maj, w.min, w.rev) <==> AtLeast(v, w)
  {
    if v.maj != w.maj {
      assert v.maj > w.maj ==> v.maj >= w.maj + 1;
    }
  }

  /** Version and word sizes, from the archive header. */
  datatype Layout = Layout(ver: int, intSize: nat, offSize: nat)

  datatype TocEntry = TocEntry(dumpID: int, tag: Bytes, desc: Bytes, section: int, copyStmt: Bytes, offset: Offset,
                               comprAlgo: int)

  /** The first, middle and last fields of an entry, as far as they are kept. */
  datatype Head = Head(dumpID: int, tag: Bytes, desc: Bytes)
  datatype Middle = Middle(section: int, copyStmt: Bytes)

  function HeadAt(s: Bytes, l: Layout): Parse<Head>
  {
    var (dumpID, s1) :- IntAt(s, l.intSize, "dumpID");
    var (_, s2) :- IntAt(s1, l.intSize, "hadDumper");
    var (_, s3) :- StrIf(l.ver >= PgDumpVer(1, 3, 0), s2, l.intSize, "tableoid");
    var (_, s4) :- StrAt(s3, l.intSize, "oid");
    var (tag, s5) :- StrAt(s4, l.intSize, "tag");
    var (desc, s6) :- StrAt(s5, l.intSize, "desc");
    Parsed(Head(Wrap32(dumpID), tag, desc), s6)
  }

  function MiddleAt(s: Bytes, l: Layout): Parse<Middle>
  {
    var (section, s1) :- IntIf(l.ver >= PgDumpVer(1, 11, 0), s, l.intSize, "section");
    var (_, s2) :- StrAt(s1, l.intSize, "defn");
    var (_, s3) :- StrAt(s2, l.intSize, "dropStmt");
    var (_, s4) :- StrIf(l.ver < PgDumpVer(1, 3, 0), s3, l.intSize, "filename");
    var (copyStmt, s5) :- StrAt(s4, l.intSize, "copyStmt");
    var (_, s6) :- StrAt(s5, l.intSize, "namespace");
    Parsed(Middle(Wrap32(section), copyStmt), s6)
  }

  function OwnerAt(s: Bytes, l: Layout): Parse<()>
  {
    var (_, s1) :- StrIf(l.ver >= PgDumpVer(1, 10, 0), s, l.intSize, "tablespace");
    var (_, s2) :- StrIf(l.ver >= PgDumpVer(1, 14, 0), s1, l.intSize, "tableam");
    var (_, s3) :- StrIf(l.ver >= PgDumpVer(1, 16, 0), s2, l.intSize, "relkind");
    var (_, s4) :- StrAt(s3, l.intSize, "owner");
    var (_, s5) :- StrIf(l.ver < PgDumpVer(1, 9, 0), s4, l.intSize, "withOids");
    Parsed((), s5)
  }

  /** Dependencies up to the first empty one. */
  function DepsAt(s: Bytes, intSize: nat): Parse<()>
    decreases |s|
  {
    var (dep, s1) :- StrAt(s, intSize, "dep");
    if dep == [] then Parsed((), s1) else DepsAt(s1, intSize)
  }

  function DataAt(s: Bytes, l: Layout): Parse<Offset>
  {
    var (_, s1) :- OffsetIf(l.ver >= PgDumpVer(1, 8, 0), s, l.offSize, "dataLength");
    OffsetIf(l.ver >= PgDumpVer(1, 1, 0), s1, l.offSize, "dataPos")
  }

  function EntryAt(s: Bytes, l: Layout, comprAlgo: int): Parse<TocEntry>
  {
    var (head, s1) :- HeadAt(s, l);
    var (middle, s2) :- MiddleAt(s1, l);
    var (_, s3) :- OwnerAt(s2, l);
    var (_, s4) :- DepsAt(s3, l.intSize);
    var (offset, s5) :- DataAt(s4, l);
    Parsed(TocEntry(head.dumpID, head.tag, head.desc, middle.section, middle.copyStmt, offset, comprAlgo), s5)
  }

  /** `count` items in a row; none for a negative count. */
  function Repeat<T>(item: Bytes -> Parse<T>, s: Bytes, count: int, read: seq<T>): Parse<seq<T>>
    decreases count
  {
    if count <= 0 then Parsed(read, s)
    else
      var (x, s1) :- item(s);
      Repeat(item, s1, count - 1, read + [x])
  }

  function EntryParser(l: Layout, comprAlgo: int): Bytes -> Parse<TocEntry> { s => EntryAt(s, l, comprAlgo) }

  function TablespaceAt(s: Bytes, intSize: nat): Parse<()>
  {
    var (_, s1) :- StrAt(s, intSize, "tablespace name");
    var (_, s2) :- StrAt(s1, intSize, "tablespace location");
    Parsed((), s2)
  }

  function TablespaceParser(intSize: nat): Bytes -> Parse<()> { s => TablespaceAt(s, intSize) }

  /** What is kept of the fixed header. */
  datatype Header = Header(version: Version, intSize: Byte, offSize: Byte, format: Byte)

  datatype Doc = Doc(header: Header, comprAlgo: int, toc: seq<TocEntry>)

  function LayoutOf(h: Header): Layout
  {
    Layout(PgDumpVer(h.version.maj, h.version.min, h.version.rev), h.intSize, h.offSize)
  }

  function HeaderAt(s: Bytes): Parse<Header>
  {
    var (magic, s1) :- Take(s, 5, "magic");
    if magic != MAGIC then Failed("invalid magic")
    else
      var (h, s2) :- Take(s1, 6, "header bytes");
      Parsed(Header(Version(h[0], h[1], h[2]), h[3], h[4], h[5]), s2)
  }

  /** An algorithm from 1.15 on; before that, from 1.2 on, a level that is discarded. */
  function ComprAt(s: Bytes, l: Layout): Parse<int>
  {
    if l.ver >= PgDumpVer(1, 15, 0) then
      var (algo, s1) :- IntAt(s, l.intSize, "compressionAlgo");
      Parsed(Wrap32(algo), s1)
    else
      var (_, s1) :- IntIf(l.ver >= PgDumpVer(1, 2, 0), s, l.intSize, "compressionLevel");
      Parsed(0, s1)
  }

  function PreambleAt(s: Bytes, l: Layout): Parse<()>
  {
    var (_, s1) :- IntAt(s, l.intSize, "crtm");
    var (_, s2) :- StrAt(s1, l.intSize, "dbname");
    var (_, s3) :- StrAt(s2, l.intSize, "remoteVersion");
    var (_, s4) :- StrAt(s3, l.intSize, "pgdumpVersion");
    var (count, s5) :- IntIf(l.ver >= PgDumpVer(1, 10, 0), s4, l.intSize, "tablespace count");
    var (_, s6) :- Repeat(TablespaceParser(l.intSize), s5, count, []);
    Parsed((), s6)
  }

  /** A negative entry count makes the program panic. */
  function TocAt(s: Bytes, l: Layout, comprAlgo: int): Parse<seq<TocEntry>>
  {
    var (count, s1) :- IntAt(s, l.intSize, "tocCount");
    if count < 0 then Failed("negative tocCount") else Repeat(EntryParser(l, comprAlgo), s1, count, [])
  }

  function DocAt(s: Bytes): Parse<Doc>
  {
    var (header, s1) :- HeaderAt(s);
    var l := LayoutOf(header);
    var (comprAlgo, s2) :- ComprAt(s1, l);
    var (_, s3) :- PreambleAt(s2, l);
    var (toc, s4) :- TocAt(s3, l, comprAlgo);
    Parsed(Doc(header, comprAlgo, toc), s4)
  }

  // ------------------------------------------------------------ the program

  /** The outcome of a read and the bytes left agree with a parse. */
  ghost predicate Follows<T>(r: Result<T>, left: Bytes, p: Parse<T>)
  {
    match p
    case Parsed(v, k) => r == Ok(v) && left == k
    case Failed(f) => r == Err(f)
  }

  class Stream {
    var rest: Bytes

    constructor (data: Bytes)
      ensures rest == data
    {
      rest := data;
    }

    /** io.ReadFull: a short read consumes what is there and fails. */
    method ReadFull(n: nat, field: string) returns (r: Result<Bytes>)
      modifies this
      ensures Follows(r, rest, Take(old(rest), n, field))
    {
      if n <= |rest| {
        r := Ok(rest[..n]);
        rest := rest[n..];
      } else {
        rest := [];
        r := Err(field);
      }
    }

    /** Gathers little-endian bytes; adding a shifted byte is or-ing it, as the bits are disjoint. */
    method Gather(buf: Bytes) returns (val: int)
      ensures val == Value64(buf)
    {
      val := 0;
      for i := 0 to |buf|
        invariant val == Value64(buf[..i])
      {
        Value64Snoc(buf[..i], buf[i]);
        assert buf[..i + 1] == buf[..i] + [buf[i]];
        val := Wrap64(val + Shl64(buf[i], i));
      }
      assert buf[..|buf|] == buf;
    }

    method ReadPgDumpInt(intSize: nat, field: string) returns (r: Result<int>)
      modifies this
      ensures Follows(r, rest, IntAt(old(rest), intSize, field))
    {
      var sign :- ReadFull(1, field);
      var buf :- ReadFull(intSize, field);
      var val := Gather(buf);
      if sign[0] != 0 {
        val := Wrap64(-val);
      }
      r := Ok(val);
    }

    method ReadPgDumpStr(intSize: nat, field: string) returns (r: Result<Bytes>)
      modifies this
      ensures Follows(r, rest, StrAt(old(rest), intSize, field))
    {
      var l :- ReadPgDumpInt(intSize, field);
      if l <= 0 {
        return Ok([]);
      }
      r := ReadFull(l, field);
    }

    method ReadStrIf(present: bool, intSize: nat, field: string) returns (r: Result<Bytes>)
      modifies this
      ensures Follows(r, rest, StrIf(present, old(rest), intSize, field))
    {
      if present {
        r := ReadPgDumpStr(intSize, field);
      } else {
        r := Ok([]);
      }
    }

    method ReadIntIf(present: bool, intSize: nat, field: string) returns (r: Result<int>)
      modifies this
      ensures Follows(r, rest, IntIf(present, old(rest), intSize, field))
    {
      if present {
        r := ReadPgDumpInt(intSize, field);
      } else {
        r := Ok(0);
      }
    }

    method ReadPgDumpOffset(offSize: nat, field: string) returns (r: Result<Offset>)
      modifies this
      ensures Follows(r, rest, OffsetAt(old(rest), offSize, field))
    {
      var flag :- ReadFull(1, field);
      if flag[0] == OFFSET_POS_NOT_SET || flag[0] == OFFSET_NO_DATA {
        r := Ok(Offset(0, false));
      } else if flag[0] == OFFSET_POS_SET {
        var buf :- ReadFull(offSize, field);
        var val := Gather(buf);
        r := Ok(Offset(val, true));
      } else {
        r := Err(field);
      }
    }

    method ReadOffsetIf(present: bool, offSize: nat, field: string) returns (r: Result<Offset>)
      modifies this
      ensures Follows(r, rest, OffsetIf(present, old(rest), offSize, field))
    {
      if present {
        r := ReadPgDumpOffset(offSize, field);
      } else {
        r := Ok(Offset(0, false));
      }
    }

    method ReadHead(l: Layout) returns (r: Result<Head>)
      modifies this
      ensures Follows(r, rest, HeadAt(old(rest), l))
    {
      var dumpID :- ReadPgDumpInt(l.intSize, "dumpID");
      var _ :- ReadPgDumpInt(l.intSize, "hadDumper");
      var _ :- ReadStrIf(l.ver >= PgDumpVer(1, 3, 0), l.intSize, "tableoid");
      var _ :- ReadPgDumpStr(l.intSize, "oid");
      var tag :- ReadPgDumpStr(l.intSize, "tag");
      var desc :- ReadPgDumpStr(l.intSize, "desc");
      r := Ok(Head(Wrap32(dumpID), tag, desc));
    }

    method ReadMiddle(l: Layout) returns (r: Result<Middle>)
      modifies this
      ensures Follows(r, rest, MiddleAt(old(rest), l))
    {
      var section :- ReadIntIf(l.ver >= PgDumpVer(1, 11, 0), l.intSize, "section");
      var _ :- ReadPgDumpStr(l.intSize, "defn");
      var _ :- ReadPgDumpStr(l.intSize, "dropStmt");
      var _ :- ReadStrIf(l.ver < PgDumpVer(1, 3, 0), l.intSize, "filename");
      var copyStmt :- ReadPgDumpStr(l.intSize, "copyStmt");
      var _ :- ReadPgDumpStr(l.intSize, "namespace");
      r := Ok(Middle(Wrap32(section), copyStmt));
    }

    method ReadOwner(l: Layout) returns (r: Result<()>)
      modifies this
      ensures Follows(r, rest, OwnerAt(old(rest), l))
    {
      var _ :- ReadStrIf(l.ver >= PgDumpVer(1, 10, 0), l.intSize, "tablespace");
      var _ :- ReadStrIf(l.ver >= PgDumpVer(1, 14, 0), l.intSize, "tableam");
      var _ :- ReadStrIf(l.ver >= PgDumpVer(1, 16, 0), l.intSize, "relkind");
      var _ :- ReadPgDumpStr(l.intSize, "owner");
      var _ :- ReadStrIf(l.ver < PgDumpVer(1, 9, 0), l.intSize, "withOids");
      r := Ok(());
    }

    method ReadDeps(intSize: nat) returns (r: Result<()>)
      modifies this
      ensures Follows(r, rest, DepsAt(old(rest), intSize))
    {
      while true
        invariant DepsAt(rest, intSize) == DepsAt(old(rest), intSize)
        decreases |rest|
      {
        var dep :- ReadPgDumpStr(intSize, "dep");
        if dep == [] {
          return Ok(());
        }
      }
    }

    method ParseTocEntry(l: Layout, comprAlgo: int) returns (r: Result<TocEntry>)
      modifies this
      ensures Follows(r, rest, EntryAt(old(rest), l, comprAlgo))
    {
      var head :- ReadHead(l);
      var middle :- ReadMiddle(l);
      var _ :- ReadOwner(l);
      var _ :- ReadDeps(l.intSize);
      var _ :- ReadOffsetIf(l.ver >= PgDumpVer(1, 8, 0), l.offSize, "dataLength");
      var offset :- ReadOffsetIf(l.ver >= PgDumpVer(1, 1, 0), l.offSize, "dataPos");
      r := Ok(TocEntry(head.dumpID, head.tag, head.desc, middle.section, middle.copyStmt, offset, comprAlgo));
    }

    method ReadTablespace(intSize: nat, ghost item: Bytes -> Parse<()>) returns (r: Result<()>)
      requires item == TablespaceParser(intSize)
      modifies this
      ensures Follows(r, rest, item(old(rest)))
    {
      var _ :- ReadPgDumpStr(intSize, "tablespace name");
      var _ :- ReadPgDumpStr(intSize, "tablespace location");
      r := Ok(());
    }

    method ReadTablespaces(count: int, intSize: nat, ghost item: Bytes -> Parse<()>) returns (r: Result<()>)
      requires item == TablespaceParser(intSize)
      modifies this
      ensures match Repeat(item, old(rest), count, [])
              case Parsed(_, k) => r == Ok(()) && rest == k
              case Failed(f) => r == Err(f)
    {
      hide TablespaceAt;
      ghost var read := [];
      var i := 0;
      while i < count
        invariant Repeat(item, rest, count - i, read) == Repeat(item, old(rest), count, [])
      {
        var _ :- ReadTablespace(intSize, item);
        read := read + [()];
        i := i + 1;
      }
      r := Ok(());
    }

    method ReadCompression(l: Layout) returns (r: Result<int>)
      modifies this
      ensures Follows(r, rest, ComprAt(old(rest), l))
    {
      if l.ver >= PgDumpVer(1, 15, 0) {
        var algo :- ReadPgDumpInt(l.intSize, "compressionAlgo");
        r := Ok(Wrap32(algo));
      } else {
        var _ :- ReadIntIf(l.ver >= PgDumpVer(1, 2, 0), l.intSize, "compressionLevel");
        r := Ok(0);
      }
    }

    method ReadPreamble(l: Layout) returns (r: Result<()>)
      modifies this
      ensures Follows(r, rest, PreambleAt(old(rest), l))
    {
      var _ :- ReadPgDumpInt(l.intSize, "crtm");
      var _ :- ReadPgDumpStr(l.intSize, "dbname");
      var _ :- ReadPgDumpStr(l.intSize, "remoteVersion");
      var _ :- ReadPgDumpStr(l.intSize, "pgdumpVersion");
      var count :- ReadIntIf(l.ver >= PgDumpVer(1, 10, 0), l.intSize, "tablespace count");
      var _ :- ReadTablespaces(count, l.intSize, TablespaceParser(l.intSize));
      r := Ok(());
    }

    method ReadEntry(l: Layout, comprAlgo: int, ghost item: Bytes -> Parse<TocEntry>) returns (r: Result<TocEntry>)
      requires item == EntryParser(l, comprAlgo)
      modifies this
      ensures Follows(r, rest, item(old(rest)))
    {
      r := ParseTocEntry(l, comprAlgo);
    }

    method ReadEntries(tocCount: int, l: Layout, comprAlgo: int, ghost item: Bytes -> Parse<TocEntry>)
        returns (r: Result<seq<TocEntry>>)
      requires item == EntryParser(l, comprAlgo)
      modifies this
      ensures Follows(r, rest, Repeat(item, old(rest), tocCount, []))
    {
      hide EntryAt;
      var toc: seq<TocEntry> := [];
      var i := 0;
      while i < tocCount
        invariant Repeat(item, rest, tocCount - i, toc) == Repeat(item, old(rest), tocCount, [])
      {
        var entry :- ReadEntry(l, comprAlgo, item);
        toc := toc + [entry];
        i := i + 1;
      }
      r := Ok(toc);
    }

    method ReadToc(l: Layout, comprAlgo: int) returns (r: Result<seq<TocEntry>>)
      modifies this
      ensures Follows(r, rest, TocAt(old(rest), l, comprAlgo))
    {
      var tocCount :- ReadPgDumpInt(l.intSize, "tocCount");
      if tocCount < 0 {
        return Err("negative tocCount");
      }
      r := ReadEntries(tocCount, l, comprAlgo, EntryParser(l, comprAlgo));
    }

    method ParsePgDump() returns (r: Result<Doc>)
      modifies this
      ensures Follows(r, rest, DocAt(old(rest)))
    {
      var magic :- ReadFull(5, "magic");
      if magic != MAGIC {
        return Err("invalid magic");
      }
      var hdr :- ReadFull(6, "header bytes");
      var header := Header(Version(hdr[0], hdr[1], hdr[2]), hdr[3], hdr[4], hdr[5]);
      var l := LayoutOf(header);
      var comprAlgo :- ReadCompression(l);
      var _ :- ReadPreamble(l);
      var toc :- ReadToc(l, comprAlgo);
      r := Ok(Doc(header, comprAlgo, toc));
    }
  }
}
