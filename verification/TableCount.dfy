/** internal/scanner/efficientip/backup.go: counting the rows of a table whose data block follows the
    COPY statement of its entry. */
module TableCount {
  import opened Base
  import opened PgDump

  const NL: Byte := 10
  const TAB: Byte := 9
  const COMMA: Byte := 44
  const OPEN: Byte := 40
  const CLOSE: Byte := 41

  /** The line `\.` that ends COPY data. */
  const TERMINATOR: Bytes := [92, 46]
  /** The digit 1. */
  const ENABLED: Bytes := [49]
  /** row_enabled */
  const ROW_ENABLED: Bytes := [114, 111, 119, 95, 101, 110, 97, 98, 108, 101, 100]
  /** rr_type_id */
  const RR_TYPE_ID: Bytes := [114, 114, 95, 116, 121, 112, 101, 95, 105, 100]

  // ------------------------------------------------------------ columns of a COPY statement

  /** Position of the first `c`, or |s| when there is none. */
  function IndexByte(s: Bytes, c: Byte): (i: nat)
    ensures i <= |s| && c !in s[..i]
    ensures i < |s| ==> s[i] == c
  {
    if s == [] || s[0] == c then 0
    else
      assert s[..1 + IndexByte(s[1..], c)] == [s[0]] + s[1..][..IndexByte(s[1..], c)];
      1 + IndexByte(s[1..], c)
  }

  predicate Space(c: Byte) { c == 32 || 9 <= c <= 13 }

  /** strings.TrimSpace on ASCII text. */
  function TrimSpace(s: Bytes): Bytes
  {
    if s == [] then [] else if Space(s[0]) then TrimSpace(s[1..])
    else if Space(s[|s| - 1]) then TrimSpace(s[..|s| - 1]) else s
  }

  predicate White(c: Byte) { c in {9, 10, 11, 12, 13, 32} }

  predicate AllWhite(s: Bytes) { forall c | c in s :: White(c) }

  lemma {:induction false} WhiteGrows(s: Bytes, c: Byte)
    requires AllWhite(s) && Space(c)
    ensures AllWhite([c] + s) && AllWhite(s + [c])
  {
  }

  /** Only white space is trimmed, and all of it. */
  lemma {:induction false} TrimsExactly(s: Bytes) returns (before: Bytes, after: Bytes)
    ensures s == before + TrimSpace(s) + after && AllWhite(before) && AllWhite(after)
    ensures TrimSpace(s) != [] ==> !White(TrimSpace(s)[0]) && !White(TrimSpace(s)[|TrimSpace(s)| - 1])
  {
    if s == [] {
      return [], [];
    }
    var first, last := s[0], s[|s| - 1];
    if Space(first) {
      var rest := s[1..];
      assert TrimSpace(s) == TrimSpace(rest) && s == [first] + rest;
      before, after := TrimsExactly(rest);
      WhiteGrows(before, first);
      hide AllWhite, White, TrimSpace, Space;
      RegroupFront([first], before, TrimSpace(rest), after);
      before := [first] + before;
    } else if Space(last) {
      var rest := s[..|s| - 1];
      assert TrimSpace(s) == TrimSpace(rest) && s == rest + [last];
      before, after := TrimsExactly(rest);
      WhiteGrows(after, last);
      hide AllWhite, White, TrimSpace, Space;
      RegroupBack(before, TrimSpace(rest), after, [last]);
      after := after + [last];
    } else {
      before, after := [], [];
    }
  }

  /** The parts of `part + s` between commas outside parentheses, reading from `s` at `depth`. */
  function SplitFrom(s: Bytes, depth: int, part: Bytes): seq<Bytes>
    decreases |s|
  {
    if s == [] then [part]
    else if s[0] == OPEN then SplitFrom(s[1..], depth + 1, part + [s[0]])
    else if s[0] == CLOSE then SplitFrom(s[1..], depth - 1, part + [s[0]])
    else if s[0] == COMMA && depth == 0 then [part] + SplitFrom(s[1..], depth, [])
    else SplitFrom(s[1..], depth, part + [s[0]])
  }

  method SplitComma(s: Bytes) returns (parts: seq<Bytes>)
    ensures parts == SplitFrom(s, 0, [])
  {
    parts := [];
    var depth, start := 0, 0;
    for i := 0 to |s|
      invariant start <= i
      invariant parts + SplitFrom(s[i..], depth, s[start..i]) == SplitFrom(s, 0, [])
    {
      assert s[i..][1..] == s[i + 1..];
      assert s[start..i + 1] == s[start..i] + [s[i]];
      if s[i] == OPEN {
        depth := depth + 1;
      } else if s[i] == CLOSE {
        depth := depth - 1;
      } else if s[i] == COMMA {
        if depth == 0 {
          MoveOne(parts, s[start..i], SplitFrom(s[i + 1..], 0, []));
          assert s[i + 1..i + 1] == [];
          parts := parts + [s[start..i]];
          start := i + 1;
        }
      }
    }
    assert s[|s|..] == [] && s[start..|s|] == s[start..];
    parts := parts + [s[start..]];
  }

  lemma {:induction false} MoveOne<T>(a: seq<T>, x: T, b: seq<T>)
    ensures a + ([x] + b) == a + [x] + b
  {
  }

  function TrimAll(parts: seq<Bytes>): seq<Bytes>
  {
    if parts == [] then []
    else TrimAll(parts[..|parts| - 1]) + (var col := TrimSpace(parts[|parts| - 1]); if col == [] then [] else [col])
  }

  /** What is between the first opening parenthesis and the next closing one. */
  function Inner(stmt: Bytes): Option<Bytes>
  {
    var open := IndexByte(stmt, OPEN);
    if open == |stmt| then None
    else
      var after := stmt[open + 1..];
      var close := IndexByte(after, CLOSE);
      if close == |after| then None else Some(after[..close])
  }

  function Columns(stmt: Bytes): seq<Bytes>
  {
    if Inner(stmt).None? then [] else TrimAll(SplitFrom(Inner(stmt).value, 0, []))
  }

  method FindByte(s: Bytes, from: nat, c: Byte) returns (i: nat)
    requires from <= |s|
    ensures from <= i <= |s| && i - from == IndexByte(s[from..], c)
  {
    i := from;
    while i < |s| && s[i] != c
      invariant from <= i <= |s| && i - from + IndexByte(s[i..], c) == IndexByte(s[from..], c)
    {
      assert s[i..][1..] == s[i + 1..];
      i := i + 1;
    }
  }

  method ParseCopyColumns(copyStmt: Bytes) returns (cols: seq<Bytes>)
    ensures cols == Columns(copyStmt)
  {
    var open := FindByte(copyStmt, 0, OPEN);
    assert copyStmt[0..] == copyStmt;
    if open == |copyStmt| {
      return [];
    }
    var close := FindByte(copyStmt, open + 1, CLOSE);
    if close == |copyStmt| {
      return [];
    }
    assert copyStmt[open + 1..][..close - (open + 1)] == copyStmt[open + 1..close];
    var parts := SplitComma(copyStmt[open + 1..close]);
    cols := TrimColumns(parts);
  }

  method TrimColumns(parts: seq<Bytes>) returns (cols: seq<Bytes>)
    ensures cols == TrimAll(parts)
  {
    cols := [];
    for i := 0 to |parts|
      invariant cols == TrimAll(parts[..i])
    {
      assert parts[..i + 1][..i] == parts[..i];
      var col := TrimSpace(parts[i]);
      if col != [] {
        cols := cols + [col];
      }
    }
    assert parts[..|parts|] == parts;
  }

  /** The first column of that name, or -1. */
  method ColumnIndex(cols: seq<Bytes>, name: Bytes) returns (idx: int)
    ensures idx == IndexOf(cols, name)
  {
    for i := 0 to |cols|
      invariant name !in cols[..i]
    {
      if cols[i] == name {
        IndexOfIs(cols, name, i);
        return i;
      }
    }
    IndexOfNone(cols, name);
    return -1;
  }

  function IndexOf(cols: seq<Bytes>, name: Bytes): (idx: int)
    ensures idx == -1 || (0 <= idx < |cols| && cols[idx] == name)
  {
    if cols == [] then -1 else if cols[0] == name then 0
    else var i := IndexOf(cols[1..], name); if i < 0 then -1 else i + 1
  }

  lemma {:induction false} IndexOfIs(cols: seq<Bytes>, name: Bytes, i: nat)
    requires i < |cols| && cols[i] == name && name !in cols[..i]
    ensures IndexOf(cols, name) == i
  {
    if i > 0 {
      assert cols[0] in cols[..i];
      assert cols[1..][..i - 1] == cols[..i][1..];
      IndexOfIs(cols[1..], name, i - 1);
    }
  }

  lemma {:induction false} IndexOfNone(cols: seq<Bytes>, name: Bytes)
    ensures name !in cols <==> IndexOf(cols, name) == -1
  {
    if cols != [] {
      IndexOfNone(cols[1..], name);
    }
  }

  // ------------------------------------------------------------ counting rows

  datatype ColumnFilter = ColumnFilter(rowEnabledCol: int, rrTypeCol: int, allowedRRTypes: Option<set<Bytes>>)

  function FilterOf(cols: seq<Bytes>, rrTypes: Option<set<Bytes>>): ColumnFilter
  {
    if rrTypes.Some? && RR_TYPE_ID in cols
    then ColumnFilter(IndexOf(cols, ROW_ENABLED), IndexOf(cols, RR_TYPE_ID), rrTypes)
    else ColumnFilter(IndexOf(cols, ROW_ENABLED), -1, None)
  }

  method BuildColumnFilter(entry: TocEntry, rrTypeMap: Option<set<Bytes>>) returns (cf: ColumnFilter)
    ensures cf == FilterOf(Columns(entry.copyStmt), rrTypeMap)
  {
    var cols := ParseCopyColumns(entry.copyStmt);
    cf := ColumnFilter(-1, -1, None);
    var idx := ColumnIndex(cols, ROW_ENABLED);
    if idx >= 0 {
      cf := cf.(rowEnabledCol := idx);
    }
    if rrTypeMap.Some? {
      idx := ColumnIndex(cols, RR_TYPE_ID);
      IndexOfNone(cols, RR_TYPE_ID);
      if idx >= 0 {
        cf := cf.(rrTypeCol := idx, allowedRRTypes := rrTypeMap);
      }
    }
  }

  /** bytes.Split(line, "\t") */
  function SplitTabs(line: Bytes): (fields: seq<Bytes>)
    ensures |fields| >= 1
    decreases |line|
  {
    var i := IndexByte(line, TAB);
    if i == |line| then [line] else [line[..i]] + SplitTabs(line[i + 1..])
  }

  predicate Accepts(cf: ColumnFilter, fields: seq<Bytes>)
  {
    && (cf.rowEnabledCol >= 0 ==> cf.rowEnabledCol < |fields| && fields[cf.rowEnabledCol] == ENABLED)
    && (cf.rrTypeCol >= 0 && cf.allowedRRTypes.Some? ==>
          cf.rrTypeCol < |fields| && fields[cf.rrTypeCol] in cf.allowedRRTypes.value)
  }

  predicate Counts(cf: ColumnFilter, line: Bytes)
  {
    line != TERMINATOR && line != [] && Accepts(cf, SplitTabs(line))
  }

  function CountLines(data: Bytes, cf: ColumnFilter): nat
    decreases |data|
  {
    if data == [] then 0
    else
      var i := IndexByte(data, NL);
      (if Counts(cf, data[..i]) then 1 else 0) + if i == |data| then 0 else CountLines(data[i + 1..], cf)
  }

  method CountRows(data: Bytes, cf: ColumnFilter) returns (count: nat)
    ensures count == CountLines(data, cf)
  {
    count := 0;
    var left := data;
    while |left| > 0
      invariant count + CountLines(left, cf) == CountLines(data, cf)
      decreases |left|
    {
      var idx := IndexByte(left, NL);
      var line := left[..idx];
      left := if idx == |left| then [] else left[idx + 1..];
      if line == TERMINATOR {
        continue;
      }
      if |line| == 0 {
        continue;
      }
      if cf.rowEnabledCol >= 0 || cf.rrTypeCol >= 0 {
        var fields := SplitTabs(line);
        if cf.rowEnabledCol >= 0 {
          if cf.rowEnabledCol >= |fields| || fields[cf.rowEnabledCol] != ENABLED {
            continue;
          }
        }
        if cf.rrTypeCol >= 0 && cf.allowedRRTypes.Some? {
          if cf.rrTypeCol >= |fields| {
            continue;
          }
          if fields[cf.rrTypeCol] !in cf.allowedRRTypes.value {
            continue;
          }
        }
      }
      count := count + 1;
    }
  }

  // ------------------------------------------------------------ the data block

  /** Decompresses one chunk; what gzip and zstd do is not part of this model. */
  type Inflate = (int, Bytes) -> Option<Bytes>

  const RAW := 0
  const GZIP := 1
  const ZSTD := 4

  function Plain(algo: int, inflate: Inflate, chunk: Bytes): Result<Bytes>
  {
    if algo == RAW then Ok(chunk)
    else if algo == GZIP || algo == ZSTD then
      (if inflate(algo, chunk).Some? then Ok(inflate(algo, chunk).value) else Err("decompress"))
    else Err("unknown comprAlgo")
  }

  /** The text of the chunks up to the empty one. */
  function ChunksAt(s: Bytes, algo: int, inflate: Inflate, plain: Bytes): Parse<Bytes>
    decreases |s|
  {
    var (len, s1) :- Take(s, 4, "chunkLen");
    if LittleEndian(len) == 0 then Parsed(plain, s1)
    else
      var (chunk, s2) :- Take(s1, LittleEndian(len), "chunk data");
      match Plain(algo, inflate, chunk)
      case Err(e) => Failed(e)
      case Ok(text) => ChunksAt(s2, algo, inflate, plain + text)
  }

  /** The entry's algorithm, unless only the archive names one. */
  function AlgoOf(entry: TocEntry, globalCompression: Byte): int
  {
    if globalCompression != 0 && entry.comprAlgo == 0 then globalCompression else entry.comprAlgo
  }

  const DATA_BLOCK: Byte := 1
  const EOF_BLOCK: Byte := 3

  function TableRows(archive: Bytes, entry: TocEntry, globalCompression: Byte, cf: ColumnFilter,
                     inflate: Inflate): Result<nat>
  {
    if !entry.offset.set_ then Ok(0)
    else if entry.offset.val < 0 then Err("seek")
    else if entry.offset.val >= |archive| then Err("blockType")
    else if archive[entry.offset.val] == EOF_BLOCK then Ok(0)
    else if archive[entry.offset.val] != DATA_BLOCK then Err("unexpected blockType")
    else
      match Take(archive[entry.offset.val + 1..], 4, "dumpId")
      case Failed(f) => Err(f)
      case Parsed(_, s) =>
        match ChunksAt(s, AlgoOf(entry, globalCompression), inflate, [])
        case Failed(f) => Err(f)
        case Parsed(text, _) => Ok(CountLines(text, cf))
  }

  method ReadChunks(r: Stream, algo: int, inflate: Inflate) returns (plain: Result<Bytes>)
    modifies r
    ensures Follows(plain, r.rest, ChunksAt(old(r.rest), algo, inflate, []))
  {
    var plainBuf: Bytes := [];
    while true
      invariant ChunksAt(r.rest, algo, inflate, plainBuf) == ChunksAt(old(r.rest), algo, inflate, [])
      decreases |r.rest|
    {
      var lenBuf :- r.ReadFull(4, "chunkLen");
      var chunkLen := LittleEndian(lenBuf);
      if chunkLen == 0 {
        return Ok(plainBuf);
      }
      var chunk :- r.ReadFull(chunkLen, "chunk data");
      var text :- Plain(algo, inflate, chunk);
      plainBuf := plainBuf + text;
    }
  }

  method CountTableRows(archive: Bytes, entry: TocEntry, globalCompression: Byte, cf: ColumnFilter, inflate: Inflate)
    returns (rows: Result<nat>)
    ensures rows == TableRows(archive, entry, globalCompression, cf, inflate)
  {
    if !entry.offset.set_ {
      return Ok(0);
    }
    if entry.offset.val < 0 {
      return Err("seek");
    }
    var r := new Stream(if entry.offset.val <= |archive| then archive[entry.offset.val..] else []);
    var blkType :- r.ReadFull(1, "blockType");
    if blkType[0] == EOF_BLOCK {
      return Ok(0);
    }
    if blkType[0] != DATA_BLOCK {
      return Err("unexpected blockType");
    }
    assert r.rest == archive[entry.offset.val + 1..];
    var _ :- r.ReadFull(4, "dumpId");
    var comprAlgo := AlgoOf(entry, globalCompression);
    var plain :- ReadChunks(r, comprAlgo, inflate);
    var count := CountRows(plain, cf);
    rows := Ok(count);
  }
}
