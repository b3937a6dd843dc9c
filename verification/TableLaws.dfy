/** What the row counter guarantees: how the text was cut into chunks does not matter, and the rows
    counted are those whose named columns pass the filter. */
module TableLaws {
  import opened Base
  import opened PgDump
  import opened PgRoundTrip
  import opened TableCount

  // ------------------------------------------------------------ chunks

  function PrintChunks(stored: seq<Bytes>, k: Bytes): Bytes
  {
    if stored == [] then Digits(0, 4) + k else Digits(|stored[0]|, 4) + (stored[0] + PrintChunks(stored[1..], k))
  }

  predicate ChunkFits(chunk: Bytes) { 0 < |chunk| < 0x1_0000_0000 }

  lemma {:induction false} LengthBack(n: nat)
    requires n < 0x1_0000_0000
    ensures LittleEndian(Digits(n, 4)) == n
  {
    assert Pow256(4) == 0x1_0000_0000;
    DigitsBack(n, 4, 4);
    assert Digits(n, 4)[..4] == Digits(n, 4);
  }

  /** Reading back chunks of any algorithm gives the texts they hold, one after the other. */
  lemma {:induction false} ChunksBack(stored: seq<Bytes>, texts: seq<Bytes>, algo: int, inflate: Inflate, k: Bytes,
                                      plain: Bytes)
    requires |stored| == |texts| && forall i | 0 <= i < |stored| ::
             ChunkFits(stored[i]) && Plain(algo, inflate, stored[i]) == Ok(texts[i])
    ensures ChunksAt(PrintChunks(stored, k), algo, inflate, plain) == Parsed(plain + Flatten(texts), k)
  {
    if stored == [] {
      TakeExactly(Digits(0, 4), k, "chunkLen");
      LengthBack(0);
      assert plain + Flatten(texts) == plain;
    } else {
      var rest := PrintChunks(stored[1..], k);
      TakeExactly(Digits(|stored[0]|, 4), stored[0] + rest, "chunkLen");
      LengthBack(|stored[0]|);
      TakeExactly(stored[0], rest, "chunk data");
      ChunksBack(stored[1..], texts[1..], algo, inflate, k, plain + texts[0]);
      assert plain + texts[0] + Flatten(texts[1..]) == plain + Flatten(texts);
    }
  }

  /** A data block at the entry's offset, in an archive with anything before and after it. */
  ghost predicate HoldsBlock(archive: Bytes, entry: TocEntry, stored: seq<Bytes>)
  {
    && entry.offset.set_ && 0 <= entry.offset.val < |archive|
    && exists dumpId, k ::
         |dumpId| == 4 && archive[entry.offset.val..] == [1] + (dumpId + PrintChunks(stored, k))
  }

  /** The chunk stands for the text: itself without compression, else what gzip or zstd makes of it. */
  ghost predicate Unpacks(algo: int, inflate: Inflate, chunk: Bytes, text: Bytes)
  {
    if algo == 0 then text == chunk else (algo == 1 || algo == 4) && inflate(algo, chunk) == Some(text)
  }

  /** A chunk is unpacked exactly so, and any other algorithm is an error. */
  lemma {:induction false} UnpacksExactly(algo: int, inflate: Inflate, chunk: Bytes, text: Bytes)
    ensures Plain(algo, inflate, chunk) == Ok(text) <==> Unpacks(algo, inflate, chunk, text)
  {
  }

  /** Blocks that hold no rows: none without an offset, an end-of-file block, an offset outside the archive, and a
      block of another type. */
  lemma {:induction false} BlocksWithoutRows(archive: Bytes, entry: TocEntry, globalCompression: Byte, cf: ColumnFilter,
                                             inflate: Inflate)
    ensures var r := TableRows(archive, entry, globalCompression, cf, inflate);
      && (!entry.offset.set_ ==> r == Ok(0))
      && (entry.offset.set_ && (entry.offset.val < 0 || entry.offset.val >= |archive|) ==> r.Err?)
      && (entry.offset.set_ && 0 <= entry.offset.val < |archive| && archive[entry.offset.val] == 3 ==> r == Ok(0))
      && (entry.offset.set_ && 0 <= entry.offset.val < |archive| && archive[entry.offset.val] !in {1, 3} ==> r.Err?)
  {
  }

  /** Only the concatenated text counts, not where it was cut; the archive's compression applies to entries that name
      none. */
  lemma {:induction false} ChunkingIsIrrelevant(archive: Bytes, entry: TocEntry, globalCompression: Byte,
                                                cf: ColumnFilter, inflate: Inflate,
                                                stored: seq<Bytes>, texts: seq<Bytes>)
    requires HoldsBlock(archive, entry, stored) && |stored| == |texts|
    requires forall i | 0 <= i < |stored| ::
      ChunkFits(stored[i]) && Unpacks(if entry.comprAlgo != 0 then entry.comprAlgo else globalCompression as int,
                                      inflate, stored[i], texts[i])
    ensures TableRows(archive, entry, globalCompression, cf, inflate) == Ok(CountLines(Flatten(texts), cf))
  {
    var dumpId: Bytes, k: Bytes :|
      |dumpId| == 4 && archive[entry.offset.val..] == [1] + (dumpId + PrintChunks(stored, k));
    var at := archive[entry.offset.val..];
    assert at[0] == DATA_BLOCK && at[1..] == archive[entry.offset.val + 1..]
           && at[1..] == dumpId + PrintChunks(stored, k);
    TakeExactly(dumpId, PrintChunks(stored, k), "dumpId");
    ChunksBack(stored, texts, AlgoOf(entry, globalCompression), inflate, k, []);
    assert [] + Flatten(texts) == Flatten(texts);
  }

  /** Two archives whose raw blocks hold the same text, cut differently, count the same. */
  lemma {:induction false} SameTextSameCount(a: Bytes, b: Bytes, entryA: TocEntry, entryB: TocEntry, cf: ColumnFilter,
                                             inflate: Inflate,
                                             chunksA: seq<Bytes>, chunksB: seq<Bytes>)
    requires HoldsBlock(a, entryA, chunksA) && HoldsBlock(b, entryB, chunksB)
             && entryA.comprAlgo == entryB.comprAlgo == RAW
    requires (forall c | c in chunksA :: ChunkFits(c)) && (forall c | c in chunksB :: ChunkFits(c))
    requires Flatten(chunksA) == Flatten(chunksB)
    ensures TableRows(a, entryA, 0, cf, inflate) == TableRows(b, entryB, 0, cf, inflate)
  {
    ChunkingIsIrrelevant(a, entryA, 0, cf, inflate, chunksA, chunksA);
    ChunkingIsIrrelevant(b, entryB, 0, cf, inflate, chunksB, chunksB);
  }

  // ------------------------------------------------------------ lines and fields

  lemma {:induction false} IndexByteAt(a: Bytes, c: Byte, b: Bytes)
    requires c !in a
    ensures IndexByte(a + [c] + b, c) == |a|
    ensures IndexByte(a, c) == |a|
  {
    if a != [] {
      assert (a + [c] + b)[1..] == a[1..] + [c] + b;
      IndexByteAt(a[1..], c, b);
    }
  }

  function JoinTabs(fields: seq<Bytes>): Bytes
  {
    if fields == [] then [] else if |fields| == 1 then fields[0] else fields[0] + [9] + JoinTabs(fields[1..])
  }

  lemma {:induction false} SplitJoined(fields: seq<Bytes>)
    requires fields != [] && forall f | f in fields :: TAB !in f
    ensures SplitTabs(JoinTabs(fields)) == fields
  {
    if |fields| == 1 {
      IndexByteAt(fields[0], TAB, []);
    } else {
      var rest := JoinTabs(fields[1..]);
      IndexByteAt(fields[0], TAB, rest);
      var line := fields[0] + [TAB] + rest;
      assert line[..|fields[0]|] == fields[0] && line[|fields[0]| + 1..] == rest;
      SplitJoined(fields[1..]);
      assert fields == [fields[0]] + fields[1..];
    }
  }

  /** The text of a table: one line for each row and, in a complete dump, the terminator. */
  function Text(rows: seq<seq<Bytes>>, terminated: bool): Bytes
  {
    if rows == [] then (if terminated then [92, 46, 10] else [])
    else JoinTabs(rows[0]) + [10] + Text(rows[1..], terminated)
  }

  /** A row whose line is neither empty nor the terminator, without separators inside its fields. */
  predicate Row(fields: seq<Bytes>)
  {
    && fields != [] && (forall f | f in fields :: 9 !in f && 10 !in f)
    && JoinTabs(fields) != [] && JoinTabs(fields) != [92, 46]
  }

  /** Fields of printable characters make a row when the first of them is not empty and does not begin with a
      backslash. */
  lemma {:induction false} OrdinaryFieldsAreRow(fields: seq<Bytes>)
    requires fields != [] && fields[0] != [] && fields[0][0] != 92
    requires forall f, b | f in fields && b in f :: b >= 32
    ensures Row(fields)
  {
    forall f | f in fields
      ensures 9 !in f && 10 !in f
    {
    }
    assert JoinTabs(fields)[0] == fields[0][0];
  }

  lemma {:induction false} JoinedHasNoNewline(fields: seq<Bytes>)
    requires fields != [] && forall f | f in fields :: NL !in f
    ensures NL !in JoinTabs(fields)
  {
    if |fields| > 1 {
      JoinedHasNoNewline(fields[1..]);
    }
  }

  function CountAccepted(rows: seq<seq<Bytes>>, accepts: seq<Bytes> -> bool): nat
  {
    if rows == [] then 0 else (if accepts(rows[0]) then 1 else 0) + CountAccepted(rows[1..], accepts)
  }

  lemma {:induction false} CountsRows(rows: seq<seq<Bytes>>, terminated: bool, cf: ColumnFilter)
    requires forall r | r in rows :: Row(r)
    ensures CountLines(Text(rows, terminated), cf) == CountAccepted(rows, fields => Accepts(cf, fields))
  {
    if rows == [] {
      IndexByteAt(TERMINATOR, NL, []);
      assert TERMINATOR + [NL] + [] == [92, 46, 10] && TERMINATOR + [NL] == [92, 46, 10];
      assert (TERMINATOR + [NL])[..2] == TERMINATOR && (TERMINATOR + [NL])[3..] == [];
      assert CountLines([], cf) == 0;
    } else {
      var line, rest := JoinTabs(rows[0]), Text(rows[1..], terminated);
      assert Row(rows[0]);
      JoinedHasNoNewline(rows[0]);
      SplitJoined(rows[0]);
      IndexByteAt(line, NL, rest);
      var text := line + [NL] + rest;
      assert text[..|line|] == line && text[|line| + 1..] == rest;
      CountsRows(rows[1..], terminated, cf);
    }
  }

  // ------------------------------------------------------------ named columns

  /** The field under the first column of that name, if the row reaches that far. */
  function FieldNamed(cols: seq<Bytes>, fields: seq<Bytes>, name: Bytes): Option<Bytes>
  {
    if cols == [] || fields == [] then None
    else if cols[0] == name then Some(fields[0]) else FieldNamed(cols[1..], fields[1..], name)
  }

  /** The bytes of an ASCII text. */
  function Ascii(s: string): Bytes { seq(|s|, i requires 0 <= i < |s| => Code(s[i])) }

  function Code(c: char): Byte { c as int % 128 }

  lemma {:induction false} ColumnNames()
    ensures Ascii("row_enabled") == ROW_ENABLED && Ascii("rr_type_id") == RR_TYPE_ID && Ascii("1") == ENABLED
  {
  }

  /** row_enabled, if there is such a column, is 1; rr_type_id, if there is such a column and a set
      of allowed types, is allowed. */
  predicate Passes(cols: seq<Bytes>, rrTypes: Option<set<Bytes>>, fields: seq<Bytes>)
  {
    var enabled, rrType := Ascii("row_enabled"), Ascii("rr_type_id");
    && (enabled in cols ==> FieldNamed(cols, fields, enabled) == Some(Ascii("1")))
    && (rrType in cols && rrTypes.Some? ==>
          FieldNamed(cols, fields, rrType).Some? && FieldNamed(cols, fields, rrType).value in rrTypes.value)
  }

  lemma {:induction false} FieldNamedIsIndexed(cols: seq<Bytes>, fields: seq<Bytes>, name: Bytes)
    ensures var i := IndexOf(cols, name);
      FieldNamed(cols, fields, name) == if 0 <= i < |fields| then Some(fields[i]) else None
  {
    if cols != [] && fields != [] && cols[0] != name {
      FieldNamedIsIndexed(cols[1..], fields[1..], name);
    }
  }

  lemma {:induction false} AcceptsIffPasses(cols: seq<Bytes>, rrTypes: Option<set<Bytes>>, fields: seq<Bytes>)
    ensures Accepts(FilterOf(cols, rrTypes), fields) <==> Passes(cols, rrTypes, fields)
  {
    ColumnNames();
    hide Ascii;
    FieldNamedIsIndexed(cols, fields, ROW_ENABLED);
    FieldNamedIsIndexed(cols, fields, RR_TYPE_ID);
    IndexOfNone(cols, ROW_ENABLED);
    IndexOfNone(cols, RR_TYPE_ID);
  }

  lemma {:induction false} CountCongruent(rows: seq<seq<Bytes>>, p: seq<Bytes> -> bool, q: seq<Bytes> -> bool)
    requires forall r | r in rows :: p(r) == q(r)
    ensures CountAccepted(rows, p) == CountAccepted(rows, q)
  {
    if rows != [] {
      CountCongruent(rows[1..], p, q);
    }
  }

  // ------------------------------------------------------------ the COPY statement

  /** A column name that needs no quoting for this parser. */
  predicate PlainName(c: Bytes)
  {
    c != [] && !Space(c[0]) && !Space(c[|c| - 1]) && Unpunctuated(c)
  }

  predicate Unpunctuated(c: Bytes) { 40 !in c && 41 !in c && 44 !in c }

  const SPACE: Byte := 32

  /** Names of lower-case letters, digits and underscores need no quoting. */
  lemma {:induction false} OrdinaryNamesArePlain(c: Bytes)
    requires c != [] && forall b | b in c :: 97 <= b <= 122 || 48 <= b <= 57 || b == 95
    ensures PlainName(c)
  {
    assert c[0] in c && c[|c| - 1] in c;
  }

  function JoinColumns(cols: seq<Bytes>): Bytes
  {
    if cols == [] then [] else if |cols| == 1 then cols[0] else cols[0] + ([44, 32] + JoinColumns(cols[1..]))
  }

  /** COPY table (a, b, c) FROM stdin; with `head` and `tail` around the list. */
  function PrintCopy(head: Bytes, cols: seq<Bytes>, tail: Bytes): Bytes
  {
    head + [40] + (JoinColumns(cols) + [41] + tail)
  }

  lemma {:induction false} SplitUnpunctuated(c: Bytes, s: Bytes, part: Bytes)
    requires Unpunctuated(c)
    ensures SplitFrom(c + s, 0, part) == SplitFrom(s, 0, part + c)
  {
    if c == [] {
      assert c + s == s && part + c == part;
    } else {
      assert (c + s)[1..] == c[1..] + s && part + [c[0]] + c[1..] == part + c;
      SplitUnpunctuated(c[1..], s, part + [c[0]]);
    }
  }

  function Spaced(cols: seq<Bytes>): seq<Bytes> { seq(|cols|, i requires 0 <= i < |cols| => [SPACE] + cols[i]) }

  lemma {:induction false} SplitPrinted(cols: seq<Bytes>, part: Bytes)
    requires cols != [] && forall c | c in cols :: Unpunctuated(c)
    ensures SplitFrom(JoinColumns(cols), 0, part) == [part + cols[0]] + Spaced(cols[1..])
  {
    if |cols| == 1 {
      assert cols[0] + [] == cols[0];
      SplitUnpunctuated(cols[0], [], part);
      assert Spaced(cols[1..]) == [];
    } else {
      var more := cols[1..];
      var after := [COMMA, SPACE] + JoinColumns(more);
      SplitUnpunctuated(cols[0], after, part);
      assert after[1..] == [SPACE] + JoinColumns(more);
      SplitUnpunctuated([SPACE], JoinColumns(more), []);
      assert [] + [SPACE] == [SPACE];
      SplitPrinted(more, [SPACE]);
      assert [part + cols[0]] + ([[SPACE] + more[0]] + Spaced(more[1..])) == [part + cols[0]] + Spaced(more);
    }
  }

  lemma {:induction false} TrimPlain(c: Bytes)
    requires PlainName(c)
    ensures TrimSpace(c) == c && TrimSpace([SPACE] + c) == c
  {
    assert ([SPACE] + c)[1..] == c;
  }

  lemma {:induction false} TrimNone()
    ensures TrimAll([]) == []
  {
  }

  lemma {:induction false} TrimAllSnoc(parts: seq<Bytes>, x: Bytes)
    requires TrimSpace(x) != []
    ensures TrimAll(parts + [x]) == TrimAll(parts) + [TrimSpace(x)]
  {
    assert (parts + [x])[..|parts|] == parts;
  }

  lemma {:induction false} TrimPrinted(first: Bytes, more: seq<Bytes>)
    requires PlainName(first) && forall c | c in more :: PlainName(c)
    ensures TrimAll([first] + Spaced(more)) == [first] + more
  {
    hide TrimAll, TrimSpace;
    if more == [] {
      TrimPlain(first);
      TrimAllSnoc([], first);
      TrimNone();
      assert [first] + Spaced(more) == [] + [first];
    } else {
      var n := |more| - 1;
      TrimPrinted(first, more[..n]);
      assert PlainName(more[n]);
      TrimPlain(more[n]);
      TrimAllSnoc([first] + Spaced(more[..n]), [SPACE] + more[n]);
      assert [first] + Spaced(more) == [first] + Spaced(more[..n]) + [[SPACE] + more[n]];
      assert [first] + more == [first] + more[..n] + [more[n]];
    }
  }

  lemma {:induction false} JoinedIsOpen(cols: seq<Bytes>)
    requires forall c | c in cols :: Unpunctuated(c)
    ensures CLOSE !in JoinColumns(cols)
  {
    if cols != [] {
      assert Unpunctuated(cols[0]);
      JoinedIsOpen(cols[1..]);
    }
  }

  /** The columns of a printed COPY statement are found again, in order. */
  lemma {:induction false} ColumnsOfPrinted(head: Bytes, cols: seq<Bytes>, tail: Bytes)
    requires OPEN !in head && forall c | c in cols :: PlainName(c)
    ensures Columns(PrintCopy(head, cols, tail)) == cols
  {
    var list := JoinColumns(cols);
    var stmt := PrintCopy(head, cols, tail);
    var after := list + [CLOSE] + tail;
    IndexByteAt(head, OPEN, after);
    assert stmt[|head| + 1..] == after;
    forall c | c in cols
      ensures Unpunctuated(c)
    {
      assert PlainName(c);
    }
    JoinedIsOpen(cols);
    IndexByteAt(list, CLOSE, tail);
    assert after[..|list|] == list;
    if cols == [] {
      var parts: seq<Bytes> := [[]];
      assert SplitFrom([], 0, []) == parts && parts[..0] == [] && TrimAll([]) == [];
    } else {
      SplitPrinted(cols, []);
      assert [] + cols[0] == cols[0];
      assert PlainName(cols[0]);
      TrimPrinted(cols[0], cols[1..]);
      assert cols == [cols[0]] + cols[1..];
    }
  }

  // ------------------------------------------------------------ the main theorem

  /** With a printed COPY statement and a raw data block, cut into chunks in any way, the count is
      the number of rows whose named columns pass. */
  lemma {:induction false} CountsPassingRows(archive: Bytes, entry: TocEntry, inflate: Inflate, head: Bytes,
                                             cols: seq<Bytes>, tail: Bytes,
                                             rows: seq<seq<Bytes>>, terminated: bool, chunks: seq<Bytes>,
                                               rrTypes: Option<set<Bytes>>)
    requires entry.copyStmt == PrintCopy(head, cols, tail) && OPEN !in head && forall c | c in cols :: PlainName(c)
    requires forall r | r in rows :: Row(r)
    requires entry.comprAlgo == RAW && HoldsBlock(archive, entry, chunks) && forall c | c in chunks :: ChunkFits(c)
    requires Flatten(chunks) == Text(rows, terminated)
    ensures TableRows(archive, entry, 0, FilterOf(Columns(entry.copyStmt), rrTypes), inflate)
            == Ok(CountAccepted(rows, fields => Passes(cols, rrTypes, fields)))
  {
    hide Columns, HoldsBlock, PrintCopy, TableRows, Row, PlainName, FilterOf;
    var cf := FilterOf(cols, rrTypes);
    ColumnsOfPrinted(head, cols, tail);
    ChunkingIsIrrelevant(archive, entry, 0, cf, inflate, chunks, chunks);
    CountsRows(rows, terminated, cf);
    forall fields | fields in rows
      ensures Accepts(cf, fields) == Passes(cols, rrTypes, fields)
    {
      AcceptsIffPasses(cols, rrTypes, fields);
    }
    CountCongruent(rows, fields => Accepts(cf, fields), fields => Passes(cols, rrTypes, fields));
  }
}
