/** Both object parsers deliver the same property maps for every printed object list: the byte scanner
    on the lines of the text, the token parser on what a decoder makes of it. */
module XmlRefinement {
  import opened Base
  import opened XmlEntities
  import opened XmlStream

  /** One line of an object: indentation and the properties printed on it. */
  datatype Row = Row(indent: string, props: seq<Prop>)

  /** A document is a list of objects, each spread over one or more lines of its own, and of other
      lines whose elements are not objects. */
  datatype Item = Noise(text: string, tokens: seq<Token>) | Object(rows: seq<Row>)

  // ------------------------------------------------------------- printing

  function PrintProp(p: Prop): string
  {
    "<PROPERTY " + NAME_TAG + p.name + "\"" + BehindName(p)
  }

  function PrintProps(ps: seq<Prop>): string
  {
    if ps == [] then "" else PrintProp(ps[0]) + PrintProps(ps[1..])
  }

  function PrintRow(row: Row, first: bool, last: bool): string
  {
    row.indent + (if first then OBJECT_OPEN else "") + PrintProps(row.props) + (if last then OBJECT_END else "")
  }

  function PrintRows(rows: seq<Row>, first: bool): seq<string>
  {
    if rows == [] then [] else [PrintRow(rows[0], first, |rows| == 1)] + PrintRows(rows[1..], false)
  }

  /** The lines of a document. */
  function PrintDoc(doc: seq<Item>): seq<string>
  {
    if doc == [] then []
    else PrintDoc(doc[..|doc| - 1])
         + match doc[|doc| - 1] { case Noise(text, _) => [text] case Object(rows) => PrintRows(rows, true) }
  }

  /** The text of lines, each ended by a line feed or by a carriage return and a line feed. */
  function JoinLines(lines: seq<string>, crlf: seq<bool>): string
    requires |crlf| == |lines|
  {
    if lines == [] then "" else lines[0] + ((if crlf[0] then "\r\n" else "\n") + JoinLines(lines[1..], crlf[1..]))
  }

  // ------------------------------------------------------------- the decoder

  /** Characters of an XML document (section 2.2 of XML 1.0); the decoder refuses any other. */
  predicate XmlChar(c: char)
  {
    var n := c as int;
    n == 9 || n == 10 || n == 13 || 0x20 <= n < 0xD800 || 0xE000 <= n < 0xFFFE || n >= 0x1_0000
  }

  /** Tabs and line ends are legal, and so is printable ASCII; other control characters are not. */
  lemma {:induction false} LegalAscii(c: char)
    requires c as int < 0x7F
    ensures XmlChar(c) <==> c == '\t' || c == '\n' || c == '\r' || c >= ' '
  {
  }

  predicate LegalText(s: string) { forall c | c in s :: XmlChar(c) }

  /** Line ends as the decoder reads them (section 2.11 of XML 1.0): a carriage return, with or
      without a line feed behind it, is a line feed. */
  function LineEnds(s: string): string
  {
    if s == "" then ""
    else if s[0] != '\r' then [s[0]] + LineEnds(s[1..])
    else "\n" + LineEnds(if |s| > 1 && s[1] == '\n' then s[2..] else s[1..])
  }

  function DecoderValue(raw: string): string { Decode(LineEnds(raw)) }

  function PropToken(p: Prop): Token
  {
    StartElement("PROPERTY", [Attr("NAME", DecoderValue(p.name)), Attr("VALUE", DecoderValue(Escape(p.value)))])
  }

  predicate LegalProp(p: Prop) { LegalText(p.name) && LegalText(p.value) }

  predicate LegalProps(ps: seq<Prop>) { forall p | p in ps :: LegalProp(p) }

  function PropTokens(ps: seq<Prop>): seq<Token>
  {
    if ps == [] then []
    else PropTokens(ps[..|ps| - 1])
         + [PropToken(ps[|ps| - 1]), EndElement("PROPERTY")]
  }

  /** The longest beginning without an illegal character. */
  function LegalPrefix(ps: seq<Prop>): (r: seq<Prop>)
  {
    if ps == [] || !LegalProp(ps[0]) then [] else [ps[0]] + LegalPrefix(ps[1..])
  }

  function ObjectTokens(ps: seq<Prop>): seq<Token>
  {
    [StartElement("OBJECT", [])] + PropTokens(ps) + [EndElement("OBJECT")]
  }

  /** The tokens of an item, up to the first illegal character if there is any. */
  function DecodeItem(item: Item): Decoded
  {
    match item
    case Noise(_, tokens) => Decoded(tokens, false)
    case Object(rows) =>
      var ps := PropsOf(rows);
      if LegalProps(ps) then Decoded(ObjectTokens(ps), false)
      else Decoded([StartElement("OBJECT", [])] + PropTokens(LegalPrefix(ps)), true)
  }

  function DecodeDoc(doc: seq<Item>): Decoded
  {
    if doc == [] then Decoded([], false)
    else
      var before, last := DecodeDoc(doc[..|doc| - 1]), DecodeItem(doc[|doc| - 1]);
      if before.broken then before else Decoded(before.tokens + last.tokens, last.broken)
  }

  predicate LegalItem(item: Item) { item.Object? ==> LegalProps(PropsOf(item.rows)) }

  predicate LegalDoc(doc: seq<Item>) { forall item | item in doc :: LegalItem(item) }

  function PropsOf(rows: seq<Row>): seq<Prop>
  {
    if rows == [] then [] else rows[0].props + PropsOf(rows[1..])
  }

  predicate PlainText(s: string) { forall c | c in s :: Plain(c) }

  /** A name without markup, line ends or illegal characters. */
  predicate PlainName(s: string) { PlainText(s) && '\n' !in s && '\r' !in s && LegalText(s) }

  predicate GoodRow(row: Row)
  {
    && (forall c | c in row.indent :: c == ' ' || c == '\t')
    && forall p | p in row.props :: PlainName(p.name)
  }

  /** Other lines hold no object markers; they are single lines that the decoder accepts. */
  predicate GoodItem(item: Item)
  {
    match item
    case Noise(text, tokens) =>
      && '\n' !in text && DropCR(text) == text
      && !Contains(text, OBJECT_OPEN) && !Contains(text, OBJECT_END)
      && forall t | t in tokens :: !t.OtherToken? ==> t.name != "OBJECT"
    case Object(rows) => rows != [] && forall row | row in rows :: GoodRow(row)
  }

  predicate GoodDoc(doc: seq<Item>) { forall item | item in doc :: GoodItem(item) }

  /** No value holds a line feed. */
  predicate OneLineProps(ps: seq<Prop>) { forall p | p in ps :: '\n' !in p.value }

  predicate OneLineItem(item: Item) { item.Object? ==> OneLineProps(PropsOf(item.rows)) }

  predicate OneLineDoc(doc: seq<Item>) { forall item | item in doc :: OneLineItem(item) }

  // ------------------------------------------------------------- reference

  /** The buffer after reading `ps` in order: reading stops at the first rejected type. */
  function Collect(ps: seq<Prop>, buf: seq<Prop>, filter: Filter): (seq<Prop>, bool)
  {
    if ps == [] then (buf, false)
    else if Rejected(ps[0], filter) then (buf, true)
    else Collect(ps[1..], Keep(buf, ps[0]), filter)
  }

  /** What is delivered for one object: nothing if its type is rejected or no property has a name. */
  function Deliver(ps: seq<Prop>, filter: Filter): seq<map<string, string>>
  {
    var (buf, skip) := Collect(ps, [], filter);
    if skip || buf == [] then [] else [ToMap(buf)]
  }

  /** How a parser reads a printed property. */
  type Reading = Prop -> Prop

  function ReadAll(read: Reading, ps: seq<Prop>): seq<Prop>
  {
    if ps == [] then [] else [read(ps[0])] + ReadAll(read, ps[1..])
  }

  function DeliverDoc(doc: seq<Item>, read: Reading, filter: Filter): seq<map<string, string>>
  {
    if doc == [] then []
    else DeliverDoc(doc[..|doc| - 1], read, filter)
         + match doc[|doc| - 1] {
             case Noise(_, _) => []
             case Object(rows) => Deliver(ReadAll(read, PropsOf(rows)), filter)
           }
  }

  /** A property as the byte scanner reads it back. */
  function Seen(p: Prop): Prop { Prop(p.name, DecodeXMLEntities(Escape(p.value))) }

  /** A property as the token parser reads it. */
  function Ended(p: Prop): Prop { Prop(p.name, LineEnds(p.value)) }

  lemma {:induction false} CollectAppend(a: seq<Prop>, b: seq<Prop>, buf: seq<Prop>, filter: Filter)
    ensures var (mid, skip) := Collect(a, buf, filter);
      Collect(a + b, buf, filter) == if skip then (mid, true) else Collect(b, mid, filter)
  {
    if a == [] {
      assert a + b == b;
    } else {
      assert (a + b)[1..] == a[1..] + b;
      if !Rejected(a[0], filter) {
        CollectAppend(a[1..], b, Keep(buf, a[0]), filter);
      }
    }
  }

  lemma {:induction false} ReadAppend(read: Reading, a: seq<Prop>, b: seq<Prop>)
    ensures ReadAll(read, a + b) == ReadAll(read, a) + ReadAll(read, b)
  {
    if a == [] {
      assert a + b == b;
    } else {
      assert (a + b)[1..] == a[1..] + b;
      ReadAppend(read, a[1..], b);
    }
  }

  // ------------------------------------------------------------- the byte scanner on printed lines

  lemma {:induction false} EscapeHasNoMarkup(raw: string)
    ensures '"' !in Escape(raw) && '<' !in Escape(raw)
  {
    if raw != [] {
      EscapeHasNoMarkup(raw[1..]);
    }
  }

  lemma {:induction false} QuotedBehind(pre: string, tag: string, text: string, post: string)
    requires tag != [] && tag[|tag| - 1] == '"' && '"' !in tag[..|tag| - 1]
    requires '"' !in pre && '"' !in text
    ensures Quoted(pre + tag + text + "\"" + post, tag) == Some((text, post))
  {
    var s := pre + tag + text + "\"" + post;
    assert s == pre + tag + (text + "\"" + post);
    IndexBehind(pre, tag, text + "\"" + post);
    var from := s[|pre| + |tag|..];
    assert from == text + "\"" + post;
    IndexBehind(text, "\"", post);
    assert from[..|text|] == text && from[|text| + 1..] == post;
  }

  function BehindName(p: Prop): string { " " + VAL_TAG + Escape(p.value) + "\"" + "/>" }

  lemma {:induction false} Regroup(a: string, b: string, c: string, d: string, e: string, f: string, g: string)
    ensures a + (b + c + d + e + f) + g == (a + b) + c + d + e + (f + g)
  {
  }

  lemma {:induction false} RegroupRow(a: string, b: string, c: string, d: string)
    ensures a + b + c + d == a + b + (c + d)
    ensures b == "" ==> a + b + c + d == a + c + d
    ensures a + b + c + d == (a + b + c) + d + ""
    ensures d == "" ==> a + b + c + d == a + b + c
  {
  }

  lemma {:induction false} NameQuoted(pre: string, p: Prop, post: string)
    requires '"' !in pre && PlainText(p.name)
    ensures Quoted(pre + PrintProp(p) + post, NAME_TAG) == Some((p.name, BehindName(p) + post))
  {
    var front, back := pre + "<PROPERTY ", BehindName(p) + post;
    QuotedBehind(front, NAME_TAG, p.name, back);
    Regroup(pre, "<PROPERTY ", NAME_TAG, p.name, "\"", BehindName(p), post);
  }

  lemma {:induction false} ValueQuoted(p: Prop, post: string)
    ensures Quoted(BehindName(p) + post, VAL_TAG) == Some((Escape(p.value), "/>" + post))
  {
    EscapeHasNoMarkup(p.value);
    QuotedBehind(" ", VAL_TAG, Escape(p.value), "/>" + post);
    assert BehindName(p) + post == " " + VAL_TAG + Escape(p.value) + "\"" + ("/>" + post);
  }

  lemma {:induction false} NextPairPrinted(pre: string, p: Prop, post: string)
    requires '"' !in pre && PlainText(p.name)
    ensures NextPair(pre + PrintProp(p) + post) == Some((Seen(p), "/>" + post))
  {
    NameQuoted(pre, p, post);
    ValueQuoted(p, post);
    DecodeSeen(p);
  }

  lemma {:induction false} DecodeSeen(p: Prop)
    ensures DecodeValue(Escape(p.value)) == Seen(p).value
  {
    if '&' !in Escape(p.value) {
      NoAmpersandNoChange(Escape(p.value));
    }
  }

  lemma {:induction false} NextPairNowhere(s: string)
    requires '"' !in s
    ensures NextPair(s).None?
  {
    IndexNowhere(s, NAME_TAG);
  }

  /** Extraction from a printed line reads back its properties. */
  lemma {:induction false} ExtractPrinted(pre: string, ps: seq<Prop>, post: string, buf: seq<Prop>, filter: Filter)
    requires '"' !in pre && '"' !in post && forall p | p in ps :: PlainText(p.name)
    ensures Extract(pre + PrintProps(ps) + post, buf, filter) == Collect(ReadAll(Seen, ps), buf, filter)
    decreases |ps|
  {
    hide NextPair, PrintProp, Seen, PlainText;
    var s := pre + PrintProps(ps) + post;
    if ps == [] {
      assert s == pre + post;
      NextPairNowhere(s);
    } else {
      var after := PrintProps(ps[1..]) + post;
      assert s == pre + PrintProp(ps[0]) + after;
      NextPairPrinted(pre, ps[0], after);
      assert "/>" + after == "/>" + PrintProps(ps[1..]) + post;
      ExtractPrinted("/>", ps[1..], post, Keep(buf, Seen(ps[0])), filter);
      assert ReadAll(Seen, ps)[0] == Seen(ps[0]) && ReadAll(Seen, ps)[1..] == ReadAll(Seen, ps[1..]);
    }
  }

  /** No '<' is followed by `c`. */
  predicate Tame(s: string, c: char)
  {
    forall i | 0 <= i < |s| && s[i] == '<' :: i + 1 < |s| && s[i + 1] != c
  }

  lemma {:induction false} TameAppend(a: string, b: string, c: char)
    requires Tame(a, c) && Tame(b, c)
    ensures Tame(a + b, c)
  {
    var s := a + b;
    forall i | 0 <= i < |s| && s[i] == '<'
      ensures i + 1 < |s| && s[i + 1] != c
    {
      if i >= |a| {
        assert s[i] == b[i - |a|];
      }
    }
  }

  lemma {:induction false} TameText(s: string, c: char)
    requires '<' !in s
    ensures Tame(s, c)
  {
  }

  lemma {:induction false} TameProp(p: Prop, c: char)
    requires PlainText(p.name) && c != 'P'
    ensures Tame(PrintProp(p), c)
  {
    EscapeHasNoMarkup(p.value);
    assert Tame("<PROPERTY ", c);
    var rest := NAME_TAG + p.name + "\"" + BehindName(p);
    assert '<' !in NAME_TAG && '<' !in VAL_TAG && '<' !in p.name;
    assert '<' !in BehindName(p);
    TameText(rest, c);
    TameAppend("<PROPERTY ", rest, c);
    assert PrintProp(p) == "<PROPERTY " + rest;
  }

  lemma {:induction false} TameProps(ps: seq<Prop>, c: char)
    requires c != 'P' && forall p | p in ps :: PlainText(p.name)
    ensures Tame(PrintProps(ps), c)
  {
    if ps != [] {
      TameProp(ps[0], c);
      TameProps(ps[1..], c);
      TameAppend(PrintProp(ps[0]), PrintProps(ps[1..]), c);
    }
  }

  lemma {:induction false} StartsWithTwo(s: string, p: string)
    requires |p| >= 2
    ensures StartsWith(s, p) ==> |s| >= 2 && s[0] == p[0] && s[1] == p[1]
  {
    if StartsWith(s, p) {
      assert s[..|p|][0] == s[0] && s[..|p|][1] == s[1];
    }
  }

  lemma {:induction false} TameContainsNo(s: string, p: string)
    requires |p| >= 2 && p[0] == '<' && Tame(s, p[1])
    ensures !Contains(s, p)
  {
    StartsWithTwo(s, p);
    if s != [] {
      assert forall i | 0 <= i < |s[1..]| :: s[1..][i] == s[i + 1];
      TameContainsNo(s[1..], p);
    }
  }

  lemma {:induction false} ContainsMiddle(a: string, p: string, b: string)
    ensures Contains(a + p + b, p)
  {
    var s := a + p + b;
    if a == [] {
      assert s[..|p|] == p;
    } else {
      assert s[1..] == a[1..] + p + b;
      ContainsMiddle(a[1..], p, b);
    }
  }

  lemma {:induction false} TameThree(a: string, b: string, d: string, p: string)
    requires |p| >= 2 && p[0] == '<' && Tame(a, p[1]) && Tame(b, p[1]) && Tame(d, p[1])
    ensures !Contains(a + b + d, p)
  {
    TameAppend(a, b, p[1]);
    TameAppend(a + b, d, p[1]);
    TameContainsNo(a + b + d, p);
  }

  lemma {:induction false} IndentIsPlain(row: Row)
    requires GoodRow(row)
    ensures '"' !in row.indent && '<' !in row.indent && forall p | p in row.props :: PlainText(p.name)
  {
    forall p | p in row.props
      ensures PlainText(p.name)
    {
      assert PlainName(p.name);
    }
  }

  lemma {:induction false} OpenMarkerOfRow(row: Row, first: bool, last: bool)
    requires GoodRow(row)
    ensures Contains(PrintRow(row, first, last), OBJECT_OPEN) == first
  {
    IndentIsPlain(row);
    var mid, end := PrintProps(row.props), if last then OBJECT_END else "";
    if first {
      ContainsMiddle(row.indent, OBJECT_OPEN, mid + end);
      RegroupRow(row.indent, OBJECT_OPEN, mid, end);
    } else {
      TameText(row.indent, 'O');
      TameProps(row.props, 'O');
      assert Tame(end, 'O');
      TameThree(row.indent, mid, end, OBJECT_OPEN);
      RegroupRow(row.indent, "", mid, end);
    }
  }

  lemma {:induction false} EndMarkerOfRow(row: Row, first: bool, last: bool)
    requires GoodRow(row)
    ensures Contains(PrintRow(row, first, last), OBJECT_END) == last
  {
    IndentIsPlain(row);
    var open, mid := if first then OBJECT_OPEN else "", PrintProps(row.props);
    if last {
      ContainsMiddle(row.indent + open + mid, OBJECT_END, "");
      RegroupRow(row.indent, open, mid, OBJECT_END);
    } else {
      TameText(row.indent, '/');
      TameProps(row.props, '/');
      assert Tame(open, '/');
      TameThree(row.indent, open, mid, OBJECT_END);
      RegroupRow(row.indent, open, mid, "");
    }
  }

  lemma {:induction false} ExtractRow(row: Row, first: bool, last: bool, buf: seq<Prop>, filter: Filter)
    requires GoodRow(row)
    ensures Extract(PrintRow(row, first, last), buf, filter) == Collect(ReadAll(Seen, row.props), buf, filter)
  {
    IndentIsPlain(row);
    var pre := row.indent + (if first then OBJECT_OPEN else "");
    var post := if last then OBJECT_END else "";
    assert '"' !in OBJECT_OPEN && '"' !in OBJECT_END;
    ExtractPrinted(pre, row.props, post, buf, filter);
    assert PrintRow(row, first, last) == pre + PrintProps(row.props) + post;
  }

  lemma {:induction false} FastLinesAppend(st: FastState, a: seq<string>, b: seq<string>, filter: Filter)
    ensures var (mid, out) := FastLines(st, a, filter);
      FastLines(st, a + b, filter) == (FastLines(mid, b, filter).0, out + FastLines(mid, b, filter).1)
  {
    var (mid, out) := FastLines(st, a, filter);
    if b == [] {
      assert a + b == a && out + [] == out;
    } else {
      assert (a + b)[..|a + b| - 1] == a + b[..|b| - 1];
      FastLinesAppend(st, a, b[..|b| - 1], filter);
      var (last, more) := FastLines(mid, b[..|b| - 1], filter);
      var x := FastLine(last, b[|b| - 1], filter).1;
      assert (out + more) + x == out + (more + x);
    }
  }

  lemma {:induction false} FastOneLine(st: FastState, line: string, filter: Filter)
    ensures FastLines(st, [line], filter) == FastLine(st, line, filter)
  {
    assert [line][..0] == [];
    assert [] + FastLine(st, line, filter).1 == FastLine(st, line, filter).1;
  }

  /** What the open object delivers at its end marker. */
  function Finish(st: FastState, ps: seq<Prop>, filter: Filter): seq<map<string, string>>
  {
    if st.skip then []
    else
      var (buf, skip) := Collect(ps, st.buf, filter);
      if skip || buf == [] then [] else [ToMap(buf)]
  }

  lemma {:induction false} FastRows(st: FastState, rows: seq<Row>, first: bool, filter: Filter)
    requires rows != [] && forall row | row in rows :: GoodRow(row)
    requires first || st.inObject
    ensures var (end, out) := FastLines(st, PrintRows(rows, first), filter);
      && !end.inObject
      && out == Finish(if first then FastState(true, false, []) else st, ReadAll(Seen, PropsOf(rows)), filter)
    decreases |rows|
  {
    hide Extract, Contains, PrintRow, GoodRow, Seen;
    var row, last := rows[0], |rows| == 1;
    var line := PrintRow(row, first, last);
    var st0 := if first then FastState(true, false, []) else st;
    OpenMarkerOfRow(row, first, last);
    EndMarkerOfRow(row, first, last);
    ExtractRow(row, first, last, st0.buf, filter);
    FastLinesAppend(st, [line], PrintRows(rows[1..], false), filter);
    FastOneLine(st, line, filter);
    ReadAppend(Seen, row.props, PropsOf(rows[1..]));
    CollectAppend(ReadAll(Seen, row.props), ReadAll(Seen, PropsOf(rows[1..])), st0.buf, filter);
    if last {
      assert PropsOf(rows[1..]) == [] && row.props + [] == row.props;
    } else {
      FastRows(FastLine(st, line, filter).0, rows[1..], false, filter);
    }
  }

  lemma {:induction false} FastLinesDeliver(doc: seq<Item>, filter: Filter)
    requires GoodDoc(doc)
    ensures var (st, out) := FastLines(FAST_START, PrintDoc(doc), filter);
      !st.inObject && out == DeliverDoc(doc, Seen, filter)
  {
    if doc != [] {
      var before, item := doc[..|doc| - 1], doc[|doc| - 1];
      assert item in doc;
      FastLinesDeliver(before, filter);
      var st := FastLines(FAST_START, PrintDoc(before), filter).0;
      match item
      case Noise(text, _) =>
        FastLinesAppend(FAST_START, PrintDoc(before), [text], filter);
        FastOneLine(st, text, filter);
      case Object(rows) =>
        FastLinesAppend(FAST_START, PrintDoc(before), PrintRows(rows, true), filter);
        FastRows(st, rows, true, filter);
    }
  }

  // ------------------------------------------------------------- the lines of a printed text

  predicate IsLine(s: string) { '\n' !in s && DropCR(s) == s }

  lemma {:induction false} FirstBreakAt(a: string, b: string)
    requires '\n' !in a
    ensures FirstBreak(a + "\n" + b) == |a| && FirstBreak(a) == |a|
  {
    var s := a + "\n" + b;
    if a != "" {
      assert s[1..] == a[1..] + "\n" + b;
      FirstBreakAt(a[1..], b);
    }
  }

  lemma {:induction false} ScanFirst(a: string, b: string)
    requires '\n' !in a
    ensures ScanLines(a + "\n" + b) == [DropCR(a)] + ScanLines(b)
  {
    hide DropCR;
    FirstBreakAt(a, b);
    var s := a + "\n" + b;
    assert s[..|a|] == a && s[|a| + 1..] == b;
    assert FirstLine(s) == DropCR(a) && Rest(s) == b;
  }

  lemma {:induction false} DropAdded(a: string)
    ensures DropCR(a + "\r") == a
  {
  }

  lemma {:induction false} ScanEnded(line: string, crlf: bool, rest: string)
    requires IsLine(line)
    ensures ScanLines(line + ((if crlf then "\r\n" else "\n") + rest)) == [line] + ScanLines(rest)
  {
    hide DropCR, ScanLines;
    if crlf {
      ScanFirst(line + "\r", rest);
      DropAdded(line);
      assert line + ("\r\n" + rest) == line + "\r" + "\n" + rest;
    } else {
      ScanFirst(line, rest);
      assert line + ("\n" + rest) == line + "\n" + rest;
    }
  }

  /** Splitting a joined text gives the lines back, whichever way each of them ends. */
  lemma {:induction false} ScanJoined(lines: seq<string>, crlf: seq<bool>)
    requires |crlf| == |lines| && forall line | line in lines :: IsLine(line)
    ensures ScanLines(JoinLines(lines, crlf)) == lines
  {
    if lines != [] {
      hide ScanLines, IsLine;
      ScanEnded(lines[0], crlf[0], JoinLines(lines[1..], crlf[1..]));
      ScanJoined(lines[1..], crlf[1..]);
      assert [lines[0]] + lines[1..] == lines;
    }
  }

  /** A character that entity references neither use nor stand for. */
  predicate Neutral(c: char)
  {
    c !in "&amp;lt;gt;quot;apos;" && c !in "<>\"'"
  }

  lemma {:induction false} EscapedChar(d: char, c: char)
    requires Neutral(c)
    ensures c in EscapeChar(d) <==> c == d
  {
    if !Plain(d) {
      assert c !in Reference(EntityOf(d));
    }
  }

  lemma {:induction false} EscapeKeeps(v: string, c: char)
    requires Neutral(c)
    ensures c in Escape(v) <==> c in v
  {
    if v != "" {
      EscapeKeeps(v[1..], c);
      EscapedChar(v[0], c);
      assert v == [v[0]] + v[1..];
    }
  }

  predicate EndsProp(s: string) { s != "" && s[|s| - 1] == '>' }

  lemma {:induction false} PropIsOneLine(p: Prop)
    requires PlainName(p.name) && '\n' !in p.value
    ensures '\n' !in PrintProp(p) && EndsProp(PrintProp(p))
  {
    EscapeKeeps(p.value, '\n');
    hide Escape;
    assert '\n' !in "<PROPERTY " && '\n' !in NAME_TAG && '\n' !in VAL_TAG;
    assert '\n' !in BehindName(p);
    EndsWith(" " + VAL_TAG + Escape(p.value) + "\"", "/>");
    EndsWith("<PROPERTY " + NAME_TAG + p.name + "\"", BehindName(p));
  }

  lemma {:induction false} PropsAreOneLine(ps: seq<Prop>)
    requires OneLineProps(ps) && forall p | p in ps :: PlainName(p.name)
    ensures '\n' !in PrintProps(ps) && (ps != [] ==> EndsProp(PrintProps(ps)))
  {
    if ps != [] {
      hide PrintProp, PlainName;
      PropIsOneLine(ps[0]);
      PropsAreOneLine(ps[1..]);
      if ps[1..] == [] {
        assert PrintProps(ps) == PrintProp(ps[0]);
      } else {
        EndsWith(PrintProp(ps[0]), PrintProps(ps[1..]));
      }
    }
  }

  lemma {:induction false} EndsWith(a: string, b: string)
    requires b != ""
    ensures (a + b)[|a + b| - 1] == b[|b| - 1]
  {
  }

  lemma {:induction false} RowIsLine(row: Row, first: bool, last: bool)
    requires GoodRow(row) && OneLineProps(row.props)
    ensures IsLine(PrintRow(row, first, last))
  {
    PropsAreOneLine(row.props);
    var line := PrintRow(row, first, last);
    assert '\n' !in OBJECT_OPEN && '\n' !in OBJECT_END && '\n' !in line;
    var head := row.indent + (if first then OBJECT_OPEN else "");
    if last {
      EndsWith(head + PrintProps(row.props), OBJECT_END);
    } else if row.props != [] {
      assert line == head + PrintProps(row.props);
      EndsWith(head, PrintProps(row.props));
    } else {
      assert line == head;
      EndsWith(row.indent, OBJECT_OPEN);
      assert !first ==> line == row.indent && (line != "" ==> line[|line| - 1] in row.indent);
    }
  }

  lemma {:induction false} RowsAreLines(rows: seq<Row>, first: bool)
    requires (forall row | row in rows :: GoodRow(row)) && OneLineProps(PropsOf(rows))
    ensures forall line | line in PrintRows(rows, first) :: IsLine(line)
  {
    if rows != [] {
      var row := rows[0];
      forall p | p in row.props
        ensures '\n' !in p.value
      {
        assert p in PropsOf(rows);
      }
      forall p | p in PropsOf(rows[1..])
        ensures '\n' !in p.value
      {
        assert p in PropsOf(rows);
      }
      RowIsLine(row, first, |rows| == 1);
      RowsAreLines(rows[1..], false);
    }
  }

  lemma {:induction false} DocIsLines(doc: seq<Item>)
    requires GoodDoc(doc) && OneLineDoc(doc)
    ensures forall line | line in PrintDoc(doc) :: IsLine(line)
  {
    if doc != [] {
      var item := doc[|doc| - 1];
      assert item in doc && GoodItem(item) && OneLineItem(item);
      DocIsLines(doc[..|doc| - 1]);
      if item.Object? {
        RowsAreLines(item.rows, true);
      }
    }
  }

  /** The byte scanner delivers, for each object, what its properties read back as. */
  lemma {:induction false} FastDelivers(doc: seq<Item>, crlf: seq<bool>, filter: Filter)
    requires GoodDoc(doc) && OneLineDoc(doc) && |crlf| == |PrintDoc(doc)|
    ensures FastOutcome(JoinLines(PrintDoc(doc), crlf), filter) == Outcome(DeliverDoc(doc, Seen, filter), false)
  {
    DocIsLines(doc);
    ScanJoined(PrintDoc(doc), crlf);
    FastLinesDeliver(doc, filter);
  }

  // ------------------------------------------------------------- the token parser

  lemma {:induction false} XmlTokensAppend(st: FastState, a: seq<Token>, b: seq<Token>, filter: Filter)
    ensures var (mid, out) := XmlTokens(st, a, filter);
      XmlTokens(st, a + b, filter) == (XmlTokens(mid, b, filter).0, out + XmlTokens(mid, b, filter).1)
  {
    var (mid, out) := XmlTokens(st, a, filter);
    if b == [] {
      assert a + b == a && out + [] == out;
    } else {
      assert (a + b)[..|a + b| - 1] == a + b[..|b| - 1];
      XmlTokensAppend(st, a, b[..|b| - 1], filter);
      var (last, more) := XmlTokens(mid, b[..|b| - 1], filter);
      var x := XmlToken(last, b[|b| - 1], filter).1;
      assert (out + more) + x == out + (more + x);
    }
  }

  lemma {:induction false} XmlOneToken(st: FastState, t: Token, filter: Filter)
    ensures XmlTokens(st, [t], filter) == XmlToken(st, t, filter)
  {
    assert [t][..0] == [];
    assert [] + XmlToken(st, t, filter).1 == XmlToken(st, t, filter).1;
  }

  lemma {:induction false} AttributesOfProp(name: string, value: string)
    ensures Attribute([Attr("NAME", name), Attr("VALUE", value)], "NAME") == name
    ensures Attribute([Attr("NAME", name), Attr("VALUE", value)], "VALUE") == value
  {
    var attrs := [Attr("NAME", name), Attr("VALUE", value)];
    assert attrs[..1] == [Attr("NAME", name)];
    assert "NAME"[0] != "VALUE"[0];
  }

  /** Escaping leaves line ends alone. */
  lemma {:induction false} LineEndsSkip(a: string, b: string)
    requires '\r' !in a
    ensures LineEnds(a + b) == a + LineEnds(b)
  {
    if a == "" {
      assert a + b == b;
    } else {
      assert (a + b)[1..] == a[1..] + b;
      LineEndsSkip(a[1..], b);
    }
  }

  lemma {:induction false} EscapedHead(v: string)
    ensures v != "" && v[0] == '\n' ==> Escape(v) == "\n" + Escape(v[1..])
    ensures v == "" || v[0] != '\n' ==> Escape(v) == "" || Escape(v)[0] != '\n'
  {
    if v != "" && !Plain(v[0]) {
      assert Reference(EntityOf(v[0]))[0] == '&';
    }
  }

  lemma {:induction false} EscapeCommutes(v: string)
    ensures LineEnds(Escape(v)) == Escape(LineEnds(v))
    decreases |v|
  {
    if v == "" {
    } else if v[0] != '\r' {
      EscapedChar(v[0], '\r');
      LineEndsSkip(EscapeChar(v[0]), Escape(v[1..]));
      EscapeCommutes(v[1..]);
      assert LineEnds(v)[0] == v[0] && LineEnds(v)[1..] == LineEnds(v[1..]);
    } else {
      var rest := v[1..];
      assert Escape(v) == "\r" + Escape(rest) && Escape(v)[1..] == Escape(rest);
      EscapedHead(rest);
      var after := if |v| > 1 && v[1] == '\n' then v[2..] else rest;
      assert |v| > 1 && v[1] == '\n'
             ==> Escape(rest)[1..] == Escape(after) && Escape(v)[2..] == Escape(after) && rest[1..] == after;
      EscapeCommutes(after);
      assert LineEnds(v)[0] == '\n' && LineEnds(v)[1..] == LineEnds(after);
      assert Escape("\n" + LineEnds(after)) == "\n" + Escape(LineEnds(after));
    }
  }

  lemma {:induction false} NoReturnNoChange(s: string)
    requires '\r' !in s
    ensures LineEnds(s) == s
  {
    LineEndsSkip(s, "");
    assert s + "" == s;
  }

  lemma {:induction false} PlainIsDecoded(s: string)
    requires PlainText(s)
    ensures Decode(s) == s
  {
    PlainPrefix(s, s, ALL);
    assert s[|s|..] == "" && s + "" == s;
  }

  lemma {:induction false} TokenOfProp(p: Prop)
    requires PlainName(p.name)
    ensures PropToken(p) == StartElement("PROPERTY", [Attr("NAME", Ended(p).name), Attr("VALUE", Ended(p).value)])
  {
    NoReturnNoChange(p.name);
    PlainIsDecoded(p.name);
    EscapeCommutes(p.value);
    DecodeEscape(LineEnds(p.value));
  }

  lemma {:induction false} XmlProp(st: FastState, p: Prop, filter: Filter)
    requires st.inObject && PlainName(p.name)
    ensures var (end, out) := XmlTokens(st, [PropToken(p), EndElement("PROPERTY")], filter);
      && out == []
      && end == if st.skip then st else if Rejected(Ended(p), filter) then st.(skip := true)
        else st.(buf := Keep(st.buf, Ended(p)))
  {
    TokenOfProp(p);
    AttributesOfProp(Ended(p).name, Ended(p).value);
    hide DecoderValue;
    assert "PROPERTY"[0] != "OBJECT"[0];
    var mid := XmlToken(st, PropToken(p), filter).0;
    assert [PropToken(p), EndElement("PROPERTY")] == [PropToken(p)] + [EndElement("PROPERTY")];
    XmlTokensAppend(st, [PropToken(p)], [EndElement("PROPERTY")], filter);
    XmlOneToken(st, PropToken(p), filter);
    XmlOneToken(mid, EndElement("PROPERTY"), filter);
  }

  lemma {:induction false} CollectSnoc(ps: seq<Prop>, p: Prop, filter: Filter)
    ensures var (mid, skip) := Collect(ps, [], filter);
      Collect(ps + [p], [], filter)
      == if skip then (mid, true) else if Rejected(p, filter) then (mid, true) else (Keep(mid, p), false)
  {
    CollectAppend(ps, [p], [], filter);
    assert [p][1..] == [];
  }

  lemma {:induction false} XmlPropsSnoc(before: seq<Prop>, p: Prop, filter: Filter)
    ensures var start := FastState(true, false, []);
      var (mid, out) := XmlTokens(start, PropTokens(before), filter);
      var (end, more) := XmlTokens(mid, [PropToken(p), EndElement("PROPERTY")], filter);
      XmlTokens(start, PropTokens(before + [p]), filter) == (end, out + more)
  {
    var ps := before + [p];
    assert ps[..|ps| - 1] == before && ps[|ps| - 1] == p;
    XmlTokensAppend(FastState(true, false, []), PropTokens(before), [PropToken(p), EndElement("PROPERTY")], filter);
  }

  lemma {:induction false} ReadSnoc(read: Reading, ps: seq<Prop>, p: Prop)
    ensures ReadAll(read, ps + [p]) == ReadAll(read, ps) + [read(p)]
  {
    ReadAppend(read, ps, [p]);
    assert [p][1..] == [] && [read(p)] + [] == [read(p)];
  }

  /** Inside an object the token parser collects properties silently. */
  lemma {:induction false} XmlProps(ps: seq<Prop>, filter: Filter)
    requires forall p | p in ps :: PlainName(p.name)
    ensures var (buf, skip) := Collect(ReadAll(Ended, ps), [], filter);
      XmlTokens(FastState(true, false, []), PropTokens(ps), filter) == (FastState(true, skip, buf), [])
  {
    if ps != [] {
      var before, p := ps[..|ps| - 1], ps[|ps| - 1];
      assert ps == before + [p];
      XmlProps(before, filter);
      XmlPropsSnoc(before, p, filter);
      ReadSnoc(Ended, before, p);
      CollectSnoc(ReadAll(Ended, before), Ended(p), filter);
      var (buf, skip) := Collect(ReadAll(Ended, before), [], filter);
      XmlProp(FastState(true, skip, buf), p, filter);
    }
  }

  lemma {:induction false} XmlObject(st: FastState, ps: seq<Prop>, filter: Filter)
    requires forall p | p in ps :: PlainName(p.name)
    ensures var (end, out) := XmlTokens(st, ObjectTokens(ps), filter);
      !end.inObject && out == Deliver(ReadAll(Ended, ps), filter)
  {
    var open, close := StartElement("OBJECT", []), EndElement("OBJECT");
    XmlTokensAppend(st, [open] + PropTokens(ps), [close], filter);
    XmlTokensAppend(st, [open], PropTokens(ps), filter);
    XmlOneToken(st, open, filter);
    XmlProps(ps, filter);
    XmlOneToken(XmlTokens(FastState(true, false, []), PropTokens(ps), filter).0, close, filter);
  }

  lemma {:induction false} XmlNoise(st: FastState, tokens: seq<Token>, filter: Filter)
    requires !st.inObject && forall t | t in tokens :: !t.OtherToken? ==> t.name != "OBJECT"
    ensures XmlTokens(st, tokens, filter) == (st, [])
  {
    if tokens != [] {
      assert tokens[|tokens| - 1] in tokens;
      XmlNoise(st, tokens[..|tokens| - 1], filter);
      assert XmlToken(st, tokens[|tokens| - 1], filter) == (st, []);
      assert XmlTokens(st, tokens, filter).1 == [] + [];
    }
  }

  lemma {:induction false} NamesArePlain(rows: seq<Row>)
    requires forall row | row in rows :: GoodRow(row)
    ensures forall p | p in PropsOf(rows) :: PlainName(p.name)
  {
    if rows != [] {
      assert GoodRow(rows[0]);
      NamesArePlain(rows[1..]);
    }
  }

  /** The decoder fails exactly on an illegal character. */
  lemma {:induction false} BrokenIffIllegal(doc: seq<Item>)
    ensures DecodeDoc(doc).broken <==> !LegalDoc(doc)
  {
    if doc != [] {
      var n := |doc| - 1;
      BrokenIffIllegal(doc[..n]);
      assert DecodeItem(doc[n]).broken <==> !LegalItem(doc[n]);
      assert LegalDoc(doc) <==> LegalDoc(doc[..n]) && LegalItem(doc[n]) by {
        assert forall item :: item in doc <==> item in doc[..n] || item == doc[n];
      }
    }
  }

  lemma {:induction false} XmlTokensDeliver(doc: seq<Item>, filter: Filter)
    requires GoodDoc(doc) && LegalDoc(doc)
    ensures var (st, out) := XmlTokens(FAST_START, DecodeDoc(doc).tokens, filter);
      !st.inObject && out == DeliverDoc(doc, Ended, filter)
  {
    if doc != [] {
      var before, item := doc[..|doc| - 1], doc[|doc| - 1];
      assert item in doc && GoodItem(item) && LegalItem(item);
      BrokenIffIllegal(before);
      XmlTokensDeliver(before, filter);
      var st := XmlTokens(FAST_START, DecodeDoc(before).tokens, filter).0;
      match item
      case Noise(_, tokens) =>
        XmlTokensAppend(FAST_START, DecodeDoc(before).tokens, tokens, filter);
        XmlNoise(st, tokens, filter);
      case Object(rows) =>
        XmlTokensAppend(FAST_START, DecodeDoc(before).tokens, ObjectTokens(PropsOf(rows)), filter);
        NamesArePlain(rows);
        XmlObject(st, PropsOf(rows), filter);
    }
  }

  /** Without illegal characters the token parser delivers each object's properties, with line ends
      as the decoder reads them; with one it fails. */
  lemma {:induction false} XmlDelivers(doc: seq<Item>, filter: Filter)
    requires GoodDoc(doc)
    ensures LegalDoc(doc) ==> XmlOutcome(DecodeDoc(doc), filter) == Outcome(DeliverDoc(doc, Ended, filter), false)
    ensures !LegalDoc(doc) ==> XmlOutcome(DecodeDoc(doc), filter).failed
  {
    BrokenIffIllegal(doc);
    if LegalDoc(doc) {
      XmlTokensDeliver(doc, filter);
    }
  }

  // ------------------------------------------------------------- refinement

  /** A value that mentions none of "&lt;", "&gt;", "&quot;" and "&apos;" literally and holds no line
      end and no illegal character. */
  predicate CleanValue(v: string)
  {
    !MentionsReference(v) && '\n' !in v && '\r' !in v && LegalText(v)
  }

  /** Values of printable ASCII characters without an ampersand are clean. */
  lemma {:induction false} OrdinaryIsClean(v: string)
    requires forall c | c in v :: 0x20 <= c as int < 0x7F && c != '&'
    ensures CleanValue(v)
  {
    NoReferenceWithoutAmpersand(v);
  }

  lemma {:induction false} NoReferenceWithoutAmpersand(v: string)
    requires '&' !in v
    ensures !MentionsReference(v)
  {
    if v != "" {
      NoReferenceWithoutAmpersand(v[1..]);
      forall e
        ensures !StartsWith(v, Reference(e))
      {
        ReferencesBegin(v, e);
      }
    }
  }

  lemma {:induction false} ReferencesBegin(v: string, e: Entity)
    ensures StartsWith(v, Reference(e)) ==> v != "" && v[0] == '&'
  {
    assert Reference(e)[0] == '&';
  }

  predicate CleanProps(ps: seq<Prop>) { forall p | p in ps :: CleanValue(p.value) }

  predicate CleanItem(item: Item) { item.Object? ==> CleanProps(PropsOf(item.rows)) }

  predicate CleanDoc(doc: seq<Item>) { forall item | item in doc :: CleanItem(item) }

  lemma {:induction false} CleanIsRead(ps: seq<Prop>)
    requires CleanProps(ps)
    ensures ReadAll(Seen, ps) == ps && ReadAll(Ended, ps) == ps
  {
    if ps != [] {
      assert CleanValue(ps[0].value);
      ScannerRecoversIff(ps[0].value);
      NoReturnNoChange(ps[0].value);
      CleanIsRead(ps[1..]);
      assert Seen(ps[0]) == ps[0] && Ended(ps[0]) == ps[0];
    }
  }

  lemma {:induction false} CleanDeliversSame(doc: seq<Item>, filter: Filter)
    requires CleanDoc(doc)
    ensures DeliverDoc(doc, Seen, filter) == DeliverDoc(doc, Ended, filter)
  {
    if doc != [] {
      var item := doc[|doc| - 1];
      assert item in doc && CleanItem(item);
      CleanDeliversSame(doc[..|doc| - 1], filter);
      if item.Object? {
        CleanIsRead(PropsOf(item.rows));
      }
    }
  }

  lemma {:induction false} CleanIsLegal(doc: seq<Item>)
    requires GoodDoc(doc) && CleanDoc(doc)
    ensures OneLineDoc(doc) && LegalDoc(doc)
  {
    forall item | item in doc
      ensures OneLineItem(item) && LegalItem(item)
    {
      assert GoodItem(item) && CleanItem(item);
      if item.Object? {
        NamesArePlain(item.rows);
        forall p | p in PropsOf(item.rows)
          ensures '\n' !in p.value && LegalProp(p)
        {
          assert CleanValue(p.value) && PlainName(p.name);
        }
      }
    }
  }

  /** The byte scanner refines the token parser: for every printed object list with clean values,
      whatever the line breaks inside objects, the line ends and the filter, both hand over the same
      sequence of property maps and return no error. */
  lemma {:induction false} FastRefinesXml(doc: seq<Item>, crlf: seq<bool>, filter: Filter)
    requires GoodDoc(doc) && CleanDoc(doc) && |crlf| == |PrintDoc(doc)|
    ensures FastOutcome(JoinLines(PrintDoc(doc), crlf), filter) == XmlOutcome(DecodeDoc(doc), filter)
  {
    CleanIsLegal(doc);
    FastDelivers(doc, crlf, filter);
    XmlDelivers(doc, filter);
    CleanDeliversSame(doc, filter);
  }

  // ------------------------------------------------------------- ordinary documents

  /** Printable ASCII without markup. */
  predicate Ordinary(s: string) { forall c | c in s :: 0x20 <= c as int < 0x7F && Plain(c) }

  predicate OrdinaryRow(row: Row)
  {
    row.indent == "" && forall p | p in row.props :: Ordinary(p.name) && Ordinary(p.value)
  }

  predicate OrdinaryItem(item: Item)
  {
    item.Object? && item.rows != [] && forall row | row in item.rows :: OrdinaryRow(row)
  }

  lemma {:induction false} OrdinaryName(s: string)
    requires Ordinary(s)
    ensures PlainName(s) && CleanValue(s)
  {
    forall c | c in s
      ensures Plain(c) && c != '\n' && c != '\r' && XmlChar(c) && c != '&'
    {
    }
    OrdinaryIsClean(s);
  }

  lemma {:induction false} OrdinaryProps(rows: seq<Row>)
    requires forall row | row in rows :: OrdinaryRow(row)
    ensures CleanProps(PropsOf(rows)) && forall row | row in rows :: GoodRow(row)
  {
    if rows != [] {
      OrdinaryProps(rows[1..]);
      hide Ordinary, CleanValue, PlainName;
      assert OrdinaryRow(rows[0]);
      forall p | p in rows[0].props
        ensures PlainName(p.name) && CleanValue(p.value)
      {
        OrdinaryName(p.name);
        OrdinaryName(p.value);
      }
      assert rows == [rows[0]] + rows[1..];
      assert forall p | p in PropsOf(rows) :: p in rows[0].props || p in PropsOf(rows[1..]);
    }
  }

  /** Documents of objects with ordinary names and values are good and clean, however they are broken into lines. */
  lemma {:induction false} OrdinaryDocument(doc: seq<Item>)
    requires forall item | item in doc :: OrdinaryItem(item)
    ensures GoodDoc(doc) && CleanDoc(doc)
  {
    hide OrdinaryRow, GoodRow, CleanProps;
    forall item | item in doc
      ensures GoodItem(item) && CleanItem(item)
    {
      assert OrdinaryItem(item);
      OrdinaryProps(item.rows);
    }
  }
}
