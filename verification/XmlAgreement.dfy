/** Exactly when the two object parsers agree: for an object with one property, on each value that
    holds no line end, no illegal character and no literal markup reference, and on no other. */
module XmlAgreement {
  import opened Base
  import opened XmlEntities
  import opened XmlStream
  import opened XmlRefinement

  // ------------------------------------------------------------- values with a line feed

  lemma {:induction false} IndexFinds(s: string, p: string)
    ensures Index(s, p).Some? ==> var i := Index(s, p).value; i + |p| <= |s| && s[i..i + |p|] == p
  {
    if !StartsWith(s, p) && s != [] {
      IndexFinds(s[1..], p);
      if Index(s[1..], p).Some? {
        var i := Index(s[1..], p).value;
        assert s[1..][i..i + |p|] == s[i + 1..i + 1 + |p|];
      }
    }
  }

  /** Behind the last quote nothing is quoted. */
  lemma {:induction false} NothingQuoted(a: string, b: string, tag: string)
    requires '"' !in a && '"' !in b && tag != "" && tag[|tag| - 1] == '"'
    ensures Quoted(a + "\"" + b, tag).None?
  {
    var s := a + "\"" + b;
    IndexFinds(s, tag);
    var i := Index(s, tag);
    if i.Some? {
      var at := i.value + |tag|;
      assert s[i.value..at][|tag| - 1] == s[at - 1] == '"';
      assert at - 1 == |a|;
      assert s[at..] == b;
      IndexNowhere(b, "\"");
    }
  }

  lemma {:induction false} NoQuotesNoPair(s: string)
    requires '"' !in s
    ensures NextPair(s).None?
  {
    IndexNowhere(s, NAME_TAG);
  }

  /** A name whose value is not closed on the same line is no pair. */
  lemma {:induction false} OpenValueNoPair(pre: string, name: string, value: string)
    requires '"' !in pre && '"' !in name && '"' !in value
    ensures NextPair(pre + NAME_TAG + name + "\"" + (" " + VAL_TAG + value)).None?
  {
    var post := " " + VAL_TAG + value;
    QuotedBehind(pre, NAME_TAG, name, post);
    assert VAL_TAG == "VALUE=" + "\"";
    assert post == " " + "VALUE=" + "\"" + value;
    assert '"' !in " " + "VALUE=";
    NothingQuoted(" " + "VALUE=", value, VAL_TAG);
  }

  const COLLECTING := FastState(true, false, [])

  /** A line without pairs and markers passes by. */
  lemma {:induction false} QuietLine(line: string, filter: Filter)
    requires NextPair(line).None? && !Contains(line, OBJECT_OPEN) && !Contains(line, OBJECT_END)
    ensures FastLine(COLLECTING, line, filter) == (COLLECTING, [])
  {
  }

  /** An end marker after nothing delivers nothing. */
  lemma {:induction false} EmptyEnd(line: string, filter: Filter)
    requires NextPair(line).None?
    ensures FastLine(COLLECTING, line, filter).1 == []
  {
  }

  predicate Inert(s: string) { '"' !in s && '<' !in s }

  lemma {:induction false} InertLine(s: string, filter: Filter)
    requires Inert(s)
    ensures FastLine(COLLECTING, DropCR(s), filter) == (COLLECTING, [])
  {
    var line := DropCR(s);
    NoQuotesNoPair(line);
    TameText(line, 'O');
    TameText(line, '/');
    TameContainsNo(line, OBJECT_OPEN);
    TameContainsNo(line, OBJECT_END);
    QuietLine(line, filter);
  }

  const CLOSING := "\"/></OBJECT>"

  lemma {:induction false} ClosingLine(s: string, filter: Filter)
    requires Inert(s)
    ensures FastLine(COLLECTING, s + CLOSING, filter).1 == []
  {
    NothingQuoted(s, "/></OBJECT>", NAME_TAG);
    assert s + CLOSING == s + "\"" + "/></OBJECT>";
    EmptyEnd(s + CLOSING, filter);
  }

  function EndOf(crlf: bool): string { if crlf then "\r\n" else "\n" }

  lemma {:induction false} FastLinesCons(st: FastState, line: string, rest: seq<string>, filter: Filter)
    requires FastLine(st, line, filter).1 == []
    ensures FastLines(st, [line] + rest, filter) == FastLines(FastLine(st, line, filter).0, rest, filter)
  {
    FastLinesAppend(st, [line], rest, filter);
    FastOneLine(st, line, filter);
    var out := FastLines(FastLine(st, line, filter).0, rest, filter).1;
    assert [] + out == out;
  }

  lemma {:induction false} ClosingIsLine(s: string)
    requires '\n' !in s
    ensures IsLine(s + CLOSING)
  {
    EndsWith(s, CLOSING);
    assert '\n' !in CLOSING;
  }

  /** The rest of a value, over any number of lines, and the end of its object. */
  lemma {:induction false} BrokenValue(s: string, crlf: bool, filter: Filter)
    requires Inert(s)
    ensures FastLines(COLLECTING, ScanLines(s + CLOSING + EndOf(crlf)), filter).1 == []
    decreases |s|
  {
    hide FastLine, FastLines, ScanLines, DropCR, IsLine, EndOf;
    var i := FirstBreak(s);
    if i == |s| {
      ClosingIsLine(s);
      ScanEnded(s + CLOSING, crlf, "");
      EndOfLast(crlf);
      NoLines();
      assert [s + CLOSING] + [] == [s + CLOSING];
      FastOneLine(COLLECTING, s + CLOSING, filter);
      ClosingLine(s, filter);
    } else {
      var a, b := s[..i], s[i + 1..];
      var rest := b + CLOSING + EndOf(crlf);
      assert s + CLOSING + EndOf(crlf) == a + "\n" + rest;
      ScanFirst(a, rest);
      InertLine(a, filter);
      FastLinesCons(COLLECTING, DropCR(a), ScanLines(rest), filter);
      BrokenValue(b, crlf, filter);
    }
  }

  lemma {:induction false} EndOfLast(crlf: bool)
    ensures EndOf(crlf) == (if crlf then "\r\n" else "\n") + ""
  {
  }

  lemma {:induction false} NoLines()
    ensures ScanLines("") == []
  {
  }

  /** A property up to its value. */
  function Front(name: string): string { "<PROPERTY " + NAME_TAG + name + "\"" + (" " + VAL_TAG) }

  /** What stands before the value of an object with one property. */
  function Opening(row: Row, name: string): string { row.indent + OBJECT_OPEN + Front(name) }

  lemma {:induction false} Associate(a: string, b: string, c: string)
    ensures a + (b + c) == a + b + c
  {
  }

  lemma {:induction false} PropertyPieces(p: Prop)
    ensures PrintProp(p) == Front(p.name) + Escape(p.value) + "\"/>"
  {
    hide Escape;
    var a, b, v := "<PROPERTY " + NAME_TAG + p.name + "\"", " " + VAL_TAG, Escape(p.value);
    assert "\"" + "/>" == "\"/>";
    Associate(b + v, "\"", "/>");
    assert BehindName(p) == b + v + "\"/>";
    Associate(a, b + v, "\"/>");
    Associate(a, b, v);
  }

  lemma {:induction false} OneProperty(row: Row, p: Prop)
    requires row.props == [p]
    ensures PrintRow(row, true, true) == Opening(row, p.name) + Escape(p.value) + CLOSING
  {
    PropertyPieces(p);
    assert [p][1..] == [] && PrintProps([p]) == PrintProp(p) + "" == PrintProp(p);
    assert "\"/>" + OBJECT_END == CLOSING;
    hide Escape, PrintProp, PrintProps, Front;
    var head, f, v := row.indent + OBJECT_OPEN, Front(p.name), Escape(p.value);
    Associate(head, f + v, "\"/>");
    Associate(head, f, v);
    Associate(head + f + v, "\"/>", OBJECT_END);
  }

  lemma {:induction false} FrontPieces(head: string, name: string, value: string)
    ensures head + Front(name) + value == head + "<PROPERTY " + NAME_TAG + name + "\"" + (" " + VAL_TAG + value)
    ensures head + Front(name) + value == head + ("<PROPERTY " + NAME_TAG + name + "\"" + (" " + VAL_TAG + value))
  {
    var a, b, c, d := "<PROPERTY ", NAME_TAG, "\"", " " + VAL_TAG;
    Associate(head, a + b + name + c, d);
    Associate(head, a + b + name, c);
    Associate(head, a + b, name);
    Associate(head, a, b);
    Associate(head + a + b + name + c, d, value);
    Associate(head, a + b + name + c, d + value);
  }

  /** The first line of a broken value opens the object and yields no pair. */
  lemma {:induction false} FirstLine(row: Row, name: string, value: string, filter: Filter)
    requires GoodRow(row) && PlainName(name) && Inert(value)
    ensures FastLine(FAST_START, DropCR(Opening(row, name) + value), filter) == (COLLECTING, [])
  {
    hide DropCR, Opening, Contains, NextPair, Tame, Inert, PlainName;
    var kept := DropCR(value);
    OpeningKept(row, name, value);
    KeptIsInert(value);
    NoPairOnFirst(row, name, kept);
    MarkersOnFirst(row, name, kept);
    OpeningLine(Opening(row, name) + kept, filter);
  }

  lemma {:induction false} KeptIsInert(value: string)
    requires Inert(value)
    ensures Inert(DropCR(value))
  {
  }

  lemma {:induction false} OpeningLine(line: string, filter: Filter)
    requires NextPair(line).None? && Contains(line, OBJECT_OPEN) && !Contains(line, OBJECT_END)
    ensures FastLine(FAST_START, line, filter) == (COLLECTING, [])
  {
  }

  lemma {:induction false} NoPairOnFirst(row: Row, name: string, value: string)
    requires GoodRow(row) && PlainName(name) && Inert(value)
    ensures NextPair(Opening(row, name) + value).None?
  {
    IndentIsPlain(row);
    hide NextPair, Front;
    FrontPieces(row.indent + OBJECT_OPEN, name, value);
    assert '"' !in OBJECT_OPEN && '"' !in "<PROPERTY ";
    OpenValueNoPair(row.indent + OBJECT_OPEN + "<PROPERTY ", name, value);
  }

  lemma {:induction false} MarkersOnFirst(row: Row, name: string, value: string)
    requires GoodRow(row) && PlainName(name) && Inert(value)
    ensures Contains(Opening(row, name) + value, OBJECT_OPEN) && !Contains(Opening(row, name) + value, OBJECT_END)
  {
    hide Contains, Front;
    Associate(row.indent + OBJECT_OPEN, Front(name), value);
    ContainsMiddle(row.indent, OBJECT_OPEN, Front(name) + value);
    TameOpening(row, name, value);
    TameContainsNo(Opening(row, name) + value, OBJECT_END);
  }

  lemma {:induction false} OpeningKept(row: Row, name: string, value: string)
    ensures DropCR(Opening(row, name) + value) == Opening(row, name) + DropCR(value)
  {
    var o := Opening(row, name);
    if value == "" {
      EndsWith(row.indent + OBJECT_OPEN, Front(name));
      EndsWith("<PROPERTY " + NAME_TAG + name + "\"", " " + VAL_TAG);
      assert o + value == o;
    } else {
      hide Opening;
      EndsWith(o, value);
      assert (o + value)[..|o + value| - 1] == o + value[..|value| - 1];
    }
  }

  lemma {:induction false} TameOpening(row: Row, name: string, value: string)
    requires GoodRow(row) && PlainName(name) && Inert(value)
    ensures Tame(Opening(row, name) + value, '/')
  {
    IndentIsPlain(row);
    TameText(row.indent, '/');
    assert Tame(OBJECT_OPEN, '/') && Tame("<PROPERTY ", '/');
    var tail := NAME_TAG + name + "\"" + (" " + VAL_TAG);
    assert '<' !in name && '<' !in NAME_TAG && '<' !in VAL_TAG;
    TameText(tail, '/');
    TameText(value, '/');
    hide Tame;
    TameAppend(row.indent, OBJECT_OPEN, '/');
    TameAppend("<PROPERTY ", tail, '/');
    assert Front(name) == "<PROPERTY " + tail;
    TameAppend(row.indent + OBJECT_OPEN, Front(name), '/');
    TameAppend(Opening(row, name), value, '/');
  }

  lemma {:induction false} SplitFeed(o: string, v: string, i: nat, close: string, end: string)
    requires i < |v| && v[i] == '\n'
    ensures o + v + close + end == o + v[..i] + "\n" + (v[i + 1..] + close + end)
  {
    var a, b := v[..i], v[i + 1..];
    assert v == a + ("\n" + b);
    Associate(o, a, "\n" + b);
    Associate(o + a, "\n", b);
    Associate(o + a + "\n", b, close);
    Associate(o + a + "\n", b + close, end);
  }

  /** A line feed in the value costs the byte scanner the object. */
  lemma {:induction false} LineFeedLosesObject(row: Row, p: Prop, crlf: bool, filter: Filter)
    requires GoodRow(row) && row.props == [p] && '\n' in p.value
    ensures FastOutcome(Opening(row, p.name) + Escape(p.value) + CLOSING + EndOf(crlf), filter) == Outcome([], false)
  {
    hide Opening, Escape, PlainName, GoodRow, FastOutcome, EndOf;
    GoodName(row, p);
    EscapeHasNoMarkup(p.value);
    EscapeKeeps(p.value, '\n');
    OpeningIsOneLine(row, p.name);
    BrokenAt(row, p.name, Escape(p.value), FirstBreak(Escape(p.value)), crlf, filter);
  }

  lemma {:induction false} GoodName(row: Row, p: Prop)
    requires GoodRow(row) && row.props == [p]
    ensures PlainName(p.name)
  {
    assert p in row.props;
  }

  lemma {:induction false} InertPieces(v: string, i: nat)
    requires Inert(v) && i < |v|
    ensures Inert(v[..i]) && Inert(v[i + 1..])
  {
  }

  /** The same for the first line feed of the escaped value. */
  lemma {:induction false} BrokenAt(row: Row, name: string, v: string, i: nat, crlf: bool, filter: Filter)
    requires GoodRow(row) && PlainName(name) && '\n' !in Opening(row, name)
    requires Inert(v) && i < |v| && v[i] == '\n' && '\n' !in v[..i]
    ensures FastOutcome(Opening(row, name) + v + CLOSING + EndOf(crlf), filter) == Outcome([], false)
  {
    InertPieces(v, i);
    hide FastLine, FastLines, ScanLines, DropCR, Opening, EndOf, PlainName, GoodRow, Inert;
    var o, a, b := Opening(row, name), v[..i], v[i + 1..];
    var rest := b + CLOSING + EndOf(crlf);
    SplitFeed(o, v, i, CLOSING, EndOf(crlf));
    ScanFirst(o + a, rest);
    FirstLine(row, name, a, filter);
    FastLinesCons(FAST_START, DropCR(o + a), ScanLines(rest), filter);
    BrokenValue(b, crlf, filter);
  }

  lemma {:induction false} OpeningIsOneLine(row: Row, name: string)
    requires GoodRow(row) && PlainName(name)
    ensures '\n' !in Opening(row, name)
  {
    assert '\n' !in row.indent && '\n' !in OBJECT_OPEN;
    assert '\n' !in name && '\n' !in "<PROPERTY " && '\n' !in NAME_TAG && '\n' !in VAL_TAG;
    assert '\n' !in Front(name);
  }

  // ------------------------------------------------------------- values with a carriage return

  lemma {:induction false} ReplaceKeeps(s: string, e: Entity, c: char)
    requires Neutral(c)
    ensures c in ReplaceAll(s, e) <==> c in s
    decreases |s|
  {
    if s != [] {
      var r := Reference(e);
      assert c !in r && c != Char(e);
      if StartsWith(s, r) {
        assert s == r + s[|r|..];
        ReplaceKeeps(s[|r|..], e, c);
      } else {
        assert s == [s[0]] + s[1..];
        ReplaceKeeps(s[1..], e, c);
      }
    }
  }

  lemma {:induction false} SeenKeeps(p: Prop, c: char)
    requires Neutral(c)
    ensures c in Seen(p).value <==> c in p.value
  {
    hide ReplaceAll;
    EscapeKeeps(p.value, c);
    var s1 := ReplaceAll(Escape(p.value), Amp);
    var s2 := ReplaceAll(s1, Lt);
    var s3 := ReplaceAll(s2, Gt);
    var s4 := ReplaceAll(s3, Quot);
    ReplaceKeeps(Escape(p.value), Amp, c);
    ReplaceKeeps(s1, Lt, c);
    ReplaceKeeps(s2, Gt, c);
    ReplaceKeeps(s3, Quot, c);
    ReplaceKeeps(s4, Apos, c);
  }

  lemma {:induction false} NoReturnsLeft(s: string)
    ensures '\r' !in LineEnds(s)
    decreases |s|
  {
    if s != "" {
      if s[0] != '\r' {
        NoReturnsLeft(s[1..]);
      } else {
        NoReturnsLeft(if |s| > 1 && s[1] == '\n' then s[2..] else s[1..]);
      }
    }
  }

  // ------------------------------------------------------------- agreement

  lemma {:induction false} DeliverOne(p: Prop)
    requires p.name != ""
    ensures Deliver([p], None) == [map[p.name := p.value]]
  {
    assert [] + [p] == [p];
    CollectSnoc([], p, None);
    assert [p][..0] == [];
    assert ToMap([p]) == map[p.name := p.value];
  }

  lemma {:induction false} PropsOfOne(row: Row)
    ensures PropsOf([row]) == row.props
  {
    assert [row][1..] == [] && row.props + [] == row.props;
  }

  lemma {:induction false} DeliverSingleton(row: Row, p: Prop, read: Reading)
    requires row.props == [p] && read(p).name == p.name != ""
    ensures DeliverDoc([Object([row])], read, None) == [map[p.name := read(p).value]]
  {
    assert [Object([row])][..0] == [];
    PropsOfOne(row);
    ReadSnoc(read, [], p);
    assert [] + [p] == [p] && [] + [read(p)] == [read(p)];
    DeliverOne(read(p));
  }

  /** The text of a document of one object on one line. */
  function TextOf(row: Row, crlf: bool): string { JoinLines([PrintRow(row, true, true)], [crlf]) }

  lemma {:induction false} TextOfOne(row: Row, p: Prop, crlf: bool)
    requires row.props == [p]
    ensures PrintDoc([Object([row])]) == [PrintRow(row, true, true)]
    ensures TextOf(row, crlf) == Opening(row, p.name) + Escape(p.value) + CLOSING + EndOf(crlf)
  {
    hide PrintRow, Opening, Escape;
    OneProperty(row, p);
    var line := PrintRow(row, true, true);
    assert [Object([row])][..0] == [] && [row][1..] == [];
    assert PrintRows([row], true) == [line] + [] == [line];
    assert [line][1..] == [] && [crlf][1..] == [];
    assert EndOf(crlf) + "" == EndOf(crlf);
    assert JoinLines([line], [crlf]) == line + (EndOf(crlf) + JoinLines([], []));
  }

  lemma {:induction false} GoodSingleton(row: Row, p: Prop)
    requires GoodRow(row) && row.props == [p]
    ensures GoodDoc([Object([row])])
    ensures LegalDoc([Object([row])]) <==> LegalText(p.value)
    ensures OneLineDoc([Object([row])]) <==> '\n' !in p.value
  {
    var item := Object([row]);
    PropsOfOne(row);
    assert p in row.props && PlainName(p.name);
    assert item in [item] && LegalItem(item) == LegalProp(p);
    assert OneLineItem(item) == ('\n' !in p.value);
  }

  lemma {:induction false} MapsDiffer(name: string, a: string, b: string)
    ensures map[name := a] == map[name := b] <==> a == b
  {
    assert map[name := a][name] == a && map[name := b][name] == b;
  }

  /** On one line without illegal characters: agreement is agreement of the two readings. */
  lemma {:induction false} OneLineAgreement(row: Row, p: Prop, crlf: bool)
    requires GoodRow(row) && row.props == [p] && p.name != "" && '\n' !in p.value && LegalText(p.value)
    ensures FastOutcome(TextOf(row, crlf), None) == XmlOutcome(DecodeDoc([Object([row])]), None)
            <==> Seen(p).value == LineEnds(p.value)
  {
    hide FastOutcome, XmlOutcome, LineEnds;
    var doc := [Object([row])];
    GoodSingleton(row, p);
    TextOfOne(row, p, crlf);
    FastDelivers(doc, [crlf], None);
    XmlDelivers(doc, None);
    DeliverSingleton(row, p, Seen);
    DeliverSingleton(row, p, Ended);
    MapsDiffer(p.name, Seen(p).value, Ended(p).value);
  }

  lemma {:induction false} ReadingsAgreeIff(p: Prop)
    ensures Seen(p).value == LineEnds(p.value) <==> !MentionsReference(p.value) && '\r' !in p.value
  {
    hide ReplaceAll, Escape, MentionsReference, LineEnds;
    if '\r' in p.value {
      SeenKeeps(p, '\r');
      NoReturnsLeft(p.value);
    } else {
      NoReturnNoChange(p.value);
      ScannerRecoversIff(p.value);
    }
  }

  lemma {:induction false} LineFeedDisagreement(row: Row, p: Prop, crlf: bool)
    requires GoodRow(row) && row.props == [p] && p.name != "" && '\n' in p.value
    ensures FastOutcome(TextOf(row, crlf), None) != XmlOutcome(DecodeDoc([Object([row])]), None)
  {
    hide FastOutcome, XmlOutcome;
    var doc := [Object([row])];
    GoodSingleton(row, p);
    TextOfOne(row, p, crlf);
    LineFeedLosesObject(row, p, crlf, None);
    XmlDelivers(doc, None);
    DeliverSingleton(row, p, Ended);
  }

  lemma {:induction false} IllegalDisagreement(row: Row, p: Prop, crlf: bool)
    requires GoodRow(row) && row.props == [p] && !LegalText(p.value)
    ensures FastOutcome(TextOf(row, crlf), None) != XmlOutcome(DecodeDoc([Object([row])]), None)
  {
    GoodSingleton(row, p);
    XmlDelivers([Object([row])], None);
  }

  /** The condition on values is exact: an object of one named property is handed over alike by both
      parsers, without an error of either, if and only if its value is clean. */
  lemma {:induction false} ParsersAgreeIff(row: Row, p: Prop, crlf: bool)
    requires GoodRow(row) && row.props == [p] && p.name != ""
    ensures FastOutcome(TextOf(row, crlf), None) == XmlOutcome(DecodeDoc([Object([row])]), None)
            <==> CleanValue(p.value)
  {
    if '\n' in p.value {
      LineFeedDisagreement(row, p, crlf);
    } else if !LegalText(p.value) {
      IllegalDisagreement(row, p, crlf);
    } else {
      OneLineAgreement(row, p, crlf);
      ReadingsAgreeIff(p);
    }
  }
}
