/** The two object parsers of internal/scanner/nios/scanner.go: the byte scanner
    (parseObjectStreamFast, extractProperties) and the token parser (parseObjectStreamXML). */
module XmlStream {
  import opened Base
  import opened XmlEntities

  datatype Prop = Prop(name: string, value: string)

  /** The set of wanted __type values; None passes every object. */
  type Filter = Option<set<string>>

  /** The objects handed to the callback, in order, and whether the parser then returned an error. */
  datatype Outcome = Outcome(objects: seq<map<string, string>>, failed: bool)

  const TYPE_NAME := "__type"

  predicate Rejected(p: Prop, filter: Filter)
  {
    p.name == TYPE_NAME && filter.Some? && p.value !in filter.value
  }

  /** Later properties override earlier ones of the same name. */
  function ToMap(buf: seq<Prop>): map<string, string>
  {
    if buf == [] then map[] else ToMap(buf[..|buf| - 1])[buf[|buf| - 1].name := buf[|buf| - 1].value]
  }

  method BuildProps(buf: seq<Prop>) returns (props: map<string, string>)
    ensures props == ToMap(buf)
  {
    props := map[];
    for i := 0 to |buf|
      invariant props == ToMap(buf[..i])
    {
      assert buf[..i + 1][..i] == buf[..i];
      props := props[buf[i].name := buf[i].value];
    }
    assert buf[..|buf|] == buf;
  }

  // ------------------------------------------------------------ byte searching

  /** bytes.Index: the first occurrence of `p`. */
  function Index(s: string, p: string): (r: Option<nat>)
    ensures r.Some? ==> r.value + |p| <= |s|
  {
    if StartsWith(s, p) then Some(0)
    else if s == [] then None
    else
      var r := Index(s[1..], p);
      if r.Some? then Some(r.value + 1) else None
  }

  predicate Contains(s: string, p: string) { Index(s, p).Some? }

  /** A pattern whose only quote is its last byte is found behind any text without quotes. */
  lemma {:induction false} IndexBehind(pre: string, p: string, post: string)
    requires p != [] && p[|p| - 1] == '"' && '"' !in pre && '"' !in p[..|p| - 1]
    ensures Index(pre + p + post, p) == Some(|pre|)
  {
    var s := pre + p + post;
    if pre == [] {
      assert s[..|p|] == p;
    } else {
      var head := pre + p[..|p| - 1];
      assert '"' !in head && s[..|head|] == head && head[|p| - 1] == s[|p| - 1];
      assert s[..|p|][|p| - 1] == s[|p| - 1];
      IndexBehind(pre[1..], p, post);
      assert s[1..] == pre[1..] + p + post;
    }
  }

  lemma {:induction false} IndexNowhere(s: string, p: string)
    requires p != [] && p[|p| - 1] == '"'
    ensures Index(s, p).Some? ==> '"' in s
  {
    if StartsWith(s, p) {
      assert s[..|p|][|p| - 1] == s[|p| - 1];
    } else if s != [] {
      IndexNowhere(s[1..], p);
    }
  }

  // ------------------------------------------------------------ lines

  /** Position of the first line feed, or |s|. */
  function FirstBreak(s: string): (i: nat)
    ensures i <= |s| && '\n' !in s[..i] && (i < |s| ==> s[i] == '\n')
  {
    if s == "" || s[0] == '\n' then 0
    else
      assert s[..1 + FirstBreak(s[1..])] == [s[0]] + s[1..][..FirstBreak(s[1..])];
      1 + FirstBreak(s[1..])
  }

  /** One trailing carriage return belongs to the end of the line. */
  function DropCR(line: string): string
  {
    if line != "" && line[|line| - 1] == '\r' then line[..|line| - 1] else line
  }

  function FirstLine(text: string): string { DropCR(text[..FirstBreak(text)]) }

  /** The text behind the first line. */
  function Rest(text: string): (rest: string)
    ensures text != "" ==> |rest| < |text|
  {
    if FirstBreak(text) == |text| then "" else text[FirstBreak(text) + 1..]
  }

  /** bufio.ScanLines: the text behind the last line feed is a line only if there is any. */
  function ScanLines(text: string): seq<string>
    decreases |text|
  {
    if text == "" then [] else [FirstLine(text)] + ScanLines(Rest(text))
  }

  // ------------------------------------------------------------ the byte scanner

  const NAME_TAG := "NAME=\""
  const VAL_TAG := "VALUE=\""
  const OBJECT_OPEN := "<OBJECT>"
  const OBJECT_END := "</OBJECT>"

  function DecodeValue(v: string): string
  {
    if '&' in v then DecodeXMLEntities(v) else v
  }

  /** The text between `tag` and the next quote, and what follows that quote. */
  function Quoted(rest: string, tag: string): (r: Option<(string, string)>)
    ensures r.Some? ==> |r.value.1| < |rest|
  {
    var i := Index(rest, tag);
    if i.None? then None
    else
      var from := rest[i.value + |tag|..];
      var n := Index(from, "\"");
      if n.None? then None else Some((from[..n.value], from[n.value + 1..]))
  }

  /** One NAME="..." VALUE="..." pair from the front of `rest`, and what follows it. */
  function NextPair(rest: string): (r: Option<(Prop, string)>)
    ensures r.Some? ==> |r.value.1| < |rest|
  {
    var n := Quoted(rest, NAME_TAG);
    if n.None? then None
    else
      var v := Quoted(n.value.1, VAL_TAG);
      if v.None? then None else Some((Prop(n.value.0, DecodeValue(v.value.0)), v.value.1))
  }

  function Keep(buf: seq<Prop>, p: Prop): seq<Prop> { if p.name != "" then buf + [p] else buf }

  /** The buffer after extractProperties, and whether it sets the skip flag. */
  function Extract(rest: string, buf: seq<Prop>, filter: Filter): (seq<Prop>, bool)
    decreases |rest|
  {
    var pair := NextPair(rest);
    if pair.None? then (buf, false)
    else if Rejected(pair.value.0, filter) then (buf, true)
    else Extract(pair.value.1, Keep(buf, pair.value.0), filter)
  }

  /** Finds `tag` at or after `pos`; `next` is the position behind the closing quote. */
  method ReadQuoted(line: string, pos: nat, tag: string) returns (found: bool, text: string, next: nat)
    requires pos <= |line|
    ensures found ==> pos < next <= |line| && Quoted(line[pos..], tag) == Some((text, line[next..]))
    ensures !found ==> Quoted(line[pos..], tag).None?
  {
    found, text, next := false, "", pos;
    var idx := Index(line[pos..], tag);
    if idx.None? {
      return;
    }
    var start := pos + idx.value + |tag|;
    assert line[pos..][idx.value + |tag|..] == line[start..];
    var end := Index(line[start..], "\"");
    if end.None? {
      return;
    }
    found, text, next := true, line[start..start + end.value], start + end.value + 1;
    assert text == line[start..][..end.value];
    assert line[start..][end.value + 1..] == line[next..];
  }

  method ReadPair(line: string, pos: nat) returns (found: bool, p: Prop, next: nat)
    requires pos <= |line|
    ensures found ==> pos < next <= |line| && NextPair(line[pos..]) == Some((p, line[next..]))
    ensures !found ==> NextPair(line[pos..]).None?
  {
    found, p, next := false, Prop("", ""), pos;
    var hasName, name, afterName := ReadQuoted(line, pos, NAME_TAG);
    if !hasName {
      return;
    }
    var hasValue, value, afterValue := ReadQuoted(line, afterName, VAL_TAG);
    if !hasValue {
      return;
    }
    found, p, next := true, Prop(name, DecodeValue(value)), afterValue;
  }

  method ExtractProperties(line: string, propBuf: seq<Prop>, filter: Filter) returns (buf: seq<Prop>, skip: bool)
    ensures (buf, skip) == Extract(line, propBuf, filter)
  {
    buf, skip := propBuf, false;
    var pos := 0;
    assert line[0..] == line;
    while true
      invariant 0 <= pos <= |line| && !skip
      invariant Extract(line[pos..], buf, filter) == Extract(line, propBuf, filter)
      decreases |line| - pos
    {
      var found, p, next := ReadPair(line, pos);
      if !found {
        return;
      }
      pos := next;
      if Rejected(p, filter) {
        skip := true;
        return;
      }
      buf := Keep(buf, p);
    }
  }

  datatype FastState = FastState(inObject: bool, skip: bool, buf: seq<Prop>)

  /** One line of input: the next state and the objects delivered (at most one). */
  function FastLine(st: FastState, line: string, filter: Filter): (FastState, seq<map<string, string>>)
  {
    var st1 := if Contains(line, OBJECT_OPEN) then FastState(true, false, []) else st;
    var st2 := if st1.inObject && !st1.skip
               then FastState(true, Extract(line, st1.buf, filter).1, Extract(line, st1.buf, filter).0) else st1;
    if Contains(line, OBJECT_END) && st2.inObject
    then (st2.(inObject := false), if !st2.skip && st2.buf != [] then [ToMap(st2.buf)] else [])
    else (st2, [])
  }

  function FastLines(st: FastState, lines: seq<string>, filter: Filter): (FastState, seq<map<string, string>>)
  {
    if lines == [] then (st, [])
    else
      var (before, out) := FastLines(st, lines[..|lines| - 1], filter);
      var (after, more) := FastLine(before, lines[|lines| - 1], filter);
      (after, out + more)
  }

  const FAST_START := FastState(false, false, [])

  /** What the byte scanner makes of a text: it never fails. */
  function FastOutcome(text: string, filter: Filter): Outcome
  {
    Outcome(FastLines(FAST_START, ScanLines(text), filter).1, false)
  }

  lemma {:induction false} FastLinesSnoc(st: FastState, lines: seq<string>, line: string, filter: Filter)
    ensures var (mid, out) := FastLines(st, lines, filter);
      FastLines(st, lines + [line], filter) == (FastLine(mid, line, filter).0, out + FastLine(mid, line, filter).1)
  {
    assert (lines + [line])[..|lines|] == lines;
  }

  /** The body of the line loop: the objects handed over are those of `objects` and any new one. */
  method ScanLine(st: FastState, line: string, filter: Filter, objects: seq<map<string, string>>)
    returns (next: FastState, delivered: seq<map<string, string>>)
    ensures next == FastLine(st, line, filter).0 && delivered == objects + FastLine(st, line, filter).1
  {
    hide Extract;
    var inObject, skip, propBuf := st.inObject, st.skip, st.buf;
    delivered := objects;
    assert objects + [] == objects;
    if Contains(line, OBJECT_OPEN) {
      inObject, skip, propBuf := true, false, [];
    }
    if inObject && !skip {
      propBuf, skip := ExtractProperties(line, propBuf, filter);
    }
    if Contains(line, OBJECT_END) && inObject {
      inObject := false;
      if !skip && |propBuf| > 0 {
        var props := BuildProps(propBuf);
        delivered := objects + [props];
      }
    }
    next := FastState(inObject, skip, propBuf);
  }

  method ParseObjectStreamFast(text: string, filter: Filter) returns (objects: seq<map<string, string>>)
    ensures Outcome(objects, false) == FastOutcome(text, filter)
  {
    objects := [];
    var st, left := FAST_START, text;
    ghost var done: seq<string> := [];
    FastNothing(filter);
    assert [] + ScanLines(left) == ScanLines(left);
    hide FastLine, FastLines, FirstLine, Rest;
    while left != ""
      invariant ScanLines(text) == done + ScanLines(left)
      invariant (st, objects) == FastLines(FAST_START, done, filter)
      decreases |left|
    {
      var line, rest := FirstLine(left), Rest(left);
      FastLinesSnoc(FAST_START, done, line, filter);
      MoveOne(done, line, ScanLines(rest));
      st, objects := ScanLine(st, line, filter, objects);
      left, done := rest, done + [line];
    }
    assert done + [] == done;
  }

  lemma {:induction false} MoveOne<T>(a: seq<T>, x: T, b: seq<T>)
    ensures a + ([x] + b) == a + [x] + b
  {
  }

  lemma {:induction false} FastNothing(filter: Filter)
    ensures FastLines(FAST_START, [], filter) == (FAST_START, [])
  {
  }

  // ------------------------------------------------------------ the token parser

  datatype Attr = Attr(name: string, value: string)

  /** What the decoder yields before the end of the input or before its first error. */
  datatype Decoded = Decoded(tokens: seq<Token>, broken: bool)

  datatype Token = StartElement(name: string, attrs: seq<Attr>) | EndElement(name: string) | OtherToken

  /** The last attribute of that name wins; absent reads as empty. */
  function Attribute(attrs: seq<Attr>, name: string): string
  {
    if attrs == [] then ""
    else if attrs[|attrs| - 1].name == name then attrs[|attrs| - 1].value
    else Attribute(attrs[..|attrs| - 1], name)
  }

  method ReadAttributes(attrs: seq<Attr>) returns (name: string, value: string)
    ensures name == Attribute(attrs, "NAME") && value == Attribute(attrs, "VALUE")
  {
    name, value := "", "";
    for i := 0 to |attrs|
      invariant name == Attribute(attrs[..i], "NAME") && value == Attribute(attrs[..i], "VALUE")
    {
      assert attrs[..i + 1][..i] == attrs[..i];
      assert "NAME"[0] != "VALUE"[0];
      if attrs[i].name == "NAME" {
        name := attrs[i].value;
      } else if attrs[i].name == "VALUE" {
        value := attrs[i].value;
      }
    }
    assert attrs[..|attrs|] == attrs;
  }

  function XmlToken(st: FastState, t: Token, filter: Filter): (FastState, seq<map<string, string>>)
  {
    match t
    case StartElement(name, attrs) =>
      if name == "OBJECT" then (FastState(true, false, []), [])
      else if name == "PROPERTY" && st.inObject && !st.skip then
        var p := Prop(Attribute(attrs, "NAME"), Attribute(attrs, "VALUE"));
        if Rejected(p, filter) then (st.(skip := true), [])
        else (if p.name != "" then st.(buf := st.buf + [p]) else st, [])
      else (st, [])
    case EndElement(name) =>
      if name == "OBJECT" && st.inObject
      then (st.(inObject := false), if !st.skip && st.buf != [] then [ToMap(st.buf)] else [])
      else (st, [])
    case OtherToken => (st, [])
  }

  function XmlTokens(st: FastState, tokens: seq<Token>, filter: Filter): (FastState, seq<map<string, string>>)
  {
    if tokens == [] then (st, [])
    else
      var (before, out) := XmlTokens(st, tokens[..|tokens| - 1], filter);
      var (after, more) := XmlToken(before, tokens[|tokens| - 1], filter);
      (after, out + more)
  }

  function XmlOutcome(d: Decoded, filter: Filter): Outcome
  {
    Outcome(XmlTokens(FAST_START, d.tokens, filter).1, d.broken)
  }

  /** Objects are handed over as they end, also those before an error. */
  method ParseObjectStreamXML(input: Decoded, filter: Filter) returns (objects: seq<map<string, string>>, failed: bool)
    ensures Outcome(objects, failed) == XmlOutcome(input, filter)
  {
    var tokens := input.tokens;
    objects := [];
    var propBuf, inObject, skip := [], false, false;
    for i := 0 to |tokens|
      invariant (FastState(inObject, skip, propBuf), objects) == XmlTokens(FAST_START, tokens[..i], filter)
    {
      assert tokens[..i + 1][..i] == tokens[..i];
      ghost var step := XmlToken(FastState(inObject, skip, propBuf), tokens[i], filter);
      ghost var before := objects;
      match tokens[i] {
        case StartElement(elem, attrs) =>
          if elem == "OBJECT" {
            inObject, skip, propBuf := true, false, [];
          } else if elem == "PROPERTY" && inObject && !skip {
            var name, value := ReadAttributes(attrs);
            if name == TYPE_NAME && filter.Some? && value !in filter.value {
              skip := true;
            } else if name != "" {
              propBuf := propBuf + [Prop(name, value)];
            }
          }
        case EndElement(elem) =>
          if elem == "OBJECT" && inObject {
            inObject := false;
            if !skip && |propBuf| > 0 {
              var props := BuildProps(propBuf);
              objects := objects + [props];
            }
          }
        case OtherToken =>
      }
      assert FastState(inObject, skip, propBuf) == step.0 && objects == before + step.1;
    }
    assert tokens[..|tokens|] == tokens;
    failed := input.broken;
  }
}
