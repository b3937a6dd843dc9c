/** internal/scanner/nios/qps_parser.go: a state machine over XML tokens that keeps the peak value of
    each column of a Splunk export; and the merging of the peaks into the server metrics. */
module SplunkQps {
  import opened Base

  /** XML tokens; Other stands for comments, directives and processing instructions. */
  datatype Token = Open(name: string, attrs: seq<(string, string)>) | Close(name: string) | Chars(text: string) | Other

  datatype State = Init | FieldOrder | Column | InResult | ResultField | Value | Text

  /** The machine: its state, the k attribute and the text being gathered, and the peaks so far. */
  datatype Machine = Machine(state: State, fieldK: string, textBuf: string, peaks: map<string, real>)

  const START := Machine(Init, "", "", map[])

  /** strconv.ParseFloat; infinities and NaN are not part of this model. */
  type ParseFloat = string -> Option<real>

  /** The value of the last attribute named k. */
  function KeyOf(attrs: seq<(string, string)>): string
  {
    if attrs == [] then ""
    else if attrs[|attrs| - 1].0 == "k" then attrs[|attrs| - 1].1 else KeyOf(attrs[..|attrs| - 1])
  }

  /** The value of the last attribute "k", and nothing when there is none. */
  lemma {:induction false} KeyIsLast(before: seq<(string, string)>, value: string, after: seq<(string, string)>)
    requires forall a | a in after :: a.0 != "k"
    ensures KeyOf(before + [("k", value)] + after) == value && KeyOf(after) == ""
  {
    var all := before + [("k", value)] + after;
    if after != [] {
      var n := |after| - 1;
      assert all[..|all| - 1] == before + [("k", value)] + after[..n] && all[|all| - 1] == after[n];
      KeyIsLast(before, value, after[..n]);
    } else {
      assert all == before + [("k", value)];
    }
  }

  /** Go's lookup in a map of numbers. */
  function Peak(peaks: map<string, real>, key: string): real { if key in peaks then peaks[key] else 0.0 }

  /** What one field of a result does to the peaks. */
  function Note(parse: ParseFloat, peaks: map<string, real>, key: string, text: string): map<string, real>
  {
    if key != "" && key != "_time" && text != "" && parse(text).Some? && parse(text).value > Peak(peaks, key)
    then peaks[key := parse(text).value] else peaks
  }

  function OnOpen(m: Machine, name: string, attrs: seq<(string, string)>): Machine
  {
    if name == "fieldOrder" then m.(state := FieldOrder)
    else if name == "field" then
      if m.state == FieldOrder then m.(state := Column)
      else if m.state == InResult || m.state == ResultField then m.(state := ResultField, fieldK := KeyOf(attrs)) else m
    else if name == "result" then m.(state := InResult)
    else if name == "value" then if m.state == ResultField then m.(state := Value) else m
    else if name == "text" then if m.state == Value then m.(state := Text, textBuf := "") else m
    else m
  }

  function OnClose(parse: ParseFloat, m: Machine, name: string): Machine
  {
    if name == "fieldOrder" then m.(state := Init)
    else if name == "field" then
      if m.state == Column then m.(state := FieldOrder)
      else if m.state == ResultField || m.state == Value
      then Machine(InResult, "", "", Note(parse, m.peaks, m.fieldK, m.textBuf)) else m
    else if name == "result" then m.(state := Init)
    else if name == "value" then if m.state == Value then m.(state := ResultField) else m
    else if name == "text" then if m.state == Text then m.(state := Value) else m
    else m
  }

  function Next(parse: ParseFloat, m: Machine, t: Token): Machine
  {
    match t
    case Open(name, attrs) => OnOpen(m, name, attrs)
    case Close(name) => OnClose(parse, m, name)
    case Chars(text) => if m.state == Text then m.(textBuf := m.textBuf + text) else m
    case Other => m
  }

  function Run(parse: ParseFloat, m: Machine, ts: seq<Token>): Machine
    decreases |ts|
  {
    if ts == [] then m else Run(parse, Next(parse, m, ts[0]), ts[1..])
  }

  /** The token loop. `broken` says that the decoder failed after the last token. */
  method ParseSplunkQPS(parse: ParseFloat, tokens: seq<Token>, broken: bool)
      returns (peakQPS: Option<map<string, real>>)
    ensures peakQPS == if broken then None else Some(Run(parse, START, tokens).peaks)
  {
    var current, fieldK, textBuf := Init, "", "";
    var peaks: map<string, real> := map[];
    for n := 0 to |tokens|
      invariant Run(parse, Machine(current, fieldK, textBuf, peaks), tokens[n..]) == Run(parse, START, tokens)
    {
      assert tokens[n..][1..] == tokens[n + 1..];
      ghost var before := Machine(current, fieldK, textBuf, peaks);
      var t := tokens[n];
      match t {
        case Open(name, attrs) =>
          if name == "fieldOrder" {
            current := FieldOrder;
          } else if name == "field" {
            if current == FieldOrder {
              current := Column;
            } else if current == InResult || current == ResultField {
              current := ResultField;
              fieldK := FindKey(attrs);
            }
          } else if name == "result" {
            current := InResult;
          } else if name == "value" {
            if current == ResultField {
              current := Value;
            }
          } else if name == "text" {
            if current == Value {
              current := Text;
              textBuf := "";
            }
          }
        case Chars(text) =>
          if current == Text {
            textBuf := textBuf + text;
          }
        case Close(name) =>
          if name == "fieldOrder" {
            current := Init;
          } else if name == "field" {
            if current == Column {
              current := FieldOrder;
            } else if current == ResultField || current == Value {
              if fieldK != "" && fieldK != "_time" && textBuf != "" {
                var val := parse(textBuf);
                if val.Some? {
                  if val.value > Peak(peaks, fieldK) {
                    peaks := peaks[fieldK := val.value];
                  }
                }
              }
              current := InResult;
              fieldK := "";
              textBuf := "";
            }
          } else if name == "result" {
            current := Init;
          } else if name == "value" {
            if current == Value {
              current := ResultField;
            }
          } else if name == "text" {
            if current == Text {
              current := Value;
            }
          }
        case Other =>
      }
      assert Machine(current, fieldK, textBuf, peaks) == Next(parse, before, t);
    }
    if broken {
      return None;
    }
    assert tokens[|tokens|..] == [];
    return Some(peaks);
  }

  method FindKey(attrs: seq<(string, string)>) returns (fieldK: string)
    ensures fieldK == KeyOf(attrs)
  {
    fieldK := "";
    for i := 0 to |attrs|
      invariant fieldK == KeyOf(attrs[..i])
    {
      assert attrs[..i + 1][..i] == attrs[..i];
      if attrs[i].0 == "k" {
        fieldK := attrs[i].1;
      }
    }
    assert attrs[..|attrs|] == attrs;
  }

  // ------------------------------------------------------------ exports

  const NAMES: set<string> := {"fieldOrder", "field", "result", "value", "text"}

  /** Tokens that may stand between the elements of an export: white space, comments, other elements. */
  predicate Noise(t: Token)
  {
    match t
    case Open(name, _) => name !in NAMES
    case Close(name) => name !in NAMES
    case _ => true
  }

  type Gap = seq<Token>

  predicate IsGap(g: Gap) { forall t | t in g :: Noise(t) }

  /** Character data, possibly in pieces and with comments. */
  predicate IsContent(ts: seq<Token>) { forall t | t in ts :: t.Chars? || t.Other? }

  datatype TextElem = TextElem(content: seq<Token>, after: Gap)
  datatype ValueElem = ValueElem(lead: Gap, texts: seq<TextElem>, after: Gap)
  datatype FieldElem = FieldElem(attrs: seq<(string, string)>, lead: Gap, values: seq<ValueElem>, after: Gap)
  datatype ColumnElem = ColumnElem(attrs: seq<(string, string)>, content: seq<Token>, after: Gap)
  datatype Item = FieldOrderItem(lead: Gap, columns: seq<ColumnElem>, after: Gap)
                | ResultItem(attrs: seq<(string, string)>, lead: Gap, fields: seq<FieldElem>, after: Gap)
  datatype Export = Export(lead: Gap, items: seq<Item>)

  predicate WellFormedText(t: TextElem) { IsContent(t.content) && IsGap(t.after) }

  predicate WellFormedValue(v: ValueElem)
  {
    IsGap(v.lead) && IsGap(v.after) && forall t | t in v.texts :: WellFormedText(t)
  }

  predicate WellFormedField(f: FieldElem)
  {
    IsGap(f.lead) && IsGap(f.after) && forall v | v in f.values :: WellFormedValue(v)
  }

  predicate WellFormedColumn(c: ColumnElem) { IsContent(c.content) && IsGap(c.after) }

  predicate WellFormedItem(i: Item)
  {
    match i
    case FieldOrderItem(lead, columns, after) => IsGap(lead) && IsGap(after) && forall c | c in columns ::
      WellFormedColumn(c)
    case ResultItem(_, lead, fields, after) => IsGap(lead) && IsGap(after) && forall f | f in fields ::
      WellFormedField(f)
  }

  predicate WellFormed(e: Export) { IsGap(e.lead) && forall i | i in e.items :: WellFormedItem(i) }

  function PrintText(t: TextElem): seq<Token> { [Open("text", [])] + (t.content + ([Close("text")] + t.after)) }

  function PrintTexts(ts: seq<TextElem>): seq<Token> { if ts == [] then [] else PrintText(ts[0]) + PrintTexts(ts[1..]) }

  function PrintValue(v: ValueElem): seq<Token>
  {
    [Open("value", [])] + (v.lead + (PrintTexts(v.texts) + ([Close("value")] + v.after)))
  }

  function PrintValues(vs: seq<ValueElem>): seq<Token>
  {
    if vs == [] then [] else PrintValue(vs[0]) + PrintValues(vs[1..])
  }

  function PrintField(f: FieldElem): seq<Token>
  {
    [Open("field", f.attrs)] + (f.lead + (PrintValues(f.values) + ([Close("field")] + f.after)))
  }

  function PrintFields(fs: seq<FieldElem>): seq<Token>
  {
    if fs == [] then [] else PrintField(fs[0]) + PrintFields(fs[1..])
  }

  function PrintColumn(c: ColumnElem): seq<Token>
  {
    [Open("field", c.attrs)] + (c.content + ([Close("field")] + c.after))
  }

  function PrintColumns(cs: seq<ColumnElem>): seq<Token>
  {
    if cs == [] then [] else PrintColumn(cs[0]) + PrintColumns(cs[1..])
  }

  function PrintItem(i: Item): seq<Token>
  {
    match i
    case FieldOrderItem(lead, columns, after) =>
      [Open("fieldOrder", [])] + (lead + (PrintColumns(columns) + ([Close("fieldOrder")] + after)))
    case ResultItem(attrs, lead, fields, after) =>
      [Open("result", attrs)] + (lead + (PrintFields(fields) + ([Close("result")] + after)))
  }

  function PrintItems(is_: seq<Item>): seq<Token> { if is_ == [] then [] else PrintItem(is_[0]) + PrintItems(is_[1..]) }

  function Print(e: Export): seq<Token> { e.lead + PrintItems(e.items) }

  // ------------------------------------------------------------ what an export says

  function Content(ts: seq<Token>): string
  {
    if ts == [] then "" else (if ts[0].Chars? then ts[0].text else "") + Content(ts[1..])
  }

  /** The text of the last text element, if any. */
  function LastText(ts: seq<TextElem>, otherwise: string): string
  {
    if ts == [] then otherwise else LastText(ts[1..], Content(ts[0].content))
  }

  function LastOf(vs: seq<ValueElem>, otherwise: string): string
  {
    if vs == [] then otherwise else LastOf(vs[1..], LastText(vs[0].texts, otherwise))
  }

  /** A field of a result: its name and its last text. */
  datatype Reading = Reading(key: string, text: string)

  function ReadingOf(f: FieldElem): Reading { Reading(KeyOf(f.attrs), LastOf(f.values, "")) }

  function FieldReadings(fs: seq<FieldElem>): seq<Reading>
  {
    if fs == [] then [] else [ReadingOf(fs[0])] + FieldReadings(fs[1..])
  }

  function Readings(is_: seq<Item>): seq<Reading>
  {
    if is_ == [] then [] else (if is_[0].ResultItem? then FieldReadings(is_[0].fields) else []) + Readings(is_[1..])
  }

  function NoteAll(parse: ParseFloat, peaks: map<string, real>, rs: seq<Reading>): map<string, real>
    decreases |rs|
  {
    if rs == [] then peaks else NoteAll(parse, Note(parse, peaks, rs[0].key, rs[0].text), rs[1..])
  }

  // ------------------------------------------------------------ the machine on an export

  lemma {:induction false} RunAppend(parse: ParseFloat, m: Machine, a: seq<Token>, b: seq<Token>)
    ensures Run(parse, m, a + b) == Run(parse, Run(parse, m, a), b)
    decreases |a|
  {
    if a == [] {
      assert a + b == b;
    } else {
      assert (a + b)[1..] == a[1..] + b;
      RunAppend(parse, Next(parse, m, a[0]), a[1..], b);
    }
  }

  lemma {:induction false} RunHead(parse: ParseFloat, m: Machine, t: Token, b: seq<Token>)
    ensures Run(parse, m, [t] + b) == Run(parse, Next(parse, m, t), b)
  {
    assert ([t] + b)[1..] == b;
  }

  /** Outside columns and texts, noise changes nothing. */
  lemma {:induction false} RunGap(parse: ParseFloat, m: Machine, g: Gap)
    requires IsGap(g) && m.state != Text
    ensures Run(parse, m, g) == m
    decreases |g|
  {
    if g != [] {
      assert Noise(g[0]);
      RunGap(parse, m, g[1..]);
    }
  }

  lemma {:induction false} RunContent(parse: ParseFloat, m: Machine, ts: seq<Token>)
    requires IsContent(ts) && m.state == Text
    ensures Run(parse, m, ts) == m.(textBuf := m.textBuf + Content(ts))
    decreases |ts|
  {
    if ts == [] {
      assert m.textBuf + "" == m.textBuf;
    } else {
      var t, more := ts[0], if ts[0].Chars? then ts[0].text else "";
      assert t.Chars? || t.Other?;
      assert m.textBuf + "" == m.textBuf;
      var next := m.(textBuf := m.textBuf + more);
      assert Next(parse, m, t) == next && Content(ts) == more + Content(ts[1..]);
      RunContent(parse, next, ts[1..]);
      hide Next, Content;
      assert m.textBuf + more + Content(ts[1..]) == m.textBuf + (more + Content(ts[1..]));
    }
  }

  lemma {:induction false} RunText(parse: ParseFloat, m: Machine, t: TextElem)
    requires WellFormedText(t) && m.state == Value
    ensures Run(parse, m, PrintText(t)) == m.(textBuf := Content(t.content))
  {
    hide Run, IsGap, IsContent;
    var begun := m.(state := Text, textBuf := "");
    RunHead(parse, m, Open("text", []), t.content + ([Close("text")] + t.after));
    RunAppend(parse, begun, t.content, [Close("text")] + t.after);
    RunContent(parse, begun, t.content);
    assert "" + Content(t.content) == Content(t.content);
    var gathered := begun.(textBuf := Content(t.content));
    RunHead(parse, gathered, Close("text"), t.after);
    RunGap(parse, gathered.(state := Value), t.after);
  }

  lemma {:induction false} RunTexts(parse: ParseFloat, m: Machine, ts: seq<TextElem>)
    requires m.state == Value && forall t | t in ts :: WellFormedText(t)
    ensures Run(parse, m, PrintTexts(ts)) == m.(textBuf := LastText(ts, m.textBuf))
    decreases |ts|
  {
    if ts != [] {
      hide Run, WellFormedText, PrintText;
      var after := m.(textBuf := Content(ts[0].content));
      RunAppend(parse, m, PrintText(ts[0]), PrintTexts(ts[1..]));
      RunText(parse, m, ts[0]);
      RunTexts(parse, after, ts[1..]);
    }
  }

  lemma {:induction false} RunValue(parse: ParseFloat, m: Machine, v: ValueElem)
    requires WellFormedValue(v) && m.state == ResultField
    ensures Run(parse, m, PrintValue(v)) == m.(textBuf := LastText(v.texts, m.textBuf))
  {
    hide Run, IsGap, WellFormedText, PrintTexts;
    var inside := m.(state := Value);
    var tail := [Close("value")] + v.after;
    RunHead(parse, m, Open("value", []), v.lead + (PrintTexts(v.texts) + tail));
    RunAppend(parse, inside, v.lead, PrintTexts(v.texts) + tail);
    RunGap(parse, inside, v.lead);
    RunAppend(parse, inside, PrintTexts(v.texts), tail);
    RunTexts(parse, inside, v.texts);
    var gathered := inside.(textBuf := LastText(v.texts, m.textBuf));
    RunHead(parse, gathered, Close("value"), v.after);
    RunGap(parse, gathered.(state := ResultField), v.after);
  }

  lemma {:induction false} RunValues(parse: ParseFloat, m: Machine, vs: seq<ValueElem>)
    requires m.state == ResultField && forall v | v in vs :: WellFormedValue(v)
    ensures Run(parse, m, PrintValues(vs)) == m.(textBuf := LastOf(vs, m.textBuf))
    decreases |vs|
  {
    if vs != [] {
      hide Run, WellFormedValue, PrintValue;
      RunAppend(parse, m, PrintValue(vs[0]), PrintValues(vs[1..]));
      RunValue(parse, m, vs[0]);
      RunValues(parse, m.(textBuf := LastText(vs[0].texts, m.textBuf)), vs[1..]);
    }
  }

  /** One field of a result: the machine is back in the result with the reading noted. */
  lemma {:induction false} RunField(parse: ParseFloat, peaks: map<string, real>, f: FieldElem)
    requires WellFormedField(f)
    ensures Run(parse, Machine(InResult, "", "", peaks), PrintField(f))
            == Machine(InResult, "", "", Note(parse, peaks, ReadingOf(f).key, ReadingOf(f).text))
  {
    hide Run, IsGap, WellFormedValue, PrintValues, Note, KeyOf;
    var m := Machine(InResult, "", "", peaks);
    var inside := m.(state := ResultField, fieldK := KeyOf(f.attrs));
    var tail := [Close("field")] + f.after;
    RunHead(parse, m, Open("field", f.attrs), f.lead + (PrintValues(f.values) + tail));
    RunAppend(parse, inside, f.lead, PrintValues(f.values) + tail);
    RunGap(parse, inside, f.lead);
    RunAppend(parse, inside, PrintValues(f.values), tail);
    RunValues(parse, inside, f.values);
    var gathered := inside.(textBuf := LastOf(f.values, ""));
    RunHead(parse, gathered, Close("field"), f.after);
    RunGap(parse, Machine(InResult, "", "", Note(parse, peaks, KeyOf(f.attrs), LastOf(f.values, ""))), f.after);
  }

  lemma {:induction false} RunFields(parse: ParseFloat, peaks: map<string, real>, fs: seq<FieldElem>)
    requires forall f | f in fs :: WellFormedField(f)
    ensures Run(parse, Machine(InResult, "", "", peaks), PrintFields(fs))
            == Machine(InResult, "", "", NoteAll(parse, peaks, FieldReadings(fs)))
    decreases |fs|
  {
    if fs != [] {
      hide Run, WellFormedField, PrintField, Note, ReadingOf;
      var m, r := Machine(InResult, "", "", peaks), ReadingOf(fs[0]);
      RunAppend(parse, m, PrintField(fs[0]), PrintFields(fs[1..]));
      RunField(parse, peaks, fs[0]);
      RunFields(parse, Note(parse, peaks, r.key, r.text), fs[1..]);
      NoteHead(parse, peaks, r, FieldReadings(fs[1..]));
    }
  }

  lemma {:induction false} NoteHead(parse: ParseFloat, peaks: map<string, real>, r: Reading, rs: seq<Reading>)
    ensures NoteAll(parse, peaks, [r] + rs) == NoteAll(parse, Note(parse, peaks, r.key, r.text), rs)
  {
    assert ([r] + rs)[1..] == rs;
  }

  lemma {:induction false} NoteAppend(parse: ParseFloat, peaks: map<string, real>, a: seq<Reading>, b: seq<Reading>)
    ensures NoteAll(parse, peaks, a + b) == NoteAll(parse, NoteAll(parse, peaks, a), b)
    decreases |a|
  {
    if a == [] {
      assert a + b == b;
    } else {
      assert (a + b)[1..] == a[1..] + b;
      NoteAppend(parse, Note(parse, peaks, a[0].key, a[0].text), a[1..], b);
    }
  }

  lemma {:induction false} RunColumns(parse: ParseFloat, m: Machine, cs: seq<ColumnElem>)
    requires m.state == FieldOrder && forall c | c in cs :: WellFormedColumn(c)
    ensures Run(parse, m, PrintColumns(cs)) == m
    decreases |cs|
  {
    if cs != [] {
      var c, rest := cs[0], PrintColumns(cs[1..]);
      assert WellFormedColumn(c);
      ContentIsGap(c.content);
      hide Run, IsGap, IsContent;
      var inside := m.(state := Column);
      RunAppend(parse, m, PrintColumn(c), rest);
      RunHead(parse, m, Open("field", c.attrs), c.content + ([Close("field")] + c.after));
      RunAppend(parse, inside, c.content, [Close("field")] + c.after);
      RunGap(parse, inside, c.content);
      RunHead(parse, inside, Close("field"), c.after);
      RunGap(parse, m, c.after);
      RunColumns(parse, m, cs[1..]);
    }
  }

  lemma {:induction false} ContentIsGap(ts: seq<Token>)
    requires IsContent(ts)
    ensures IsGap(ts)
  {
    forall t | t in ts
      ensures Noise(t)
    {
      assert t.Chars? || t.Other?;
    }
  }

  lemma {:induction false} RunItem(parse: ParseFloat, peaks: map<string, real>, i: Item)
    requires WellFormedItem(i)
    ensures Run(parse, Machine(Init, "", "", peaks), PrintItem(i))
            == Machine(Init, "", "", NoteAll(parse, peaks, if i.ResultItem? then FieldReadings(i.fields) else []))
  {
    hide Run, IsGap, PrintFields, PrintColumns, WellFormedField, WellFormedColumn, FieldReadings;
    var m := Machine(Init, "", "", peaks);
    if i.ResultItem? {
      var inside, tail := m.(state := InResult), [Close("result")] + i.after;
      RunHead(parse, m, Open("result", i.attrs), i.lead + (PrintFields(i.fields) + tail));
      RunAppend(parse, inside, i.lead, PrintFields(i.fields) + tail);
      RunGap(parse, inside, i.lead);
      RunAppend(parse, inside, PrintFields(i.fields), tail);
      RunFields(parse, peaks, i.fields);
      var noted := NoteAll(parse, peaks, FieldReadings(i.fields));
      RunHead(parse, Machine(InResult, "", "", noted), Close("result"), i.after);
      RunGap(parse, Machine(Init, "", "", noted), i.after);
    } else {
      var inside, tail := m.(state := FieldOrder), [Close("fieldOrder")] + i.after;
      RunHead(parse, m, Open("fieldOrder", []), i.lead + (PrintColumns(i.columns) + tail));
      RunAppend(parse, inside, i.lead, PrintColumns(i.columns) + tail);
      RunGap(parse, inside, i.lead);
      RunAppend(parse, inside, PrintColumns(i.columns), tail);
      RunColumns(parse, inside, i.columns);
      RunHead(parse, inside, Close("fieldOrder"), i.after);
      RunGap(parse, m, i.after);
    }
  }

  lemma {:induction false} RunItems(parse: ParseFloat, peaks: map<string, real>, is_: seq<Item>)
    requires forall i | i in is_ :: WellFormedItem(i)
    ensures Run(parse, Machine(Init, "", "", peaks), PrintItems(is_))
            == Machine(Init, "", "", NoteAll(parse, peaks, Readings(is_)))
    decreases |is_|
  {
    if is_ != [] {
      hide Run, WellFormedItem, PrintItem, FieldReadings, NoteAll;
      var rs := if is_[0].ResultItem? then FieldReadings(is_[0].fields) else [];
      RunAppend(parse, Machine(Init, "", "", peaks), PrintItem(is_[0]), PrintItems(is_[1..]));
      RunItem(parse, peaks, is_[0]);
      RunItems(parse, NoteAll(parse, peaks, rs), is_[1..]);
      NoteAppend(parse, peaks, rs, Readings(is_[1..]));
    }
  }

  // ------------------------------------------------------------ peaks are maxima

  /** A reading that counts for `key`, with the value `v`. */
  predicate Counts(parse: ParseFloat, r: Reading, key: string, v: real)
  {
    r.key == key && key != "" && key != "_time" && r.text != "" && parse(r.text) == Some(v)
  }

  /** `peaks` has exactly the positive maxima: the value of a key is reached and never exceeded, and a
      key is absent when nothing positive counts for it. */
  ghost predicate Maxima(parse: ParseFloat, rs: seq<Reading>, peaks: map<string, real>)
  {
    && (forall key | key in peaks :: peaks[key] > 0.0 && exists r :: r in rs && Counts(parse, r, key, peaks[key]))
    && (forall r, key, v | r in rs && Counts(parse, r, key, v) :: v <= Peak(peaks, key))
  }

  lemma {:induction false} NoteKeepsMaxima(parse: ParseFloat, rs: seq<Reading>, peaks: map<string, real>, r: Reading)
    requires Maxima(parse, rs, peaks)
    ensures Maxima(parse, rs + [r], Note(parse, peaks, r.key, r.text))
  {
    var after, all := Note(parse, peaks, r.key, r.text), rs + [r];
    assert all[|rs|] == r;
    forall key | key in after
      ensures after[key] > 0.0 && exists x :: x in all && Counts(parse, x, key, after[key])
    {
      if key in peaks && after[key] == peaks[key] {
        var x :| x in rs && Counts(parse, x, key, peaks[key]);
        assert x in all;
      } else {
        assert r in all && Counts(parse, r, key, after[key]);
        assert key in peaks ==> peaks[key] > 0.0;
      }
    }
    forall x, key, v | x in all && Counts(parse, x, key, v)
      ensures v <= Peak(after, key)
    {
      if x in rs {
        assert v <= Peak(peaks, key);
      }
    }
  }

  lemma {:induction false} NoteAllKeepsMaxima(parse: ParseFloat, before: seq<Reading>, peaks: map<string, real>,
                                              rs: seq<Reading>)
    requires Maxima(parse, before, peaks)
    ensures Maxima(parse, before + rs, NoteAll(parse, peaks, rs))
    decreases |rs|
  {
    if rs == [] {
      assert before + rs == before;
    } else {
      hide Maxima, Note;
      NoteKeepsMaxima(parse, before, peaks, rs[0]);
      NoteAllKeepsMaxima(parse, before + [rs[0]], Note(parse, peaks, rs[0].key, rs[0].text), rs[1..]);
      assert before + [rs[0]] + rs[1..] == before + rs;
    }
  }

  /** On any well-formed export, with any white space, comments and foreign elements in between, the
      result has the maximum over all results of each field's last text. */
  lemma {:induction false} PeaksOfExport(parse: ParseFloat, e: Export)
    requires WellFormed(e)
    ensures Maxima(parse, Readings(e.items), Run(parse, START, Print(e)).peaks)
  {
    hide Run, Maxima, Readings, NoteAll, PrintItems;
    RunAppend(parse, START, e.lead, PrintItems(e.items));
    RunGap(parse, START, e.lead);
    RunItems(parse, map[], e.items);
    NoPeaks(parse);
    NoteAllKeepsMaxima(parse, [], map[], Readings(e.items));
    assert [] + Readings(e.items) == Readings(e.items);
  }

  lemma {:induction false} NoPeaks(parse: ParseFloat)
    ensures Maxima(parse, [], map[])
  {
  }

  /** There is only one map of maxima, so the order of the results does not matter. */
  lemma {:induction false} MaximaAreUnique(parse: ParseFloat, rs: seq<Reading>, a: map<string, real>,
                                           b: map<string, real>)
    requires Maxima(parse, rs, a) && Maxima(parse, rs, b)
    ensures a == b
  {
    forall key
      ensures (key in a <==> key in b) && (key in a ==> a[key] == b[key])
    {
      if key in a {
        var r :| r in rs && Counts(parse, r, key, a[key]);
        assert a[key] <= Peak(b, key);
      }
      if key in b {
        var r :| r in rs && Counts(parse, r, key, b[key]);
        assert b[key] <= Peak(a, key);
      }
    }
  }

  /** The smallest export: one result with one field of one value. */
  function SmallExport(key: string, text: string): seq<Token>
  {
    [Open("result", [])] + ([Open("field", [("k", key)])] + ([Open("value", [])] + ([Open("text", [])] + ([Chars(text)]
    + ([Close("text")] + ([Close("value")] + ([Close("field")] + [Close("result")])))))))
  }

  lemma {:induction false} SmallExportPeaks(parse: ParseFloat, key: string, text: string, v: real)
    requires key != "" && key != "_time" && text != "" && parse(text) == Some(v) && v > 0.0
    ensures Run(parse, START, SmallExport(key, text)).peaks == map[key := v]
  {
    var m2 := Machine(ResultField, key, "", map[]);
    var m5 := Machine(Text, key, text, map[]);
    SmallSteps(parse, key, text, v);
    hide Next;
    var closing := [Close("field")] + [Close("result")];
    var inner := [Chars(text)] + ([Close("text")] + ([Close("value")] + closing));
    RunHead(parse, START, Open("result", []),
            [Open("field", [("k", key)])] + ([Open("value", [])] + ([Open("text", [])] + inner)));
    RunHead(parse, Machine(InResult, "", "", map[]), Open("field", [("k", key)]),
            [Open("value", [])] + ([Open("text", [])] + inner));
    RunHead(parse, m2, Open("value", []), [Open("text", [])] + inner);
    RunHead(parse, m2.(state := Value), Open("text", []), inner);
    SmallEnd(parse, key, text, v);
  }

  lemma {:induction false} SmallEnd(parse: ParseFloat, key: string, text: string, v: real)
    requires key != "" && key != "_time" && text != "" && parse(text) == Some(v) && v > 0.0
    ensures Run(parse, Machine(Text, key, "", map[]),
                [Chars(text)] + ([Close("text")] + ([Close("value")] + ([Close("field")] + [Close("result")])))).peaks
            == map[key := v]
  {
    var m5 := Machine(Text, key, text, map[]);
    var closing := [Close("field")] + [Close("result")];
    SmallSteps(parse, key, text, v);
    assert Run(parse, Machine(Init, "", "", map[key := v]), []) == Machine(Init, "", "", map[key := v]);
    hide Next;
    RunHead(parse, Machine(Text, key, "", map[]), Chars(text), [Close("text")] + ([Close("value")] + closing));
    RunHead(parse, m5, Close("text"), [Close("value")] + closing);
    RunHead(parse, m5.(state := Value), Close("value"), closing);
    RunHead(parse, m5.(state := ResultField), Close("field"), [Close("result")]);
    RunHead(parse, Machine(InResult, "", "", map[key := v]), Close("result"), []);
    assert [Close("result")] + [] == [Close("result")];
  }

  /** The machine's moves on the smallest export. */
  lemma {:induction false} SmallSteps(parse: ParseFloat, key: string, text: string, v: real)
    requires key != "" && key != "_time" && text != "" && parse(text) == Some(v) && v > 0.0
    ensures var m1, m2 := Machine(InResult, "", "", map[]), Machine(ResultField, key, "", map[]);
      var m5, m8 := Machine(Text, key, text, map[]), Machine(InResult, "", "", map[key := v]);
      && Next(parse, START, Open("result", [])) == m1 && Next(parse, m1, Open("field", [("k", key)])) == m2
      && Next(parse, m2, Open("value", [])) == m2.(state := Value)
      && Next(parse, m2.(state := Value), Open("text", [])) == m2.(state := Text)
      && Next(parse, m2.(state := Text), Chars(text)) == m5 && Next(parse, m5, Close("text")) == m5.(state := Value)
      && Next(parse, m5.(state := Value), Close("value")) == m5.(state := ResultField)
      && Next(parse, m5.(state := ResultField), Close("field")) == m8
      && Next(parse, m8, Close("result")) == Machine(Init, "", "", map[key := v])
  {
    assert [("k", key)][..0] == [] && KeyOf([("k", key)]) == key && "" + text == text;
    hide KeyOf;
  }
}
