/** The canonical text of the appliance table and a reader that recovers the table from it. `escape`
    is either language's way of escaping a character. */
module SpecTable {
  import opened Base
  import opened JsonText

  type Escape = char -> string

  /** RAM in hundredths of a gigabyte. */
  datatype Variant = Variant(configName: string, vCPU: int, ramGB: int, instanceType: string, instanceTypeAlt: string)

  datatype Spec = Spec(model: string, generation: string, platform: string, variants: seq<Variant>,
                       defaultVariantIndex: int, vmwareOnly: bool)

  function Key(name: string): string { "\"" + name + "\":" }

  function Field(name: string, text: string): string { "," + Key(name) + text }

  /** Absent when empty. */
  function Optional(escape: Escape, name: string, s: string): string
  {
    if s == "" then "" else Field(name, Quoted(escape, s))
  }

  function Joined(texts: seq<string>): string
  {
    if texts == [] then "" else if |texts| == 1 then texts[0]
    else Joined(texts[..|texts| - 1]) + "," + texts[|texts| - 1]
  }

  function VariantText(escape: Escape, v: Variant): string
  {
    "{" + Key("configName") + Quoted(escape, v.configName)
    + Optional(escape, "instanceType", v.instanceType) + Optional(escape, "instanceTypeAlt", v.instanceTypeAlt)
    + Field("ramGB", NumberText(v.ramGB)) + Field("vCPU", Itoa(v.vCPU)) + "}"
  }

  function VariantTexts(escape: Escape, vs: seq<Variant>): seq<string>
  {
    seq(|vs|, i requires 0 <= i < |vs| => VariantText(escape, vs[i]))
  }

  function VmwareText(vmwareOnly: bool): string { if vmwareOnly then Field("vmwareOnly", "true") else "" }

  function VariantsField(escape: Escape, vs: seq<Variant>): string
  {
    Field("variants", "[" + Joined(VariantTexts(escape, vs)) + "]")
  }

  function SpecText(escape: Escape, s: Spec): string
  {
    "{" + Key("defaultVariantIndex") + Itoa(s.defaultVariantIndex) + Field("generation", Quoted(escape, s.generation))
    + Field("model", Quoted(escape, s.model)) + Field("platform", Quoted(escape, s.platform))
    + VariantsField(escape, s.variants) + VmwareText(s.vmwareOnly) + "}"
  }

  function SpecTexts(escape: Escape, specs: seq<Spec>): seq<string>
  {
    seq(|specs|, i requires 0 <= i < |specs| => SpecText(escape, specs[i]))
  }

  function TableText(escape: Escape, specs: seq<Spec>): string { "[" + Joined(SpecTexts(escape, specs)) + "]" }

  // ------------------------------------------------------------ the reader

  function ReadOptional(s: string, name: string): Read<string>
  {
    match Expect(s, "," + Key(name))
    case Got(_, k) => ReadString(k)
    case Bad => Got("", s)
  }

  function ReadField(s: string, name: string): Read<string>
  {
    var (_, k) :- Expect(s, "," + Key(name));
    ReadString(k)
  }

  function ReadRest<T>(item: string -> Read<T>, s: string, acc: seq<T>): Read<seq<T>>
    decreases |s|
  {
    if s != "" && s[0] == ']' then Got(acc, s[1..])
    else
      var (_, s1) :- Expect(s, ",");
      var (x, s2) :- item(s1);
      if |s2| < |s| then ReadRest(item, s2, acc + [x]) else Bad
  }

  /** A bracketed list of items separated by commas. */
  function ReadList<T>(item: string -> Read<T>, s: string): Read<seq<T>>
  {
    var (_, s1) :- Expect(s, "[");
    if s1 != "" && s1[0] == ']' then Got([], s1[1..])
    else
      var (x, s2) :- item(s1);
      ReadRest(item, s2, [x])
  }

  /** RAM and vCPU, to the end of the variant. */
  function ReadSize(s: string): Read<(int, int)>
  {
    var (_, s1) :- Expect(s, "," + Key("ramGB"));
    var (ramGB, s2) :- ReadNumber(s1);
    var (_, s3) :- Expect(s2, "," + Key("vCPU"));
    var (vCPU, s4) :- ReadInt(s3);
    var (_, s5) :- Expect(s4, "}");
    Got((ramGB, vCPU), s5)
  }

  function ReadVariant(s: string): Read<Variant>
  {
    var (_, s1) :- Expect(s, "{" + Key("configName"));
    var (configName, s2) :- ReadString(s1);
    var (instanceType, s3) :- ReadOptional(s2, "instanceType");
    var (instanceTypeAlt, s4) :- ReadOptional(s3, "instanceTypeAlt");
    var (size, s5) :- ReadSize(s4);
    Got(Variant(configName, size.1, size.0, instanceType, instanceTypeAlt), s5)
  }

  function ReadVmware(s: string): Read<bool>
  {
    match Expect(s, "," + Key("vmwareOnly"))
    case Bad => Got(false, s)
    case Got(_, k) => if Expect(k, "true").Got? then Got(true, k[4..])
                      else if Expect(k, "false").Got? then Got(false, k[5..]) else Bad
  }

  function ReadSpec(s: string): Read<Spec>
  {
    var (_, s1) :- Expect(s, "{" + Key("defaultVariantIndex"));
    var (index, s2) :- ReadInt(s1);
    var (generation, s3) :- ReadField(s2, "generation");
    var (model, s4) :- ReadField(s3, "model");
    var (platform, s5) :- ReadField(s4, "platform");
    var (_, s6) :- Expect(s5, "," + Key("variants"));
    var (variants, s7) :- ReadList(ReadVariant, s6);
    var (vmwareOnly, s8) :- ReadVmware(s7);
    var (_, s9) :- Expect(s8, "}");
    Got(Spec(model, generation, platform, variants, index, vmwareOnly), s9)
  }

  /** The whole table, with nothing after it. */
  function ReadTable(s: string): Option<seq<Spec>>
  {
    match ReadList(ReadSpec, s)
    case Got(specs, k) => if k == "" then Some(specs) else None
    case Bad => None
  }

  // ------------------------------------------------------------ lists back

  ghost predicate BackAt<T>(item: string -> Read<T>, text: string, x: T, k: string)
  {
    text != "" && text[0] != ']' && item(text + k) == Got(x, k)
  }

  /** `item` reads `text` as `x`, whatever follows. */
  ghost predicate Back<T(!new)>(item: string -> Read<T>, text: string, x: T)
  {
    forall k :: BackAt(item, text, x, k)
  }

  function Commas(texts: seq<string>): string
  {
    if texts == [] then "" else "," + texts[0] + Commas(texts[1..])
  }

  lemma {:induction false} CommasSnoc(texts: seq<string>, t: string)
    ensures Commas(texts + [t]) == Commas(texts) + "," + t
  {
    if texts == [] {
      assert Commas([t]) == "," + t + Commas([]);
    } else {
      assert (texts + [t])[1..] == texts[1..] + [t];
      CommasSnoc(texts[1..], t);
    }
  }

  lemma {:induction false} JoinedHead(texts: seq<string>)
    requires texts != []
    ensures Joined(texts) == texts[0] + Commas(texts[1..])
  {
    var n := |texts| - 1;
    if n == 0 {
      assert texts[0] + "" == texts[0];
    } else {
      JoinedHead(texts[..n]);
      assert texts[..n][1..] + [texts[n]] == texts[1..];
      CommasSnoc(texts[..n][1..], texts[n]);
    }
  }

  lemma {:induction false} RestBack<T(!new)>(item: string -> Read<T>, texts: seq<string>, xs: seq<T>, k: string,
                                      acc: seq<T>)
    requires |texts| == |xs| && forall i | 0 <= i < |xs| :: Back(item, texts[i], xs[i])
    ensures ReadRest(item, Commas(texts) + ("]" + k), acc) == Got(acc + xs, k)
  {
    if xs == [] {
      assert "" + ("]" + k) == "]" + k && ("]" + k)[1..] == k && acc + xs == acc;
    } else {
      var after := Commas(texts[1..]) + ("]" + k);
      assert Commas(texts) + ("]" + k) == "," + (texts[0] + after);
      ExpectBack(",", texts[0] + after);
      assert Back(item, texts[0], xs[0]) && BackAt(item, texts[0], xs[0], after);
      RestBack(item, texts[1..], xs[1..], k, acc + [xs[0]]);
      assert acc + [xs[0]] + xs[1..] == acc + xs;
    }
  }

  lemma {:induction false} ListBack<T(!new)>(item: string -> Read<T>, texts: seq<string>, xs: seq<T>, k: string)
    requires |texts| == |xs| && forall i | 0 <= i < |xs| :: Back(item, texts[i], xs[i])
    ensures ReadList(item, "[" + Joined(texts) + "]" + k) == Got(xs, k)
  {
    var s := "[" + Joined(texts) + "]" + k;
    if xs == [] {
      assert s == "[" + ("]" + k);
      ExpectBack("[", "]" + k);
    } else {
      JoinedHead(texts);
      var after := Commas(texts[1..]) + ("]" + k);
      assert s == "[" + (texts[0] + after);
      ExpectBack("[", texts[0] + after);
      assert Back(item, texts[0], xs[0]) && BackAt(item, texts[0], xs[0], after);
      assert (texts[0] + after)[0] == texts[0][0];
      RestBack(item, texts[1..], xs[1..], k, [xs[0]]);
      assert [xs[0]] + xs[1..] == xs;
    }
  }

  // ------------------------------------------------------------ variants back

  lemma {:induction false} Mismatch(lit: string, k: string, i: nat)
    requires i < |lit| && i < |k| && lit[i] != k[i]
    ensures Expect(k, lit) == Bad
  {
  }

  lemma {:induction false} OptionalBack(escape: Escape, name: string, s: string, k: string)
    requires Undone(escape) && (s == "" ==> Expect(k, "," + Key(name)) == Bad)
    ensures ReadOptional(Optional(escape, name, s) + k, name) == Got(s, k)
  {
    if s == "" {
      assert "" + k == k;
    } else {
      assert Optional(escape, name, s) + k == "," + Key(name) + (Quoted(escape, s) + k);
      ExpectBack("," + Key(name), Quoted(escape, s) + k);
      StringBack(escape, s, k);
    }
  }

  lemma {:induction false} FieldBack(escape: Escape, name: string, s: string, k: string)
    requires Undone(escape)
    ensures ReadField(Field(name, Quoted(escape, s)) + k, name) == Got(s, k)
  {
    assert Field(name, Quoted(escape, s)) + k == "," + Key(name) + (Quoted(escape, s) + k);
    ExpectBack("," + Key(name), Quoted(escape, s) + k);
    StringBack(escape, s, k);
  }

  /** A number under a key. */
  lemma {:induction false} NumberFieldBack(name: string, text: string, k: string)
    ensures Expect(Field(name, text) + k, "," + Key(name)) == Got((), text + k)
  {
    assert Field(name, text) + k == "," + Key(name) + (text + k);
    ExpectBack("," + Key(name), text + k);
  }

  lemma {:induction false} Regroup<T>(a: seq<T>, b: seq<T>, c: seq<T>)
    ensures a + b + c == a + (b + c)
  {
  }

  /** The text of a variant, cut where the reader cuts it. */
  function VariantTail(v: Variant, k: string): string
  {
    Field("ramGB", NumberText(v.ramGB)) + (Field("vCPU", Itoa(v.vCPU)) + ("}" + k))
  }

  lemma {:induction false} VariantCut(a: string, b: string, c: string, d: string, e: string, f: string, k: string)
    ensures a + b + c + d + e + f + "}" + k == a + (b + (c + (d + (e + (f + ("}" + k))))))
  {
    Regroup(a + b + c + d + e + f, "}", k);
    Regroup(a + b + c + d + e, f, "}" + k);
    Regroup(a + b + c + d, e, f + ("}" + k));
    Regroup(a + b + c, d, e + (f + ("}" + k)));
    Regroup(a + b, c, d + (e + (f + ("}" + k))));
    Regroup(a, b, c + (d + (e + (f + ("}" + k)))));
  }

  lemma {:induction false} TailIs(v: Variant, k: string)
    ensures VariantTail(v, k) == Field("ramGB", NumberText(v.ramGB)) + (Field("vCPU", Itoa(v.vCPU)) + ("}" + k))
  {
  }

  lemma {:induction false} TailBack(v: Variant, k: string)
    ensures ReadSize(VariantTail(v, k)) == Got((v.ramGB, v.vCPU), k)
  {
    hide ReadNumber, ReadInt, NumberText, Itoa;
    var k1 := "}" + k;
    var k2 := Field("vCPU", Itoa(v.vCPU)) + k1;
    NumberFieldBack("ramGB", NumberText(v.ramGB), k2);
    assert k2[0] == ',';
    NumberBack(v.ramGB, k2);
    NumberFieldBack("vCPU", Itoa(v.vCPU), k1);
    IntBack(v.vCPU, k1);
    ExpectBack("}", k);
  }

  /** An absent optional field is not mistaken for what follows. */
  lemma {:induction false} NoInstanceTypeAlt(v: Variant, k: string)
    ensures Expect(VariantTail(v, k), "," + Key("instanceTypeAlt")) == Bad
  {
    var t := VariantTail(v, k);
    assert t[2] == 'r' && ("," + Key("instanceTypeAlt"))[2] == 'i';
    Mismatch("," + Key("instanceTypeAlt"), t, 2);
  }

  lemma {:induction false} NoInstanceType(escape: Escape, v: Variant, k: string)
    ensures Expect(Optional(escape, "instanceTypeAlt", v.instanceTypeAlt) + VariantTail(v, k),
                   "," + Key("instanceType")) == Bad
  {
    hide Quoted, NumberText, Itoa;
    var t := Optional(escape, "instanceTypeAlt", v.instanceTypeAlt) + VariantTail(v, k);
    var lit := "," + Key("instanceType");
    if v.instanceTypeAlt == "" {
      assert t == VariantTail(v, k) && t[2] == 'r' && lit[2] == 'i';
      Mismatch(lit, t, 2);
    } else {
      assert t[14] == 'A' && lit[14] == '"';
      Mismatch(lit, t, 14);
    }
  }

  lemma {:induction false} VariantBackAt(escape: Escape, v: Variant, k: string)
    requires Undone(escape)
    ensures BackAt(ReadVariant, VariantText(escape, v), v, k)
  {
    hide Expect, ReadString, ReadOptional, ReadSize, VariantTail, Quoted, Optional, Field, Undone, NumberText, Itoa;
    assert VariantText(escape, v)[0] == '{';
    var k3 := VariantTail(v, k);
    var k2 := Optional(escape, "instanceTypeAlt", v.instanceTypeAlt) + k3;
    var k1 := Optional(escape, "instanceType", v.instanceType) + k2;
    var head := "{" + Key("configName");
    VariantCut(head, Quoted(escape, v.configName), Optional(escape, "instanceType", v.instanceType),
               Optional(escape, "instanceTypeAlt", v.instanceTypeAlt), Field("ramGB", NumberText(v.ramGB)),
               Field("vCPU", Itoa(v.vCPU)), k);
    TailIs(v, k);
    ExpectBack(head, Quoted(escape, v.configName) + k1);
    StringBack(escape, v.configName, k1);
    NoInstanceType(escape, v, k);
    OptionalBack(escape, "instanceType", v.instanceType, k2);
    NoInstanceTypeAlt(v, k);
    OptionalBack(escape, "instanceTypeAlt", v.instanceTypeAlt, k3);
    TailBack(v, k);
  }

  lemma {:induction false} VariantsBack(escape: Escape, vs: seq<Variant>, k: string)
    requires Undone(escape)
    ensures ReadList(ReadVariant, "[" + Joined(VariantTexts(escape, vs)) + "]" + k) == Got(vs, k)
  {
    hide ReadVariant, VariantText, BackAt, Undone;
    forall i | 0 <= i < |vs|
      ensures Back(ReadVariant, VariantTexts(escape, vs)[i], vs[i])
    {
      forall k
        ensures BackAt(ReadVariant, VariantTexts(escape, vs)[i], vs[i], k)
      {
        VariantBackAt(escape, vs[i], k);
      }
    }
    ListBack(ReadVariant, VariantTexts(escape, vs), vs, k);
  }

  // ------------------------------------------------------------ specs back

  lemma {:induction false} VmwareBack(vmwareOnly: bool, k: string)
    ensures ReadVmware(VmwareText(vmwareOnly) + ("}" + k)) == Got(vmwareOnly, "}" + k)
  {
    if vmwareOnly {
      NumberFieldBack("vmwareOnly", "true", "}" + k);
      ExpectBack("true", "}" + k);
      assert ("true" + ("}" + k))[4..] == "}" + k;
    } else {
      assert "" + ("}" + k) == "}" + k;
      Mismatch("," + Key("vmwareOnly"), "}" + k, 0);
    }
  }

  lemma {:induction false} SpecCut(a: string, b: string, c: string, d: string, e: string, f: string, g: string,
                                   k: string)
    ensures a + b + c + d + e + f + g + "}" + k == a + (b + (c + (d + (e + (f + (g + ("}" + k)))))))
  {
    VariantCut(a + b, c, d, e, f, g, k);
    Regroup(a, b, c + (d + (e + (f + (g + ("}" + k))))));
  }

  lemma {:induction false} VariantsFieldBack(escape: Escape, vs: seq<Variant>, k: string)
    requires Undone(escape)
    ensures var p := Expect(VariantsField(escape, vs) + k, "," + Key("variants"));
      p.Got? && ReadList(ReadVariant, p.rest) == Got(vs, k)
  {
    hide ReadList, ReadVariant, Joined, VariantTexts, Undone;
    var list := "[" + Joined(VariantTexts(escape, vs)) + "]";
    NumberFieldBack("variants", list, k);
    VariantsBack(escape, vs, k);
  }

  lemma {:induction false} SpecBackAt(escape: Escape, s: Spec, k: string)
    requires Undone(escape)
    ensures BackAt(ReadSpec, SpecText(escape, s), s, k)
  {
    hide Expect, ReadField, ReadList, ReadVariant, ReadInt, ReadVmware, Quoted, Field, Undone, Itoa, VariantsField,
      VmwareText;
    assert SpecText(escape, s)[0] == '{';
    var k5 := VmwareText(s.vmwareOnly) + ("}" + k);
    var k4 := VariantsField(escape, s.variants) + k5;
    var k3 := Field("platform", Quoted(escape, s.platform)) + k4;
    var k2 := Field("model", Quoted(escape, s.model)) + k3;
    var k1 := Field("generation", Quoted(escape, s.generation)) + k2;
    var head := "{" + Key("defaultVariantIndex");
    SpecCut(head, Itoa(s.defaultVariantIndex), Field("generation", Quoted(escape, s.generation)),
            Field("model", Quoted(escape, s.model)), Field("platform", Quoted(escape, s.platform)),
            VariantsField(escape, s.variants), VmwareText(s.vmwareOnly), k);
    ExpectBack(head, Itoa(s.defaultVariantIndex) + k1);
    FieldStarts("generation", Quoted(escape, s.generation), k2);
    IntBack(s.defaultVariantIndex, k1);
    FieldBack(escape, "generation", s.generation, k2);
    FieldBack(escape, "model", s.model, k3);
    FieldBack(escape, "platform", s.platform, k4);
    VariantsFieldBack(escape, s.variants, k5);
    VmwareBack(s.vmwareOnly, k);
    ExpectBack("}", k);
  }

  lemma {:induction false} FieldStarts(name: string, text: string, k: string)
    ensures EndsNumber(Field(name, text) + k)
  {
    assert (Field(name, text) + k)[0] == ',';
  }

  /** Reading the canonical text gives back the table, for either way of escaping. */
  lemma {:induction false} TableBack(escape: Escape, specs: seq<Spec>)
    requires Undone(escape)
    ensures ReadTable(TableText(escape, specs)) == Some(specs)
  {
    hide ReadSpec, SpecText, BackAt, Undone;
    forall i | 0 <= i < |specs|
      ensures Back(ReadSpec, SpecTexts(escape, specs)[i], specs[i])
    {
      forall k
        ensures BackAt(ReadSpec, SpecTexts(escape, specs)[i], specs[i], k)
      {
        SpecBackAt(escape, specs[i], k);
      }
    }
    ListBack(ReadSpec, SpecTexts(escape, specs), specs, "");
    assert TableText(escape, specs) + "" == TableText(escape, specs);
  }

  /** Different tables have different texts, even across the two languages. */
  lemma {:induction false} TextsAreInjective(a: seq<Spec>, b: seq<Spec>, f: Escape, g: Escape)
    requires f in {GoEscape, TsEscape} && g in {GoEscape, TsEscape} && TableText(f, a) == TableText(g, b)
    ensures a == b
  {
    EscapesUndone();
    TableBack(f, a);
    TableBack(g, b);
  }
}
