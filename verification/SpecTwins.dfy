/** When the two serializers agree. An empty string or a false flag in the Go table corresponds to an
    absent field in the TypeScript table. */
module SpecTwins {
  import opened Base
  import opened JsonText
  import opened SpecTable
  import opened SpecSerializers

  function Absent(s: string): Option<string> { if s == "" then None else Some(s) }

  function TwinVariant(v: Variant): TsVariant
  {
    TsVariant(v.configName, v.vCPU, v.ramGB, Absent(v.instanceType), Absent(v.instanceTypeAlt))
  }

  function TwinVariants(vs: seq<Variant>): seq<TsVariant> { seq(|vs|, i requires 0 <= i < |vs| => TwinVariant(vs[i])) }

  function TwinSpec(s: Spec): TsSpec
  {
    TsSpec(s.model, s.generation, s.platform, TwinVariants(s.variants), s.defaultVariantIndex,
           if s.vmwareOnly then Some(true) else None)
  }

  function TwinTable(specs: seq<Spec>): seq<TsSpec> { seq(|specs|, i requires 0 <= i < |specs| => TwinSpec(specs[i])) }

  // ------------------------------------------------------------ keys and parts

  /** Characters that are written as they are. */
  predicate Unescaped(s: string)
  {
    forall i | 0 <= i < |s| :: s[i] as int >= 0x20 && s[i] != '"' && s[i] != '\\'
  }

  lemma {:induction false} UnescapedStays(s: string)
    requires Unescaped(s)
    ensures EscapeAll(TsEscape, s) == s
  {
    if s != "" {
      UnescapedStays(s[..|s| - 1]);
      assert s[..|s| - 1] + [s[|s| - 1]] == s;
    }
  }

  lemma {:induction false} KeyTextIsKey(key: string)
    requires Unescaped(key)
    ensures KeyText(key) == Key(key)
  {
    UnescapedStays(key);
    assert "\"" + key + "\"" + ":" == "\"" + key + "\":";
  }

  function PartOf(key: string, value: Value, print_: Value -> string): string
  {
    if value.Undefined? then "" else Field(key, print_(value))
  }

  /** One more key adds its field to the joined parts, or nothing. */
  lemma {:induction false} PartsGrow(keys: seq<string>, key: string, value: string -> Value, print_: Value -> string)
    requires Parts(keys, value, print_) != [] && Unescaped(key)
    ensures Parts(keys + [key], value, print_) != []
    ensures Joined(Parts(keys + [key], value, print_))
            == Joined(Parts(keys, value, print_)) + PartOf(key, value(key), print_)
  {
    var before := Parts(keys, value, print_);
    assert (keys + [key])[..|keys|] == keys;
    if value(key).Undefined? {
      assert before + [] == before && Joined(before) + "" == Joined(before);
    } else {
      KeyTextIsKey(key);
      var part := Key(key) + print_(value(key));
      JoinedSnoc(before, part);
      assert Joined(before) + "," + part == Joined(before) + ("," + Key(key) + print_(value(key)));
    }
  }

  lemma {:induction false} PartsStart(key: string, value: string -> Value, print_: Value -> string)
    requires !value(key).Undefined? && Unescaped(key)
    ensures Parts([key], value, print_) == [Key(key) + print_(value(key))]
    ensures Joined(Parts([key], value, print_)) == Key(key) + print_(value(key))
  {
    KeyTextIsKey(key);
    assert [key][..0] == [];
  }

  /** The joined parts of five keys, the first of which has a value. */
  lemma {:induction false} FiveKeys(a: string, b: string, c: string, d: string, e: string, value: string -> Value,
                                    print_: Value -> string)
    requires Unescaped(a) && Unescaped(b) && Unescaped(c) && Unescaped(d) && Unescaped(e) && !value(a).Undefined?
    ensures Parts([a, b, c, d, e], value, print_) != []
    ensures Joined(Parts([a, b, c, d, e], value, print_))
            == Key(a) + print_(value(a)) + PartOf(b, value(b), print_) + PartOf(c, value(c), print_)
               + PartOf(d, value(d), print_) + PartOf(e, value(e), print_)
  {
    hide Unescaped, PartOf, Parts, Joined;
    PartsStart(a, value, print_);
    PartsGrow([a], b, value, print_);
    assert [a] + [b] == [a, b];
    PartsGrow([a, b], c, value, print_);
    assert [a, b] + [c] == [a, b, c];
    PartsGrow([a, b, c], d, value, print_);
    assert [a, b, c] + [d] == [a, b, c, d];
    PartsGrow([a, b, c, d], e, value, print_);
    assert [a, b, c, d] + [e] == [a, b, c, d, e];
  }

  // ------------------------------------------------------------ twins print alike

  lemma {:induction false} OptionalIsPart(key: string, s: string)
    ensures PartOf(key, TextOf(Absent(s)), Printable) == Optional(TsEscape, key, s)
  {
  }

  lemma {:induction false} TwinVariantText(v: Variant)
    ensures TsVariantText(TwinVariant(v)) == VariantText(TsEscape, v)
  {
    hide Quoted, Joined, Parts, Itoa, NumberText;
    var t := TwinVariant(v);
    var value := (key: string) => VariantValue(t, key);
    FiveKeys("configName", "instanceType", "instanceTypeAlt", "ramGB", "vCPU", value, Printable);
    PartsCongruent(VARIANT_KEY_ORDER, value, key => VariantValue(t, key), Printable);
    OptionalIsPart("instanceType", v.instanceType);
    OptionalIsPart("instanceTypeAlt", v.instanceTypeAlt);
    IntegersAreNumbers(v.vCPU);
    VariantAssembled(v);
  }

  lemma {:induction false} VariantAssembled(v: Variant)
    ensures "{" + (Key("configName") + Quoted(TsEscape, v.configName)
                   + Optional(TsEscape, "instanceType", v.instanceType)
                   + Optional(TsEscape, "instanceTypeAlt", v.instanceTypeAlt) + Field("ramGB", NumberText(v.ramGB))
                   + Field("vCPU", Itoa(v.vCPU))) + "}" == VariantText(TsEscape, v)
  {
    SixPieces("{", Key("configName"), Quoted(TsEscape, v.configName),
              Optional(TsEscape, "instanceType", v.instanceType),
              Optional(TsEscape, "instanceTypeAlt", v.instanceTypeAlt), Field("ramGB", NumberText(v.ramGB)),
                Field("vCPU", Itoa(v.vCPU)));
  }

  lemma {:induction false} SixPieces(open: string, a: string, b: string, c: string, d: string, e: string, f: string)
    ensures open + (a + b + c + d + e + f) == open + a + b + c + d + e + f
  {
    Regroup(open, a + b + c + d + e, f);
    Regroup(open, a + b + c + d, e);
    Regroup(open, a + b + c, d);
    Regroup(open, a + b, c);
    Regroup(open, a, b);
  }

  lemma {:induction false} PartsCongruent(keys: seq<string>, f: string -> Value, g: string -> Value,
                                          print_: Value -> string)
    requires forall key :: f(key) == g(key)
    ensures Parts(keys, f, print_) == Parts(keys, g, print_)
  {
    if keys != [] {
      PartsCongruent(keys[..|keys| - 1], f, g, print_);
    }
  }

  lemma {:induction false} TwinVariantsText(vs: seq<Variant>)
    ensures TsVariantTexts(TwinVariants(vs)) == VariantTexts(TsEscape, vs)
  {
    hide TsVariantText, VariantText, TwinVariant;
    forall i | 0 <= i < |vs|
      ensures TsVariantTexts(TwinVariants(vs))[i] == VariantTexts(TsEscape, vs)[i]
    {
      TwinVariantText(vs[i]);
    }
  }

  lemma {:induction false} TwinSpecText(s: Spec)
    ensures TsSpecText(TwinSpec(s)) == SpecText(TsEscape, s)
  {
    hide Quoted, Joined, Parts, Itoa, NumberText, TsVariantTexts, VariantTexts, TwinVariants, Field;
    var t := TwinSpec(s);
    var value := (key: string) => SpecValue(t, key);
    var five := ["defaultVariantIndex", "generation", "model", "platform", "variants"];
    FiveKeys(five[0], five[1], five[2], five[3], five[4], value, ValueText);
    PartsGrow(five, "vmwareOnly", value, ValueText);
    assert five + ["vmwareOnly"] == SPEC_KEY_ORDER;
    PartsCongruent(SPEC_KEY_ORDER, value, key => SpecValue(t, key), ValueText);
    TwinVariantsText(s.variants);
    IntegersAreNumbers(s.defaultVariantIndex);
    VariantsFieldIs(s);
    SpecAssembled(s);
  }

  lemma {:induction false} VariantsFieldIs(s: Spec)
    ensures VariantsField(TsEscape, s.variants)
            == Field("variants", "[" + Joined(VariantTexts(TsEscape, s.variants)) + "]")
  {
  }

  lemma {:induction false} SpecAssembled(s: Spec)
    ensures "{" + (Key("defaultVariantIndex") + Itoa(s.defaultVariantIndex)
                   + Field("generation", Quoted(TsEscape, s.generation))
                   + Field("model", Quoted(TsEscape, s.model)) + Field("platform", Quoted(TsEscape, s.platform))
                   + VariantsField(TsEscape, s.variants) + VmwareText(s.vmwareOnly)) + "}" == SpecText(TsEscape, s)
  {
    hide Quoted, Field, Itoa, VariantsField, VmwareText;
    var a, b := Key("defaultVariantIndex"), Itoa(s.defaultVariantIndex);
    var c, d := Field("generation", Quoted(TsEscape, s.generation)), Field("model", Quoted(TsEscape, s.model));
    var e, f := Field("platform", Quoted(TsEscape, s.platform)), VariantsField(TsEscape, s.variants);
    SixPieces("{", a, b, c, d, e, f);
    Regroup("{", a + b + c + d + e + f, VmwareText(s.vmwareOnly));
  }

  /** The TypeScript text of the corresponding table, with the TypeScript escapes. */
  lemma {:induction false} TwinTableText(specs: seq<Spec>)
    ensures TsTableText(TwinTable(specs)) == TableText(TsEscape, specs)
  {
    hide TsSpecText, SpecText, TwinSpec;
    var texts := seq(|specs|, i requires 0 <= i < |specs| => TsSpecText(TwinTable(specs)[i]));
    forall i | 0 <= i < |specs|
      ensures texts[i] == SpecTexts(TsEscape, specs)[i]
    {
      TwinSpecText(specs[i]);
    }
    assert texts == SpecTexts(TsEscape, specs);
    assert seq(|TwinTable(specs)|, i requires 0 <= i < |TwinTable(specs)| => TsSpecText(TwinTable(specs)[i])) == texts;
  }

  // ------------------------------------------------------------ exactly when the texts are equal

  function VariantSpecials(v: Variant): nat
  {
    Specials(v.configName) + Specials(v.instanceType) + Specials(v.instanceTypeAlt)
  }

  function VariantsSpecials(vs: seq<Variant>): nat
  {
    if vs == [] then 0 else VariantsSpecials(vs[..|vs| - 1]) + VariantSpecials(vs[|vs| - 1])
  }

  function SpecSpecials(s: Spec): nat
  {
    Specials(s.generation) + Specials(s.model) + Specials(s.platform) + VariantsSpecials(s.variants)
  }

  /** Backspaces and form feeds in the whole table. */
  function TableSpecials(specs: seq<Spec>): nat
  {
    if specs == [] then 0 else TableSpecials(specs[..|specs| - 1]) + SpecSpecials(specs[|specs| - 1])
  }

  /** `go` is four characters longer than `ts` for each special character, and nothing else. */
  ghost predicate Longer(go: string, ts: string, specials: nat)
  {
    |go| == |ts| + 4 * specials && (specials == 0 ==> go == ts)
  }

  lemma {:induction false} LongerParts(a: string, b: string, m: nat, c: string, d: string, n: nat)
    requires Longer(a, b, m) && Longer(c, d, n)
    ensures Longer(a + c, b + d, m + n)
  {
  }

  lemma {:induction false} OptionalLonger(name: string, s: string)
    ensures Longer(Optional(GoEscape, name, s), Optional(TsEscape, name, s), Specials(s))
  {
    GoIsLonger(s);
  }

  lemma {:induction false} StringFieldLonger(name: string, s: string)
    ensures Longer(Field(name, Quoted(GoEscape, s)), Field(name, Quoted(TsEscape, s)), Specials(s))
  {
    GoIsLonger(s);
  }

  lemma {:induction false} VariantLonger(v: Variant)
    ensures Longer(VariantText(GoEscape, v), VariantText(TsEscape, v), VariantSpecials(v))
  {
    GoIsLonger(v.configName);
    OptionalLonger("instanceType", v.instanceType);
    OptionalLonger("instanceTypeAlt", v.instanceTypeAlt);
    hide Quoted, Optional, Field, NumberText, Itoa, Specials;
    var go, ts := "{" + Key("configName") + Quoted(GoEscape, v.configName),
      "{" + Key("configName") + Quoted(TsEscape, v.configName);
    LongerParts(go, ts, Specials(v.configName), Optional(GoEscape, "instanceType", v.instanceType),
                Optional(TsEscape, "instanceType", v.instanceType), Specials(v.instanceType));
  }

  lemma {:induction false} JoinedLonger(a: seq<string>, b: seq<string>, m: nat, c: string, d: string, n: nat)
    requires Longer(Joined(a), Joined(b), m) && Longer(c, d, n) && (a == [] <==> b == [])
    ensures Longer(Joined(a + [c]), Joined(b + [d]), m + n)
  {
    JoinedSnoc(a, c);
    JoinedSnoc(b, d);
  }

  lemma {:induction false} VariantTextsLast(escape: Escape, vs: seq<Variant>)
    requires vs != []
    ensures var n := |vs| - 1;
      VariantTexts(escape, vs) == VariantTexts(escape, vs[..n]) + [VariantText(escape, vs[n])]
        && |VariantTexts(escape, vs[..n])| == n
  {
    hide VariantText;
  }

  lemma {:induction false} SpecTextsLast(escape: Escape, specs: seq<Spec>)
    requires specs != []
    ensures var n := |specs| - 1;
      SpecTexts(escape, specs) == SpecTexts(escape, specs[..n]) + [SpecText(escape, specs[n])]
        && |SpecTexts(escape, specs[..n])| == n
  {
    hide SpecText;
  }

  lemma {:induction false} VariantsLonger(vs: seq<Variant>)
    ensures Longer(Joined(VariantTexts(GoEscape, vs)), Joined(VariantTexts(TsEscape, vs)), VariantsSpecials(vs))
  {
    if vs != [] {
      hide VariantText, VariantSpecials, VariantTexts, Joined, Longer;
      var n := |vs| - 1;
      VariantsLonger(vs[..n]);
      VariantLonger(vs[n]);
      var go, ts := VariantTexts(GoEscape, vs[..n]), VariantTexts(TsEscape, vs[..n]);
      VariantTextsLast(GoEscape, vs);
      VariantTextsLast(TsEscape, vs);
      JoinedLonger(go, ts, VariantsSpecials(vs[..n]), VariantText(GoEscape, vs[n]), VariantText(TsEscape, vs[n]),
                   VariantSpecials(vs[n]));
    }
  }

  lemma {:induction false} SpecLonger(s: Spec)
    ensures Longer(SpecText(GoEscape, s), SpecText(TsEscape, s), SpecSpecials(s))
  {
    StringFieldLonger("generation", s.generation);
    StringFieldLonger("model", s.model);
    StringFieldLonger("platform", s.platform);
    VariantsLonger(s.variants);
    VariantsFieldLonger(s.variants);
    hide Quoted, Field, Itoa, Specials, VariantsField, VariantsSpecials, VmwareText;
  }

  lemma {:induction false} VariantsFieldLonger(vs: seq<Variant>)
    ensures Longer(VariantsField(GoEscape, vs), VariantsField(TsEscape, vs), VariantsSpecials(vs))
  {
    VariantsLonger(vs);
  }

  lemma {:induction false} TableLonger(specs: seq<Spec>)
    ensures Longer(Joined(SpecTexts(GoEscape, specs)), Joined(SpecTexts(TsEscape, specs)), TableSpecials(specs))
  {
    if specs != [] {
      hide SpecText, SpecSpecials, SpecTexts, Joined, Longer;
      var n := |specs| - 1;
      TableLonger(specs[..n]);
      SpecLonger(specs[n]);
      var go, ts := SpecTexts(GoEscape, specs[..n]), SpecTexts(TsEscape, specs[..n]);
      SpecTextsLast(GoEscape, specs);
      SpecTextsLast(TsEscape, specs);
      JoinedLonger(go, ts, TableSpecials(specs[..n]), SpecText(GoEscape, specs[n]), SpecText(TsEscape, specs[n]),
                   SpecSpecials(specs[n]));
    }
  }

  /** The two texts of a table are byte-identical exactly when no string holds a backspace or a form
      feed; otherwise they still mean the same table. */
  lemma {:induction false} TextsAgreeIff(specs: seq<Spec>)
    ensures TableText(GoEscape, specs) == TsTableText(TwinTable(specs)) <==> TableSpecials(specs) == 0
    ensures ReadTable(TableText(GoEscape, specs)) == ReadTable(TsTableText(TwinTable(specs))) == Some(specs)
  {
    hide ReadTable, SpecTexts;
    TwinTableText(specs);
    TableLonger(specs);
    EscapesUndone();
    TableBack(GoEscape, specs);
    TableBack(TsEscape, specs);
    assert |TableText(GoEscape, specs)| == |TableText(TsEscape, specs)| + 4 * TableSpecials(specs);
  }
}
