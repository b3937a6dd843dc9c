/** The two serializers of the appliance table: internal/calculator/vnios_specs.go writes to a buffer,
    frontend/src/app/components/resource-savings.ts joins parts under fixed key orders. */
module SpecSerializers {
  import opened Base
  import opened JsonText
  import opened SpecTable

  // ------------------------------------------------------------ Go

  class Buffer {
    var text: string

    constructor ()
      ensures text == ""
    {
      text := "";
    }

    /** Appends to what was written since `start`. */
    method Write(s: string, ghost start: string, ghost written: string)
      requires text == start + written
      modifies this
      ensures text == start + (written + s)
    {
      Regroup(start, written, s);
      text := text + s;
    }

    method WriteEscaped(c: char)
      modifies this
      ensures text == old(text) + GoEscape(c)
    {
      if c == '"' {
        text := text + ['\\', '"'];
      } else if c == '\\' {
        text := text + ['\\', '\\'];
      } else if c == '\n' {
        text := text + ['\\', 'n'];
      } else if c == '\r' {
        text := text + ['\\', 'r'];
      } else if c == '\t' {
        text := text + ['\\', 't'];
      } else if c as int < 0x20 {
        text := text + ['\\', 'u', '0', '0'];
        text := text + [HexDigit(c as int / 16)];
        text := text + [HexDigit(c as int % 16)];
        assert UnicodeEscape(c) == ['\\', 'u', '0', '0'] + [HexDigit(c as int / 16)] + [HexDigit(c as int % 16)];
      } else {
        text := text + [c];
      }
    }

    method WriteJSONString(s: string, ghost start: string, ghost written: string)
      requires text == start + written
      modifies this
      ensures text == start + (written + Quoted(GoEscape, s))
    {
      hide GoEscape;
      text := text + "\"";
      for i := 0 to |s|
        invariant text == start + written + "\"" + EscapeAll(GoEscape, s[..i])
      {
        assert s[..i + 1][..i] == s[..i];
        WriteEscaped(s[i]);
        Regroup(start + written + "\"", EscapeAll(GoEscape, s[..i]), GoEscape(s[i]));
      }
      text := text + "\"";
      assert s[..|s|] == s;
      assert start + written + "\"" + EscapeAll(GoEscape, s) + "\"" == start + (written + Quoted(GoEscape, s));
    }

    method WriteOptional(name: string, s: string, ghost start: string, ghost written: string)
      requires text == start + written
      modifies this
      ensures text == start + (written + Optional(GoEscape, name, s))
    {
      if s != "" {
        Write("," + Key(name), start, written);
        WriteJSONString(s, start, written + ("," + Key(name)));
        Regroup(written, "," + Key(name), Quoted(GoEscape, s));
      } else {
        assert written + "" == written;
      }
    }

    method WriteField(name: string, value: string, ghost start: string, ghost written: string)
      requires text == start + written
      modifies this
      ensures text == start + (written + Field(name, value))
    {
      Write("," + Key(name), start, written);
      Write(value, start, written + ("," + Key(name)));
      Regroup(written, "," + Key(name), value);
    }

    method WriteStringField(name: string, value: string, ghost start: string, ghost written: string)
      requires text == start + written
      modifies this
      ensures text == start + (written + Field(name, Quoted(GoEscape, value)))
    {
      Write("," + Key(name), start, written);
      WriteJSONString(value, start, written + ("," + Key(name)));
      Regroup(written, "," + Key(name), Quoted(GoEscape, value));
    }

    method WriteVariant(v: Variant)
      modifies this
      ensures text == old(text) + VariantText(GoEscape, v)
    {
      hide Quoted, Optional, Field, NumberText, Itoa;
      ghost var start := text;
      assert start + "" == start;
      Write("{", start, "");
      Write(Key("configName"), start, "" + "{");
      ghost var w := "{" + Key("configName");
      assert "" + "{" + Key("configName") == w;
      WriteJSONString(v.configName, start, w);
      w := w + Quoted(GoEscape, v.configName);
      WriteOptional("instanceType", v.instanceType, start, w);
      w := w + Optional(GoEscape, "instanceType", v.instanceType);
      WriteOptional("instanceTypeAlt", v.instanceTypeAlt, start, w);
      w := w + Optional(GoEscape, "instanceTypeAlt", v.instanceTypeAlt);
      WriteField("ramGB", NumberText(v.ramGB), start, w);
      w := w + Field("ramGB", NumberText(v.ramGB));
      WriteField("vCPU", Itoa(v.vCPU), start, w);
      w := w + Field("vCPU", Itoa(v.vCPU));
      Write("}", start, w);
    }

    method WriteVariants(vs: seq<Variant>)
      modifies this
      ensures text == old(text) + Joined(VariantTexts(GoEscape, vs))
    {
      hide VariantText;
      assert text + "" == text;
      for i := 0 to |vs|
        invariant text == old(text) + Joined(VariantTexts(GoEscape, vs[..i]))
      {
        ghost var texts := VariantTexts(GoEscape, vs[..i]);
        assert VariantTexts(GoEscape, vs[..i + 1]) == texts + [VariantText(GoEscape, vs[i])];
        JoinedSnoc(texts, VariantText(GoEscape, vs[i]));
        if i > 0 {
          text := text + ",";
        }
        WriteVariant(vs[i]);
        assert i > 0 ==> old(text) + Joined(texts) + "," + VariantText(GoEscape, vs[i])
                         == old(text) + (Joined(texts) + "," + VariantText(GoEscape, vs[i]));
      }
      assert vs[..|vs|] == vs;
    }

    method WriteVariantsField(vs: seq<Variant>, ghost start: string, ghost written: string)
      requires text == start + written
      modifies this
      ensures text == start + (written + VariantsField(GoEscape, vs))
    {
      ghost var list := Joined(VariantTexts(GoEscape, vs));
      text := text + ("," + Key("variants") + "[");
      WriteVariants(vs);
      text := text + "]";
      ListRegroup(start, written, "," + Key("variants"), list);
    }

    method WriteSpec(s: Spec)
      modifies this
      ensures text == old(text) + SpecText(GoEscape, s)
    {
      hide Quoted, Field, Itoa, VariantsField;
      ghost var start := text;
      assert start + "" == start;
      Write("{", start, "");
      Write(Key("defaultVariantIndex"), start, "" + "{");
      ghost var w := "{" + Key("defaultVariantIndex");
      assert "" + "{" + Key("defaultVariantIndex") == w;
      Write(Itoa(s.defaultVariantIndex), start, w);
      w := w + Itoa(s.defaultVariantIndex);
      WriteStringField("generation", s.generation, start, w);
      w := w + Field("generation", Quoted(GoEscape, s.generation));
      WriteStringField("model", s.model, start, w);
      w := w + Field("model", Quoted(GoEscape, s.model));
      WriteStringField("platform", s.platform, start, w);
      w := w + Field("platform", Quoted(GoEscape, s.platform));
      WriteVariantsField(s.variants, start, w);
      w := w + VariantsField(GoEscape, s.variants);
      if s.vmwareOnly {
        WriteField("vmwareOnly", "true", start, w);
      } else {
        assert w + "" == w;
      }
      w := w + VmwareText(s.vmwareOnly);
      Write("}", start, w);
    }
  }

  lemma {:induction false} ListRegroup(start: string, written: string, key: string, list: string)
    ensures start + written + (key + "[") + list + "]" == start + (written + (key + ("[" + list + "]")))
  {
    Regroup(start + written, key + "[", list);
    Regroup(start + written, key + "[" + list, "]");
    assert key + "[" + list + "]" == key + ("[" + list + "]");
    Regroup(start, written, key + ("[" + list + "]"));
  }

  lemma {:induction false} JoinedSnoc(texts: seq<string>, t: string)
    ensures Joined(texts + [t]) == if texts == [] then t else Joined(texts) + "," + t
  {
    assert (texts + [t])[..|texts|] == texts;
  }

  method CanonicalVNIOSSpecsJSON(specs: seq<Spec>) returns (text: string)
    ensures text == TableText(GoEscape, specs)
  {
    hide SpecText;
    var buf := new Buffer();
    buf.text := buf.text + "[";
    for i := 0 to |specs|
      invariant buf.text == "[" + Joined(SpecTexts(GoEscape, specs[..i]))
    {
      ghost var texts := SpecTexts(GoEscape, specs[..i]);
      assert SpecTexts(GoEscape, specs[..i + 1]) == texts + [SpecText(GoEscape, specs[i])];
      JoinedSnoc(texts, SpecText(GoEscape, specs[i]));
      if i > 0 {
        buf.text := buf.text + ",";
      }
      buf.WriteSpec(specs[i]);
      assert i > 0 ==>
          "[" + Joined(texts) + "," + SpecText(GoEscape, specs[i])
          == "[" + (Joined(texts) + "," + SpecText(GoEscape, specs[i]));
    }
    assert specs[..|specs|] == specs;
    text := buf.text + "]";
  }

  // ------------------------------------------------------------ TypeScript

  /** Absent fields are None. */
  datatype TsVariant = TsVariant(configName: string, vCPU: int, ramGB: int, instanceType: Option<string>,
                                 instanceTypeAlt: Option<string>)

  datatype TsSpec = TsSpec(model: string, generation: string, platform: string, variants: seq<TsVariant>,
                           defaultVariantIndex: int, vmwareOnly: Option<bool>)

  /** The value under a key. */
  datatype Value =
    | Undefined | Number(hundredths: int) | Text(text: string) | Flag(flag: bool) | List(list: seq<TsVariant>)

  function TextOf(s: Option<string>): Value { if s.None? then Undefined else Text(s.value) }

  function FlagOf(b: Option<bool>): Value { if b.None? then Undefined else Flag(b.value) }

  const VARIANT_KEY_ORDER: seq<string> := ["configName", "instanceType", "instanceTypeAlt", "ramGB", "vCPU"]

  const SPEC_KEY_ORDER: seq<string> :=
    ["defaultVariantIndex", "generation", "model", "platform", "variants", "vmwareOnly"]

  function VariantValue(v: TsVariant, key: string): Value
  {
    if key == "configName" then Text(v.configName)
    else if key == "instanceType" then TextOf(v.instanceType)
    else if key == "instanceTypeAlt" then TextOf(v.instanceTypeAlt)
    else if key == "ramGB" then Number(v.ramGB)
    else if key == "vCPU" then Number(100 * v.vCPU) else Undefined
  }

  function SpecValue(s: TsSpec, key: string): Value
  {
    if key == "defaultVariantIndex" then Number(100 * s.defaultVariantIndex)
    else if key == "generation" then Text(s.generation)
    else if key == "model" then Text(s.model)
    else if key == "platform" then Text(s.platform)
    else if key == "variants" then List(s.variants)
    else if key == "vmwareOnly" then FlagOf(s.vmwareOnly) else Undefined
  }

  /** Throws for anything but a primitive. */
  function SerializePrimitive(value: Value): string
    requires value.Number? || value.Text? || value.Flag?
  {
    match value
    case Number(h) => NumberText(h)
    case Text(s) => Quoted(TsEscape, s)
    case Flag(b) => if b then "true" else "false"
  }

  /** A value as the serializers print it; lists of variants are joined between brackets. */
  function ValueText(value: Value): string
  {
    match value
    case Undefined => ""
    case List(vs) => "[" + Joined(TsVariantTexts(vs)) + "]"
    case _ => SerializePrimitive(value)
  }

  function KeyText(key: string): string { Quoted(TsEscape, key) + ":" }

  /** One part for each key whose value is there. */
  function Parts(keys: seq<string>, value: string -> Value, print_: Value -> string): seq<string>
  {
    if keys == [] then []
    else
      var key := keys[|keys| - 1];
      Parts(keys[..|keys| - 1], value, print_) + if value(key).Undefined? then []
        else [KeyText(key) + print_(value(key))]
  }

  function Printable(value: Value): string
  {
    if value.Number? || value.Text? || value.Flag? then SerializePrimitive(value) else ""
  }

  function VariantParts(v: TsVariant): seq<string>
  {
    Parts(VARIANT_KEY_ORDER, key => VariantValue(v, key), Printable)
  }

  function TsVariantText(v: TsVariant): string { "{" + Joined(VariantParts(v)) + "}" }

  function TsVariantTexts(vs: seq<TsVariant>): seq<string>
  {
    seq(|vs|, i requires 0 <= i < |vs| => TsVariantText(vs[i]))
  }

  function TsSpecText(s: TsSpec): string
  {
    "{" + Joined(Parts(SPEC_KEY_ORDER, key => SpecValue(s, key), ValueText)) + "}"
  }

  method SerializeVariant(v: TsVariant) returns (text: string)
    ensures text == TsVariantText(v)
  {
    var parts: seq<string> := [];
    for i := 0 to |VARIANT_KEY_ORDER|
      invariant parts == Parts(VARIANT_KEY_ORDER[..i], key => VariantValue(v, key), Printable)
    {
      assert VARIANT_KEY_ORDER[..i + 1][..i] == VARIANT_KEY_ORDER[..i];
      var val := VariantValue(v, VARIANT_KEY_ORDER[i]);
      if val.Undefined? {
        continue;
      }
      parts := parts + [KeyText(VARIANT_KEY_ORDER[i]) + SerializePrimitive(val)];
    }
    assert VARIANT_KEY_ORDER[..|VARIANT_KEY_ORDER|] == VARIANT_KEY_ORDER;
    text := "{" + Joined(parts) + "}";
  }

  method SerializeVariants(vs: seq<TsVariant>) returns (texts: seq<string>)
    ensures texts == TsVariantTexts(vs)
  {
    hide TsVariantText;
    texts := [];
    for j := 0 to |vs|
      invariant texts == TsVariantTexts(vs[..j])
    {
      var one := SerializeVariant(vs[j]);
      assert TsVariantTexts(vs[..j + 1]) == TsVariantTexts(vs[..j]) + [one];
      texts := texts + [one];
    }
    assert vs[..|vs|] == vs;
  }

  method SerializeSpec(s: TsSpec) returns (text: string)
    ensures text == TsSpecText(s)
  {
    hide TsVariantTexts, Joined, Quoted;
    var parts: seq<string> := [];
    for i := 0 to |SPEC_KEY_ORDER|
      invariant parts == Parts(SPEC_KEY_ORDER[..i], key => SpecValue(s, key), ValueText)
    {
      assert SPEC_KEY_ORDER[..i + 1][..i] == SPEC_KEY_ORDER[..i];
      var key := SPEC_KEY_ORDER[i];
      var val := SpecValue(s, key);
      if val.Undefined? {
        continue;
      }
      if key == "variants" {
        var texts := SerializeVariants(s.variants);
        parts := parts + [KeyText(key) + ("[" + Joined(texts) + "]")];
      } else {
        parts := parts + [KeyText(key) + SerializePrimitive(val)];
      }
    }
    assert SPEC_KEY_ORDER[..|SPEC_KEY_ORDER|] == SPEC_KEY_ORDER;
    text := "{" + Joined(parts) + "}";
  }

  function TsTableText(specs: seq<TsSpec>): string
  {
    "[" + Joined(seq(|specs|, i requires 0 <= i < |specs| => TsSpecText(specs[i]))) + "]"
  }
}
