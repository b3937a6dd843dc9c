/** decodeXMLEntities of internal/scanner/nios/scanner.go against a single left-to-right decoding of
    the five predefined entities (section 4.6 of XML 1.0). */
module XmlEntities {
  import opened Base

  datatype Entity = Amp | Lt | Gt | Quot | Apos

  /** The reference without its leading ampersand. */
  function Tail(e: Entity): string
  {
    match e
    case Amp => "amp;"
    case Lt => "lt;"
    case Gt => "gt;"
    case Quot => "quot;"
    case Apos => "apos;"
  }

  function Reference(e: Entity): string { "&" + Tail(e) }

  function Char(e: Entity): char
  {
    match e
    case Amp => '&'
    case Lt => '<'
    case Gt => '>'
    case Quot => '"'
    case Apos => '\''
  }

  /** The five predefined entities (section 4.6 of XML 1.0). */
  lemma {:induction false} PredefinedEntities()
    ensures Reference(Amp) == "&amp;" && Char(Amp) == '&'
    ensures Reference(Lt) == "&lt;" && Char(Lt) == '<' && Reference(Gt) == "&gt;" && Char(Gt) == '>'
    ensures Reference(Quot) == "&quot;" && Char(Quot) == '"' && Reference(Apos) == "&apos;" && Char(Apos) == '\''
  {
  }

  predicate StartsWith(s: string, p: string)
  {
    |p| <= |s| && s[..|p|] == p
  }

  /** strings.ReplaceAll with a one-character replacement. */
  function ReplaceAll(s: string, e: Entity): string
  {
    if s == [] then []
    else if StartsWith(s, Reference(e)) then [Char(e)] + ReplaceAll(s[|Reference(e)|..], e)
    else [s[0]] + ReplaceAll(s[1..], e)
  }

  /** The five replacements, one after the other. */
  function DecodeXMLEntities(s: string): string
  {
    ReplaceAll(ReplaceAll(ReplaceAll(ReplaceAll(ReplaceAll(s, Amp), Lt), Gt), Quot), Apos)
  }

  /** The entity of `known` whose reference begins `s`. */
  function At(s: string, known: set<Entity>): Option<Entity>
  {
    if Amp in known && StartsWith(s, Reference(Amp)) then Some(Amp)
    else if Lt in known && StartsWith(s, Reference(Lt)) then Some(Lt)
    else if Gt in known && StartsWith(s, Reference(Gt)) then Some(Gt)
    else if Quot in known && StartsWith(s, Reference(Quot)) then Some(Quot)
    else if Apos in known && StartsWith(s, Reference(Apos)) then Some(Apos)
    else None
  }

  /** One left-to-right pass that decodes the references of `known`. */
  function DecodeOnce(s: string, known: set<Entity>): string
  {
    if s == [] then []
    else
      var e := At(s, known);
      if e.Some? && |Reference(e.value)| <= |s| then [Char(e.value)] + DecodeOnce(s[|Reference(e.value)|..], known)
      else [s[0]] + DecodeOnce(s[1..], known)
  }

  const ALL := {Amp, Lt, Gt, Quot, Apos}
  const MARKUP := {Lt, Gt, Quot, Apos}

  function Decode(s: string): string { DecodeOnce(s, ALL) }

  /** Some "&amp;" is immediately followed by "lt;", "gt;", "quot;" or "apos;". */
  predicate DoublyEscaped(s: string)
  {
    s != [] && (DoublyEscapedHere(s) || DoublyEscaped(s[1..]))
  }

  predicate DoublyEscapedHere(s: string)
  {
    exists e :: e in MARKUP && StartsWith(s, Reference(Amp) + Tail(e))
  }

  // -------------------------------------------------------- prefixes and tokens

  lemma {:induction false} AtMeansPrefix(s: string, known: set<Entity>)
    ensures At(s, known).Some? ==> At(s, known).value in known && StartsWith(s, Reference(At(s, known).value))
    ensures At(s, known).None? ==> forall e | e in known :: !StartsWith(s, Reference(e))
    ensures s == [] || s[0] != '&' ==> At(s, known).None?
  {
  }

  /** No reference is a prefix of another. */
  lemma {:induction false} ReferenceUnique(s: string, e: Entity, f: Entity)
    requires StartsWith(s, Reference(e)) && StartsWith(s, Reference(f))
    ensures e == f
  {
    assert s[1] == Tail(e)[0] == Tail(f)[0];
    assert s[2] == Tail(e)[1] == Tail(f)[1];
  }

  predicate Plain(c: char) { c != '&' && c != '<' && c != '>' && c != '"' && c != '\'' }

  lemma {:induction false} TailIsPlain(e: Entity)
    ensures forall i | 0 <= i < |Tail(e)| :: Plain(Tail(e)[i])
  {
  }

  /** Decoding neither creates nor destroys a plain prefix. */
  lemma {:induction false} PlainPrefix(s: string, w: string, known: set<Entity>)
    requires forall i | 0 <= i < |w| :: Plain(w[i])
    ensures StartsWith(DecodeOnce(s, known), w) <==> StartsWith(s, w)
    ensures StartsWith(s, w) ==> DecodeOnce(s, known) == w + DecodeOnce(s[|w|..], known)
  {
    if w == [] {
      assert s[0..] == s;
    } else if s == [] {
      assert DecodeOnce(s, known) == [];
    } else {
      hide DecodeOnce, At, Plain;
      AtMeansPrefix(s, known);
      var d := DecodeOnce(s, known);
      if At(s, known).Some? {
        PassTakes(s, known, At(s, known).value);
        StartsWithHead(s, w);
        StartsWithHead(d, w);
      } else {
        PlainPrefix(s[1..], w[1..], known);
        assert s == [s[0]] + s[1..];
        PassLeaves(s[0], s[1..], known);
        PrefixCons(s, d, w, known);
      }
    }
  }

  lemma {:induction false} PrefixCons(s: string, d: string, w: string, known: set<Entity>)
    requires s != [] && w != [] && d == [s[0]] + DecodeOnce(s[1..], known)
    requires StartsWith(DecodeOnce(s[1..], known), w[1..]) <==> StartsWith(s[1..], w[1..])
    requires StartsWith(s[1..], w[1..]) ==>
               DecodeOnce(s[1..], known) == w[1..] + DecodeOnce(s[1..][|w[1..]|..], known)
    ensures StartsWith(d, w) <==> StartsWith(s, w)
    ensures StartsWith(s, w) ==> d == w + DecodeOnce(s[|w|..], known)
  {
    hide DecodeOnce;
    StartsWithCons(s, w);
    StartsWithCons(d, w);
    if StartsWith(s, w) {
      assert s[1..][|w[1..]|..] == s[|w|..];
      assert w == [w[0]] + w[1..];
    }
  }

  lemma {:induction false} StartsWithCons(s: string, w: string)
    requires s != [] && w != []
    ensures StartsWith(s, w) <==> s[0] == w[0] && StartsWith(s[1..], w[1..])
  {
    if s[0] == w[0] && StartsWith(s[1..], w[1..]) {
      assert s[..|w|] == [s[0]] + s[1..][..|w| - 1];
      assert w == [w[0]] + w[1..];
    }
    if StartsWith(s, w) {
      assert s[1..][..|w| - 1] == s[..|w|][1..];
    }
  }

  lemma {:induction false} StartsWithHead(s: string, w: string)
    requires w != []
    ensures StartsWith(s, w) ==> s != [] && s[0] == w[0]
  {
  }

  lemma {:induction false} StartsWithShorter(s: string, w: string, more: string)
    ensures StartsWith(s, w + more) ==> StartsWith(s, w)
  {
    if StartsWith(s, w + more) {
      assert s[..|w|] == s[..|w + more|][..|w|];
    }
  }

  /** ReplaceAll is a pass that knows one entity. */
  lemma {:induction false} ReplaceIsPass(s: string, e: Entity)
    ensures ReplaceAll(s, e) == DecodeOnce(s, {e})
  {
    if s != [] {
      AtMeansPrefix(s, {e});
      if StartsWith(s, Reference(e)) {
        ReplaceIsPass(s[|Reference(e)|..], e);
      } else {
        ReplaceIsPass(s[1..], e);
      }
    }
  }

  lemma {:induction false} PassTakes(s: string, known: set<Entity>, e: Entity)
    requires At(s, known) == Some(e)
    ensures StartsWith(s, Reference(e))
    ensures DecodeOnce(s, known) == [Char(e)] + DecodeOnce(s[|Reference(e)|..], known)
  {
    AtMeansPrefix(s, known);
  }

  lemma {:induction false} PassLeaves(c: char, t: string, known: set<Entity>)
    requires At([c] + t, known).None?
    ensures DecodeOnce([c] + t, known) == [c] + DecodeOnce(t, known)
  {
    assert ([c] + t)[1..] == t;
  }

  /** How a pass treats a reference at the beginning of its input. */
  lemma {:induction false} PassAtReference(rest: string, e: Entity, known: set<Entity>)
    ensures DecodeOnce(Reference(e) + rest, known)
            == if e in known then [Char(e)] + DecodeOnce(rest, known) else Reference(e) + DecodeOnce(rest, known)
  {
    AtReference(rest, e, known);
    if e in known {
      PassTakes(Reference(e) + rest, known, e);
      assert (Reference(e) + rest)[|Reference(e)|..] == rest;
    } else {
      PassLeavesReference(rest, e, known);
    }
  }

  lemma {:induction false} PassLeavesReference(rest: string, e: Entity, known: set<Entity>)
    requires At(Reference(e) + rest, known).None?
    ensures DecodeOnce(Reference(e) + rest, known) == Reference(e) + DecodeOnce(rest, known)
  {
    var after := Tail(e) + rest;
    assert Reference(e) + rest == ['&'] + after;
    PassLeaves('&', after, known);
    PassOverTail(rest, e, known);
    assert ['&'] + (Tail(e) + DecodeOnce(rest, known)) == Reference(e) + DecodeOnce(rest, known);
  }

  lemma {:induction false} AtReference(rest: string, e: Entity, known: set<Entity>)
    ensures At(Reference(e) + rest, known) == if e in known then Some(e) else None
  {
    var s := Reference(e) + rest;
    assert StartsWith(s, Reference(e));
    AtMeansPrefix(s, known);
    if At(s, known).Some? {
      ReferenceUnique(s, e, At(s, known).value);
    }
  }

  /** Running a pass for one more markup entity after a pass is one pass for both. */
  lemma {:induction false} PassesCompose(s: string, known: set<Entity>, e: Entity)
    requires known <= MARKUP && e in MARKUP - known
    ensures DecodeOnce(DecodeOnce(s, known), {e}) == DecodeOnce(s, known + {e})
  {
    if s != [] {
      var both := known + {e};
      AtMeansPrefix(s, both);
      if At(s, both).Some? {
        var f := At(s, both).value;
        var rest := s[|Reference(f)|..];
        assert s == Reference(f) + rest;
        PassesCompose(rest, known, e);
        PassAtReference(rest, f, known);
        PassAtReference(rest, f, both);
        if f == e {
          PassAtReference(DecodeOnce(rest, known), e, {e});
        } else {
          PassOverChar(Char(f), DecodeOnce(rest, known), {e});
        }
      } else {
        AtMeansPrefix(s, known);
        PassesCompose(s[1..], known, e);
        TailIsPlain(e);
        PlainPrefix(s[1..], Tail(e), known);
        StartsWithCons(s, Reference(e));
        assert Reference(e)[1..] == Tail(e);
        PassOverNonReference(s[0], DecodeOnce(s[1..], known), e);
      }
    }
  }

  lemma {:induction false} PassOverChar(c: char, t: string, known: set<Entity>)
    requires c != '&'
    ensures DecodeOnce([c] + t, known) == [c] + DecodeOnce(t, known)
  {
    AtMeansPrefix([c] + t, known);
    assert ([c] + t)[1..] == t;
  }

  lemma {:induction false} PassOverNonReference(c: char, t: string, e: Entity)
    requires !(c == '&' && StartsWith(t, Tail(e)))
    ensures DecodeOnce([c] + t, {e}) == [c] + DecodeOnce(t, {e})
  {
    AtMeansPrefix([c] + t, {e});
    assert ([c] + t)[1..] == t;
    StartsWithCons([c] + t, Reference(e));
    assert Reference(e)[1..] == Tail(e);
  }

  /** The last four replacements are one pass over the markup entities. */
  lemma {:induction false} MarkupInOnePass(t: string)
    ensures ReplaceAll(ReplaceAll(ReplaceAll(ReplaceAll(t, Lt), Gt), Quot), Apos) == DecodeOnce(t, MARKUP)
  {
    var t1 := ReplaceAll(t, Lt);
    var t2 := ReplaceAll(t1, Gt);
    var t3 := ReplaceAll(t2, Quot);
    ReplaceIsPass(t, Lt);
    ReplaceIsPass(t1, Gt);
    ReplaceIsPass(t2, Quot);
    ReplaceIsPass(t3, Apos);
    PassesCompose(t, {Lt}, Gt);
    PassesCompose(t, {Lt} + {Gt}, Quot);
    PassesCompose(t, {Lt} + {Gt} + {Quot}, Apos);
    assert MARKUP == {Lt} + {Gt} + {Quot} + {Apos};
  }

  // -------------------------------------------------------------- exact domain

  /** Double escaping at the front of a token or further on. */
  lemma {:induction false} DoubleAfter(p: string, rest: string)
    requires p != [] && forall i | 0 < i < |p| :: p[i] != '&'
    ensures DoublyEscaped(p + rest) <==> DoublyEscapedHere(p + rest) || DoublyEscaped(rest)
    decreases |p|
  {
    var s := p + rest;
    assert s[1..] == p[1..] + rest;
    if |p| == 1 {
      assert s[1..] == rest;
    } else {
      DoubleAfter(p[1..], rest);
      assert s[1..][0] == p[1];
      forall e | e in MARKUP
        ensures !StartsWith(s[1..], Reference(Amp) + Tail(e))
      {
        StartsWithHead(s[1..], Reference(Amp) + Tail(e));
      }
    }
  }

  /** An ampersand reference is doubly escaped exactly when a markup tail follows. */
  lemma {:induction false} AmpDoubled(rest: string, e: Entity)
    ensures StartsWith(Reference(Amp) + rest, Reference(Amp) + Tail(e)) <==> StartsWith(rest, Tail(e))
  {
    PrefixBehind(Reference(Amp), rest, Tail(e));
  }

  lemma {:induction false} PrefixBehind(p: string, rest: string, t: string)
    ensures StartsWith(p + rest, p + t) <==> StartsWith(rest, t)
  {
    if |t| <= |rest| {
      var s := rest[..|t|];
      assert (p + rest)[..|p + t|] == p + s;
      assert (p + s)[|p|..] == s && (p + t)[|p|..] == t;
    }
  }

  lemma {:induction false} NotDoubled(s: string)
    requires !StartsWith(s, Reference(Amp))
    ensures !DoublyEscapedHere(s)
  {
    forall e | e in MARKUP
      ensures !StartsWith(s, Reference(Amp) + Tail(e))
    {
      StartsWithShorter(s, Reference(Amp), Tail(e));
    }
  }

  ghost predicate Compare(s: string)
  {
    var seq5, one := DecodeOnce(DecodeOnce(s, {Amp}), MARKUP), DecodeOnce(s, ALL);
    && (!DoublyEscaped(s) ==> seq5 == one)
    && |seq5| <= |one|
    && (DoublyEscaped(s) ==> |seq5| < |one|)
  }

  /** "&amp;" followed by a markup tail: the replacements swallow the tail, the single pass keeps it. */
  lemma {:induction false} CompareAtDoubled(r: string, e: Entity)
    requires e in MARKUP && Compare(r)
    ensures Compare(Reference(Amp) + (Tail(e) + r))
  {
    DoubledPasses(r, e);
    hide DecodeOnce, DoublyEscaped, Reference;
    assert |Tail(e)| >= 1;
  }

  lemma {:induction false} DoubledPasses(r: string, e: Entity)
    requires e in MARKUP
    ensures var s := Reference(Amp) + (Tail(e) + r);
      && DecodeOnce(DecodeOnce(s, {Amp}), MARKUP) == [Char(e)] + DecodeOnce(DecodeOnce(r, {Amp}), MARKUP)
      && DecodeOnce(s, ALL) == ['&'] + (Tail(e) + DecodeOnce(r, ALL))
      && DoublyEscaped(s)
  {
    var rest := Tail(e) + r;
    hide DecodeOnce, At;
    PassAtReference(rest, Amp, {Amp});
    PassAtReference(rest, Amp, ALL);
    PassOverTail(r, e, {Amp});
    PassOverTail(r, e, ALL);
    var u := DecodeOnce(r, {Amp});
    assert ['&'] + (Tail(e) + u) == Reference(e) + u;
    PassAtReference(u, e, MARKUP);
    AmpDoubled(rest, e);
    assert DoublyEscapedHere(Reference(Amp) + rest);
  }

  lemma {:induction false} PassOverTail(r: string, e: Entity, known: set<Entity>)
    ensures DecodeOnce(Tail(e) + r, known) == Tail(e) + DecodeOnce(r, known)
    ensures StartsWith(Tail(e) + r, Tail(e))
  {
    TailIsPlain(e);
    PlainPrefix(Tail(e) + r, Tail(e), known);
    assert (Tail(e) + r)[|Tail(e)|..] == r;
  }

  lemma {:induction false} CompareAtSingle(rest: string)
    requires Compare(rest) && forall e | e in MARKUP :: !StartsWith(rest, Tail(e))
    ensures Compare(Reference(Amp) + rest)
  {
    var s, u := Reference(Amp) + rest, DecodeOnce(rest, {Amp});
    PassAtReference(rest, Amp, {Amp});
    PassAtReference(rest, Amp, ALL);
    DoubleAfter(Reference(Amp), rest);
    forall e | e in MARKUP
      ensures !StartsWith(s, Reference(Amp) + Tail(e)) && !StartsWith(u, Tail(e))
    {
      AmpDoubled(rest, e);
      TailIsPlain(e);
      PlainPrefix(rest, Tail(e), {Amp});
    }
    BareAmpersand(u);
  }

  lemma {:induction false} BareAmpersand(u: string)
    requires forall e | e in MARKUP :: !StartsWith(u, Tail(e))
    ensures DecodeOnce("&" + u, MARKUP) == "&" + DecodeOnce(u, MARKUP)
  {
    assert ("&" + u)[1..] == u;
    forall e | e in MARKUP
      ensures !StartsWith("&" + u, Reference(e))
    {
      StartsWithCons("&" + u, Reference(e));
      assert Reference(e)[1..] == Tail(e);
    }
    AtMeansPrefix("&" + u, MARKUP);
  }

  lemma {:induction false} CompareAtMarkup(rest: string, e: Entity)
    requires Compare(rest) && e in MARKUP
    ensures Compare(Reference(e) + rest)
  {
    MarkupPasses(rest, e);
    MarkupIsNotDoubled(rest, e);
    hide DecodeOnce, DoublyEscaped, Reference;
  }

  lemma {:induction false} MarkupPasses(rest: string, e: Entity)
    requires e in MARKUP
    ensures var s := Reference(e) + rest;
      && DecodeOnce(DecodeOnce(s, {Amp}), MARKUP) == [Char(e)] + DecodeOnce(DecodeOnce(rest, {Amp}), MARKUP)
      && DecodeOnce(s, ALL) == [Char(e)] + DecodeOnce(rest, ALL)
  {
    hide DecodeOnce, At;
    PassAtReference(rest, e, {Amp});
    PassAtReference(rest, e, ALL);
    PassAtReference(DecodeOnce(rest, {Amp}), e, MARKUP);
  }

  lemma {:induction false} MarkupIsNotDoubled(rest: string, e: Entity)
    requires e in MARKUP
    ensures DoublyEscaped(Reference(e) + rest) <==> DoublyEscaped(rest)
  {
    var s := Reference(e) + rest;
    TailIsPlain(e);
    DoubleAfter(Reference(e), rest);
    if StartsWith(s, Reference(Amp)) {
      ReferenceUnique(s, e, Amp);
    }
    NotDoubled(s);
  }

  lemma {:induction false} CompareAtChar(s: string)
    requires s != [] && At(s, ALL).None? && Compare(s[1..])
    ensures Compare(s)
  {
    AtMeansPrefix(s, ALL);
    AtMeansPrefix(s, {Amp});
    NotDoubled(s);
    var u := DecodeOnce(s[1..], {Amp});
    assert DecodeOnce(s, {Amp}) == [s[0]] + u;
    forall e | e in MARKUP
      ensures !StartsWith([s[0]] + u, Reference(e))
    {
      TailIsPlain(e);
      PlainPrefix(s[1..], Tail(e), {Amp});
      StartsWithCons(s, Reference(e));
      StartsWithCons([s[0]] + u, Reference(e));
      assert ([s[0]] + u)[1..] == u && Reference(e)[1..] == Tail(e);
    }
    AtMeansPrefix([s[0]] + u, MARKUP);
    assert ([s[0]] + u)[1..] == u;
  }

  lemma {:induction false} CompareNothing()
    ensures Compare("")
  {
  }

  lemma {:induction false} CutPrefix(s: string, p: string)
    requires StartsWith(s, p)
    ensures s == p + s[|p|..]
  {
  }

  lemma {:induction false} CompareAll(s: string)
    ensures Compare(s)
    decreases |s|
  {
    hide Compare, DecodeOnce, At;
    if s == [] {
      CompareNothing();
    } else {
      AtMeansPrefix(s, ALL);
      hide StartsWith;
      if At(s, ALL).None? {
        CompareAll(s[1..]);
        CompareAtChar(s);
      } else {
        var e := At(s, ALL).value;
        CutPrefix(s, Reference(e));
        var rest := s[|Reference(e)|..];
        CompareAll(rest);
        if e == Amp {
          if f :| f in MARKUP && StartsWith(rest, Tail(f)) {
            CutPrefix(rest, Tail(f));
            CompareAll(rest[|Tail(f)|..]);
            CompareAtDoubled(rest[|Tail(f)|..], f);
          } else {
            CompareAtSingle(rest);
          }
        } else {
          CompareAtMarkup(rest, e);
        }
      }
    }
  }

  /** The five sequential replacements decode correctly exactly when no "&amp;" is immediately
      followed by the rest of another predefined reference. */
  lemma {:induction false} SequentialDecodingIff(s: string)
    ensures DecodeXMLEntities(s) == Decode(s) <==> !DoublyEscaped(s)
  {
    MarkupInOnePass(ReplaceAll(s, Amp));
    ReplaceIsPass(s, Amp);
    CompareAll(s);
  }

  // -------------------------------------------------------------- escaping

  function EntityOf(c: char): (e: Entity)
    requires !Plain(c)
    ensures Char(e) == c && e in ALL
  {
    if c == '&' then Amp else if c == '<' then Lt else if c == '>' then Gt else if c == '"' then Quot else Apos
  }

  function EscapeChar(c: char): string
  {
    if Plain(c) then [c] else Reference(EntityOf(c))
  }

  function Escape(raw: string): string
  {
    if raw == [] then [] else EscapeChar(raw[0]) + Escape(raw[1..])
  }

  /** Some markup reference occurs literally in the raw text. */
  predicate MentionsReference(raw: string)
  {
    raw != [] && ((exists e :: e in MARKUP && StartsWith(raw, Reference(e))) || MentionsReference(raw[1..]))
  }

  lemma {:induction false} DecodeEscapeChar(c: char, rest: string)
    ensures DecodeOnce(EscapeChar(c) + rest, ALL) == [c] + DecodeOnce(rest, ALL)
  {
    if Plain(c) {
      PassOverChar(c, rest, ALL);
    } else {
      var e := EntityOf(c);
      PassAtReference(rest, e, ALL);
    }
  }

  /** A conforming decoder undoes the escaping. */
  lemma {:induction false} DecodeEscape(raw: string)
    ensures Decode(Escape(raw)) == raw
  {
    if raw != [] {
      DecodeEscape(raw[1..]);
      DecodeEscapeChar(raw[0], Escape(raw[1..]));
    }
  }

  lemma {:induction false} EscapePlainPrefix(raw: string, w: string)
    requires forall i | 0 <= i < |w| :: Plain(w[i])
    ensures StartsWith(Escape(raw), w) <==> StartsWith(raw, w)
  {
    if w != [] && raw != [] {
      if Plain(raw[0]) {
        EscapePlainPrefix(raw[1..], w[1..]);
        assert Escape(raw)[1..] == Escape(raw[1..]);
        StartsWithCons(raw, w);
        StartsWithCons(Escape(raw), w);
      } else {
        assert Escape(raw)[0] == '&';
      }
    }
  }

  /** Escaped text is doubly escaped exactly when the raw text mentions a markup reference. */
  lemma {:induction false} EscapedIsDoubledIff(raw: string)
    ensures DoublyEscaped(Escape(raw)) <==> MentionsReference(raw)
  {
    if raw != [] {
      EscapedIsDoubledIff(raw[1..]);
      var c, p, rest := raw[0], EscapeChar(raw[0]), Escape(raw[1..]);
        if !Plain(c) {
        TailIsPlain(EntityOf(c));
      }
      DoubleAfter(p, rest);
      forall e | e in MARKUP
        ensures StartsWith(p + rest, Reference(Amp) + Tail(e)) <==> StartsWith(raw, Reference(e))
      {
        DoubledHereIff(raw, e);
      }
    }
  }

  lemma {:induction false} NotAmpersandFirst(c: char, rest: string)
    requires c != '&'
    ensures !StartsWith(EscapeChar(c) + rest, Reference(Amp))
  {
    var s := EscapeChar(c) + rest;
    if Plain(c) {
      StartsWithHead(s, Reference(Amp));
    } else {
      AtReference(rest, EntityOf(c), {Amp});
      AtMeansPrefix(s, {Amp});
    }
  }

  lemma {:induction false} DoubledHereIff(raw: string, e: Entity)
    requires raw != [] && e in MARKUP
    ensures StartsWith(Escape(raw), Reference(Amp) + Tail(e)) <==> StartsWith(raw, Reference(e))
  {
    var rest := Escape(raw[1..]);
    StartsWithCons(raw, Reference(e));
    assert Reference(e)[1..] == Tail(e);
    TailIsPlain(e);
    EscapePlainPrefix(raw[1..], Tail(e));
    AmpDoubled(rest, e);
    if raw[0] != '&' {
      NotAmpersandFirst(raw[0], rest);
      StartsWithShorter(Escape(raw), Reference(Amp), Tail(e));
    }
  }

  /** The scanner recovers a value exactly when the value does not mention a markup reference. */
  lemma {:induction false} ScannerRecoversIff(raw: string)
    ensures DecodeXMLEntities(Escape(raw)) == raw <==> !MentionsReference(raw)
  {
    SequentialDecodingIff(Escape(raw));
    DecodeEscape(raw);
    EscapedIsDoubledIff(raw);
  }

  /** Skipping the decoder on text without an ampersand changes nothing. */
  lemma {:induction false} NoAmpersandNoChange(s: string)
    requires '&' !in s
    ensures DecodeXMLEntities(s) == s
  {
    ReplaceNothing(s, Amp);
    ReplaceNothing(s, Lt);
    ReplaceNothing(s, Gt);
    ReplaceNothing(s, Quot);
    ReplaceNothing(s, Apos);
  }

  lemma {:induction false} ReplaceNothing(s: string, e: Entity)
    requires '&' !in s
    ensures ReplaceAll(s, e) == s
  {
    if s != [] {
      assert s[0] in s;
      ReplaceNothing(s[1..], e);
      StartsWithHead(s, Reference(e));
    }
  }
}
