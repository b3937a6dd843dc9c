/** What the filter on __type lets through, for both object parsers of internal/scanner/nios/scanner.go: on printed
    documents with clean values the delivered maps are those of the wanted objects, in order. */
module XmlFilter {
  import opened Base
  import opened XmlStream
  import opened XmlRefinement

  /** The object has a named property, and each of its "__type" properties has a value among the wanted types. */
  ghost predicate Wanted(ps: seq<Prop>, filter: Filter)
  {
    && (exists p :: p in ps && p.name != "")
    && (filter.Some? ==> forall p | p in ps && p.name == "__type" :: p.value in filter.value)
  }

  /** The properties of the wanted objects of a document, in order. */
  ghost function WantedObjects(doc: seq<Item>, filter: Filter): seq<seq<Prop>>
  {
    if doc == [] then []
    else
      var before := WantedObjects(doc[..|doc| - 1], filter);
      match doc[|doc| - 1]
      case Noise(_, _) => before
      case Object(rows) => if Wanted(PropsOf(rows), filter) then before + [PropsOf(rows)] else before
  }

  /** `m` maps exactly the names of the properties, each to the last value given for it. */
  ghost predicate MapsProps(m: map<string, string>, ps: seq<Prop>)
  {
    && (forall name | name in m :: name != "" && exists i ::
        0 <= i < |ps| && LastOf(ps, i, name) && m[name] == ps[i].value)
    && (forall p | p in ps && p.name != "" :: p.name in m)
  }

  /** The i-th property is the last one with this name. */
  ghost predicate LastOf(ps: seq<Prop>, i: nat, name: string)
    requires i < |ps|
  {
    ps[i].name == name && forall j | i < j < |ps| :: ps[j].name != name
  }

  /** One map for each of the objects. */
  ghost predicate MapsAll(maps: seq<map<string, string>>, objects: seq<seq<Prop>>)
  {
    |maps| == |objects| && forall k | 0 <= k < |objects| :: MapsProps(maps[k], objects[k])
  }

  // ------------------------------------------------------------ one object

  function Named(ps: seq<Prop>): seq<Prop>
  {
    if ps == [] then [] else Named(ps[..|ps| - 1]) + (if ps[|ps| - 1].name != "" then [ps[|ps| - 1]] else [])
  }

  lemma {:induction false} NamedIsEmpty(ps: seq<Prop>)
    ensures Named(ps) == [] <==> forall p | p in ps :: p.name == ""
  {
    if ps != [] {
      NamedIsEmpty(ps[..|ps| - 1]);
      assert ps == ps[..|ps| - 1] + [ps[|ps| - 1]];
    }
  }

  /** Reading stops exactly at an unwanted type, and keeps the named properties otherwise. */
  lemma {:induction false} CollectsNamed(ps: seq<Prop>, filter: Filter)
    ensures var (buf, skip) := Collect(ps, [], filter);
      && (skip <==> filter.Some? && exists p :: p in ps && p.name == "__type" && p.value !in filter.value)
      && (!skip ==> buf == Named(ps))
  {
    if ps != [] {
      var before, p := ps[..|ps| - 1], ps[|ps| - 1];
      assert ps == before + [p];
      CollectsNamed(before, filter);
      CollectSnoc(before, p, filter);
    }
  }

  lemma {:induction false} MapsOneMore(m: map<string, string>, ps: seq<Prop>, p: Prop)
    requires MapsProps(m, ps)
    ensures MapsProps(if p.name != "" then m[p.name := p.value] else m, ps + [p])
  {
    var all, after := ps + [p], if p.name != "" then m[p.name := p.value] else m;
    forall name | name in after
      ensures name != "" && exists i :: 0 <= i < |all| && LastOf(all, i, name) && after[name] == all[i].value
    {
      if name == p.name {
        assert LastOf(all, |ps|, name);
      } else {
        var i :| 0 <= i < |ps| && LastOf(ps, i, name) && m[name] == ps[i].value;
        assert LastOf(all, i, name);
      }
    }
    assert forall q | q in all :: q in ps || q == p;
  }

  lemma {:induction false} NamedMaps(ps: seq<Prop>)
    ensures MapsProps(ToMap(Named(ps)), ps)
  {
    if ps != [] {
      var before, p := ps[..|ps| - 1], ps[|ps| - 1];
      NamedMaps(before);
      assert ps == before + [p];
      MapsOneMore(ToMap(Named(before)), before, p);
      hide MapsProps;
      var n := Named(ps);
      assert n == if p.name != "" then Named(before) + [p] else Named(before);
      assert p.name != "" ==> n[..|n| - 1] == Named(before) && n[|n| - 1] == p;
      assert p.name == "" ==> n == Named(before);
      assert ToMap(n) == if p.name != "" then ToMap(Named(before))[p.name := p.value] else ToMap(Named(before));
    }
  }

  /** An object is handed over exactly when it is wanted, and then with its properties. */
  lemma {:induction false} DeliversWanted(ps: seq<Prop>, filter: Filter)
    ensures if Wanted(ps, filter) then Deliver(ps, filter) == [ToMap(Named(ps))] && MapsProps(ToMap(Named(ps)), ps)
            else Deliver(ps, filter) == []
  {
    CollectsNamed(ps, filter);
    NamedIsEmpty(ps);
    NamedMaps(ps);
    hide ToMap, Named, MapsProps;
  }

  // ------------------------------------------------------------ documents

  lemma {:induction false} MapsSnoc(maps: seq<map<string, string>>, objects: seq<seq<Prop>>, m: map<string, string>,
                                    ps: seq<Prop>)
    requires MapsAll(maps, objects) && MapsProps(m, ps)
    ensures MapsAll(maps + [m], objects + [ps])
  {
    hide MapsProps;
  }

  lemma {:induction false} DeliversWantedObjects(doc: seq<Item>, filter: Filter)
    requires CleanDoc(doc)
    ensures MapsAll(DeliverDoc(doc, Seen, filter), WantedObjects(doc, filter))
  {
    if doc != [] {
      var before, item := doc[..|doc| - 1], doc[|doc| - 1];
      assert item in doc && CleanItem(item);
      DeliversWantedObjects(before, filter);
      if item.Object? {
        var ps := PropsOf(item.rows);
        CleanIsRead(ps);
        DeliversWanted(ps, filter);
        hide Deliver, MapsAll, MapsProps, Wanted, CleanItem;
        if Wanted(ps, filter) {
          MapsSnoc(DeliverDoc(before, Seen, filter), WantedObjects(before, filter), ToMap(Named(ps)), ps);
        }
      }
    }
  }

  /** Both parsers, on the text and on the tokens of a clean printed document: they hand over exactly the wanted
      objects, in order, each with all its properties. */
  lemma {:induction false} FilterLaw(doc: seq<Item>, crlf: seq<bool>, filter: Filter)
    requires GoodDoc(doc) && CleanDoc(doc) && |crlf| == |PrintDoc(doc)|
    ensures MapsAll(FastOutcome(JoinLines(PrintDoc(doc), crlf), filter).objects, WantedObjects(doc, filter))
    ensures MapsAll(XmlOutcome(DecodeDoc(doc), filter).objects, WantedObjects(doc, filter))
  {
    CleanIsLegal(doc);
    FastDelivers(doc, crlf, filter);
    FastRefinesXml(doc, crlf, filter);
    DeliversWantedObjects(doc, filter);
    hide *;
  }

  /** An object with one "__type" property is wanted exactly when that type is; without a filter every object with a
      named property is. */
  lemma {:induction false} WantedByType(ps: seq<Prop>, i: nat, types: set<string>)
    requires i < |ps| && ps[i].name == "__type"
    requires forall j | 0 <= j < |ps| && ps[j].name == "__type" :: j == i
    ensures Wanted(ps, Some(types)) <==> ps[i].value in types
    ensures Wanted(ps, None)
  {
    assert ps[i] in ps;
  }
}
