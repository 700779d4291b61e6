/**
 * The resource of the v3 codec (draft-kelly-json-hal-11 section 4): a
 * links container, an embeds container that maps relation types to lists
 * of nested resources (section 4.1.2), and every other member as data.
 */
module Resource3 {
  import opened Json
  import opened Hal
  import opened Curies
  import opened Links3

  /**
   * The value of a Resource.  A nil Links or Embeds pointer is None.  Data
   * values are held as the JSON that json.Marshal writes for them.
   */
  datatype ResourceValue = ResourceValue(
    links: Option<LinksValue>,
    embeds: Option<EmbedsValue>,
    data: map<string, Json>)

  /**
   * The value of an Embeds: its relations listed by relation type in
   * ascending order, one entry per relation type (the datatype form of
   * the Go map, see EntriesOf).
   */
  datatype EmbedsValue = EmbedsValue(entries: seq<Embedded>)

  datatype Embedded = Embedded(rel: string, resources: Slice<ResourceValue>)

  /** NewEmbeds. */
  const EmptyEmbeds := EmbedsValue([])

  /** NewResource: empty data, NewLinks, NewEmbeds. */
  const EmptyResource := ResourceValue(Some(EmptyLinks), Some(EmptyEmbeds), map[])

  function Rels(es: seq<Embedded>): (ks: seq<string>)
    ensures |ks| == |es|
    ensures forall i :: 0 <= i < |es| ==> ks[i] == es[i].rel
  {
    seq(|es|, i requires 0 <= i < |es| => es[i].rel)
  }

  /*
   * Encoding.
   */

  /** `_links` is written only when there is a relation or a self link. */
  predicate ShowsLinks(r: ResourceValue) {
    r.links.Some? && (|r.links.value.relations| > 0 || r.links.value.self.Some?)
  }

  /** `_embedded` is written only when there is an embedded relation. */
  predicate ShowsEmbeds(r: ResourceValue) {
    r.embeds.Some? && |r.embeds.value.entries| > 0
  }

  function LinksPart(r: ResourceValue): seq<Member> {
    if ShowsLinks(r) then [Member(LINKS, EncodeLinks(r.links.value))] else []
  }

  /**
   * The members of a resource's encoding with `e` as the `_embedded`
   * value: `_links`, then `_embedded`, then the data keys in ascending
   * order.
   */
  function Assemble(r: ResourceValue, e: Json): (j: Json)
    ensures j.Obj?
  {
    Obj(LinksPart(r)
        + (if ShowsEmbeds(r) then [Member(EMBEDDED, e)] else [])
        + MembersOf(r.data, SortedOf(r.data.Keys)))
  }

  /**
   * Resource.MarshalJSON.  Nested resources are written the same way; the
   * keys of an embeds object are written here in ascending order, which
   * is one of the orders Go's map iteration can produce (see
   * IsEmbedsEncoding for all of them).
   */
  function EncodeResource(r: ResourceValue): (j: Json)
    ensures j.Obj?
    decreases r, 2
  {
    Assemble(r, if ShowsEmbeds(r) then EncodeEmbeds(r.embeds.value) else Null)
  }

  /** Embeds.MarshalJSON: one member per relation type, each the list of its resources. */
  function EncodeEmbeds(ev: EmbedsValue): (j: Json)
    ensures j.Obj? && |j.members| == |ev.entries|
    decreases ev, 1
  {
    var es := ev.entries;
    Obj(seq(|es|, i requires 0 <= i < |es| => Member(es[i].rel, EncodeResources(es[i].resources))))
  }

  /** `json.Marshal` of a `[]Resource[any]`. */
  function EncodeResources(rs: Slice<ResourceValue>): (j: Json)
    decreases rs, 0
  {
    match rs
    case Nil => Null
    case Slice(s) => Arr(seq(|s|, i requires 0 <= i < |s| => EncodeResource(s[i])))
  }

  /**
   * The layout of an encoded resource: `_links` if written, `_embedded`
   * if written, then every data key once, in strictly ascending order.
   */
  lemma ResourceLayout(r: ResourceValue)
    ensures Keys(EncodeResource(r).members) ==
              (if ShowsLinks(r) then [LINKS] else []) + (if ShowsEmbeds(r) then [EMBEDDED] else []) + SortedOf(r.data.Keys)
    ensures StrictlySorted(SortedOf(r.data.Keys))
  {
    SortedOfAscending(r.data.Keys);
    var e := if ShowsEmbeds(r) then EncodeEmbeds(r.embeds.value) else Null;
    var l := LinksPart(r);
    var m := if ShowsEmbeds(r) then [Member(EMBEDDED, e)] else [];
    var ks := SortedOf(r.data.Keys);
    var ds := MembersOf(r.data, ks);
    assert EncodeResource(r).members == l + m + ds;
    KeysAppend(l + m, ds);
    KeysAppend(l, m);
    assert Keys(ds) == ks;
    assert Keys(l) == if ShowsLinks(r) then [LINKS] else [];
    assert Keys(m) == if ShowsEmbeds(r) then [EMBEDDED] else [];
  }

  lemma KeysAppend(a: seq<Member>, b: seq<Member>)
    ensures Keys(a + b) == Keys(a) + Keys(b)
  {
  }

  /** NewResource, and any resource with nothing to write, encodes to `{}`. */
  lemma EmptyResourceEncoding(r: ResourceValue)
    requires !ShowsLinks(r) && !ShowsEmbeds(r) && r.data == map[]
    ensures EncodeResource(r) == Obj([])
  {
    assert SortedOf(r.data.Keys) == [];
  }

  lemma NewResourceEncodesEmpty()
    ensures EncodeResource(EmptyResource) == Obj([])
  {
    EmptyResourceEncoding(EmptyResource);
  }

  /** The embeds map listed by relation type in ascending order. */
  function EntriesOf(m: map<string, Slice<ResourceValue>>): (ev: EmbedsValue)
    ensures Rels(ev.entries) == SortedOf(m.Keys)
    ensures forall i :: 0 <= i < |ev.entries| ==> ev.entries[i].rel in m && ev.entries[i].resources == m[ev.entries[i].rel]
  {
    var ks := SortedOf(m.Keys);
    EmbedsValue(seq(|ks|, i requires 0 <= i < |ks| => Embedded(ks[i], m[ks[i]])))
  }

  /**
   * What Embeds.MarshalJSON may write for the relations `m`: each
   * relation once, as the list of its resources, in any order.
   */
  ghost predicate IsEmbedsEncoding(m: map<string, Slice<ResourceValue>>, j: Json) {
    && j.Obj?
    && DistinctKeys(j.members)
    && (forall k :: k in m <==> k in Keys(j.members))
    && (forall i :: 0 <= i < |j.members| ==>
          j.members[i].key in m && j.members[i].value == EncodeResources(m[j.members[i].key]))
  }

  /**
   * AddEmbed on the relations map: the resource goes at the end of the
   * relation's list, which is created if absent.
   */
  function WithEmbed(m: map<string, Slice<ResourceValue>>, rel: string, e: ResourceValue): (m': map<string, Slice<ResourceValue>>)
    ensures m'.Keys == m.Keys + {rel}
    ensures m'[rel].Slice? && m'[rel].elems == (if rel in m then m[rel].Elems() else []) + [e]
    ensures forall k :: k in m && k != rel ==> m'[k] == m[k]
  {
    m[rel := Slice((if rel in m then m[rel].Elems() else []) + [e])]
  }

  /*
   * Decoding.
   */

  /** The conversion of a nested resource's data to `any`, which accepts every value. */
  function AnyT(j: Json): Option<Json> {
    Some(j)
  }

  /**
   * Resource.UnmarshalJSON.  `toT` is the conversion of a data value to
   * T (json.Marshal then json.Unmarshal into T): the JSON of the
   * converted value, or None when T cannot hold it.  Embeds first, then
   * links, then a top-level `curies`, then the data.  A panic can only
   * come from a null `_links` followed by a top-level `curies`, here or in
   * a nested resource.
   */
  function DecodeResource(j: Json, toT: Json -> Option<Json>): (r: Result<ResourceValue>)
    ensures r.Failure? ==> r.error == Malformed || r.error == Panic || (r.error == TypeMismatch && exists x :: toT(x).None?)
    decreases Size(j), 3, 0
  {
    var temp :- AsObject(j);
    var embeds :- if EMBEDDED in temp then (ValueSmaller(j, EMBEDDED); EmbedsStep(temp[EMBEDDED])) else Success(Some(EmptyEmbeds));
    var links :- LinksStep(temp);
    var data :- DecodeData(temp - {EMBEDDED, LINKS, CURIES}, toT);
    Success(ResourceValue(links, embeds, data))
  }

  /**
   * `json.Unmarshal` of `_embedded` into the `*Embeds` made by NewEmbeds:
   * null sets the pointer to nil, anything else goes to Embeds.UnmarshalJSON.
   */
  function EmbedsStep(e: Json): (r: Result<Option<EmbedsValue>>)
    ensures r.Failure? ==> r.error == Malformed || r.error == Panic
    decreases Size(e), 2, 0
  {
    if e.Null? then Success(None)
    else
      var ev :- DecodeEmbeds(e);
      Success(Some(ev))
  }

  /** Embeds.UnmarshalJSON: an object (or null) whose every member is a list of resources. */
  function DecodeEmbeds(e: Json): (r: Result<EmbedsValue>)
    ensures r.Failure? ==> r.error == Malformed || r.error == Panic
    decreases Size(e), 1, 0
  {
    var temp :- AsObject(e);
    var es :- DecodeEntries(e, SortedOf(temp.Keys));
    Success(EmbedsValue(es))
  }

  /** The relations `ks` of an embeds object, decoded in that order. */
  function DecodeEntries(e: Json, ks: seq<string>): (r: Result<seq<Embedded>>)
    requires AsObject(e).Success? && forall k :: k in ks ==> k in AsObject(e).value
    ensures r.Failure? ==> r.error == Malformed || r.error == Panic
    decreases Size(e), 0, |ks|
  {
    if ks == [] then Success([])
    else
      ValueSmaller(e, ks[0]);
      var rs :- DecodeResources(AsObject(e).value[ks[0]]);
      var rest :- DecodeEntries(e, ks[1..]);
      Success([Embedded(ks[0], rs)] + rest)
  }

  /** `json.Unmarshal` into a `[]Resource[any]`: null is nil, an array decodes item by item. */
  function DecodeResources(v: Json): (r: Result<Slice<ResourceValue>>)
    ensures r.Failure? ==> r.error == Malformed || r.error == Panic
    decreases Size(v), 2, 0
  {
    match v
    case Null => Success(Nil)
    case Arr(items) =>
      var rs :- Sequence(seq(|items|, i requires 0 <= i < |items| =>
                           (ItemSmaller(items, i); DecodeResource(items[i], AnyT))));
      Success(Slice(rs))
    case _ => Failure(Malformed)
  }

  /**
   * `json.Unmarshal` of `_links` into the `*Links` made by NewLinks:
   * absent keeps it, null sets the pointer to nil, anything else goes to
   * Links.UnmarshalJSON.
   */
  function LinksMemberStep(temp: map<string, Json>): (r: Result<Option<LinksValue>>)
    ensures r.Failure? ==> r.error == Malformed && LINKS in temp
    ensures r.Success? ==> (r.value.None? <==> LINKS in temp && temp[LINKS].Null?)
  {
    if LINKS !in temp then Success(Some(EmptyLinks))
    else if temp[LINKS].Null? then Success(None)
    else
      var v :- DecodeLinksInto(EmptyLinks, temp[LINKS]);
      Success(Some(v))
  }

  /**
   * `_links`, then a top-level `curies` decoded as a `[]Curie` (after its
   * round through `map[string]any`, `DecodeTopCuries`) and stored
   * through the links pointer, which panics when a null `_links` has
   * made that pointer nil.
   */
  function LinksStep(temp: map<string, Json>): (r: Result<Option<LinksValue>>)
    ensures r.Failure? ==> r.error == Malformed || r.error == Panic
    ensures r.Failure? && r.error == Panic ==> LINKS in temp && temp[LINKS].Null? && CURIES in temp
    ensures r.Success? ==> (r.value.None? <==> LINKS in temp && temp[LINKS].Null?)
    ensures r.Success? && CURIES in temp ==>
              r.value.Some? && DecodeTopCuries(temp[CURIES]) == Success(r.value.value.curies)
  {
    var links :- LinksMemberStep(temp);
    if CURIES in temp then
      var cs :- DecodeTopCuries(temp[CURIES]);
      if links.None? then Failure(Panic) else Success(Some(links.value.(curies := cs)))
    else Success(links)
  }

  /** The remaining members, each converted to T. */
  function DecodeData(rest: map<string, Json>, toT: Json -> Option<Json>): (r: Result<map<string, Json>>)
    ensures r.Success? <==> forall k :: k in rest ==> toT(rest[k]).Some?
    ensures r.Success? ==> r.value.Keys == rest.Keys && forall k :: k in rest ==> toT(rest[k]) == Some(r.value[k])
    ensures r.Failure? ==> r.error == TypeMismatch && exists k :: k in rest && toT(rest[k]).None?
  {
    if forall k :: k in rest ==> toT(rest[k]).Some? then Success(map k | k in rest :: toT(rest[k]).value)
    else Failure(TypeMismatch)
  }

  /*
   * Properties of decoding.
   */

  /** What a successful decode holds, and the errors it reports. */
  lemma DecodeResourceShape(j: Json, toT: Json -> Option<Json>)
    ensures AsObject(j).Failure? ==> DecodeResource(j, toT) == Failure(Malformed)
    ensures DecodeResource(j, toT).Success? ==>
              (AsObject(j).Success? &&
               var temp := AsObject(j).value;
               var r := DecodeResource(j, toT).value;
               && r.data.Keys == temp.Keys - {EMBEDDED, LINKS, CURIES}
               && (forall k :: k in r.data ==> toT(temp[k]) == Some(r.data[k]))
               && (EMBEDDED !in temp ==> r.embeds == Some(EmptyEmbeds))
               && (EMBEDDED in temp && temp[EMBEDDED].Null? ==> r.embeds == None)
               && (r.links.None? <==> LINKS in temp && temp[LINKS].Null?)
               && (LINKS !in temp && CURIES !in temp ==> r.links == Some(EmptyLinks))
               && (CURIES in temp ==> r.links.Some? && r.links.value.curies == DecodeTopCuries(temp[CURIES]).value))
    ensures AsObject(j).Success? && EmbedsStepOf(j).Success? && LinksStep(AsObject(j).value).Success? ==>
              var rest := AsObject(j).value - {EMBEDDED, LINKS, CURIES};
              (DecodeResource(j, toT).Success? <==> forall k :: k in rest ==> toT(rest[k]).Some?)
    ensures AsObject(j).Success? && EmbedsStepOf(j).Success? ==>
              var temp := AsObject(j).value;
              LINKS in temp && temp[LINKS].Null? && CURIES in temp && DecodeTopCuries(temp[CURIES]).Success? ==>
                DecodeResource(j, toT) == Failure(Panic)
  {
  }

  /** The embeds step of a decode, from the whole object. */
  function EmbedsStepOf(j: Json): Result<Option<EmbedsValue>>
    requires AsObject(j).Success?
  {
    var temp := AsObject(j).value;
    if EMBEDDED in temp then (ValueSmaller(j, EMBEDDED); EmbedsStep(temp[EMBEDDED])) else Success(Some(EmptyEmbeds))
  }

  /** A data value T cannot hold makes the decode fail with a type error. */
  lemma DataMismatchFails(j: Json, toT: Json -> Option<Json>, k: string)
    requires AsObject(j).Success? && EmbedsStepOf(j).Success? && LinksStep(AsObject(j).value).Success?
    requires k in AsObject(j).value && k !in {EMBEDDED, LINKS, CURIES}
    requires toT(AsObject(j).value[k]).None?
    ensures DecodeResource(j, toT) == Failure(TypeMismatch)
  {
    var rest := AsObject(j).value - {EMBEDDED, LINKS, CURIES};
    assert k in rest && toT(rest[k]).None?;
  }

  /**
   * The relations of an embeds object are decoded in the order `ks`; the
   * first failing one decides the error.
   */
  lemma {:induction false} DecodeEntriesShape(e: Json, ks: seq<string>)
    requires AsObject(e).Success? && forall k :: k in ks ==> k in AsObject(e).value
    ensures var m := AsObject(e).value;
            DecodeEntries(e, ks).Success? <==> forall i :: 0 <= i < |ks| ==> DecodeResources(m[ks[i]]).Success?
    ensures var m := AsObject(e).value;
            var r := DecodeEntries(e, ks);
            r.Success? ==>
              |r.value| == |ks| &&
              forall i :: 0 <= i < |ks| ==> r.value[i] == Embedded(ks[i], DecodeResources(m[ks[i]]).value)
    ensures var m := AsObject(e).value;
            var r := DecodeEntries(e, ks);
            r.Failure? ==> exists i :: 0 <= i < |ks| && DecodeResources(m[ks[i]]) == Failure(r.error)
    decreases |ks|
  {
    if ks != [] {
      var m := AsObject(e).value;
      DecodeEntriesShape(e, ks[1..]);
      var r := DecodeEntries(e, ks);
      var head := DecodeResources(m[ks[0]]);
      if head.Success? {
        var rest := DecodeEntries(e, ks[1..]);
        if rest.Success? {
          assert r.value == [Embedded(ks[0], head.value)] + rest.value;
          forall i | 0 <= i < |ks|
            ensures DecodeResources(m[ks[i]]).Success? && r.value[i] == Embedded(ks[i], DecodeResources(m[ks[i]]).value)
          {
            if i > 0 {
              assert ks[i] == ks[1..][i - 1];
            }
          }
        } else {
          var i :| 0 <= i < |ks[1..]| && DecodeResources(m[ks[1..][i]]) == Failure(rest.error);
          assert ks[1..][i] == ks[i + 1];
        }
      }
    }
  }

  /** Entries whose every relation decodes to the wanted list decode to the wanted entries. */
  lemma DecodedEntriesAre(e: Json, ks: seq<string>, want: seq<Embedded>)
    requires AsObject(e).Success? && forall k :: k in ks ==> k in AsObject(e).value
    requires |want| == |ks|
    requires forall i :: 0 <= i < |ks| ==>
               want[i].rel == ks[i] && DecodeResources(AsObject(e).value[ks[i]]) == Success(want[i].resources)
    ensures DecodeEntries(e, ks) == Success(want)
  {
    DecodeEntriesShape(e, ks);
    var r := DecodeEntries(e, ks);
    assert r.Success?;
    assert r.value == want;
  }

  /** Every relation of a decoded embeds object is there, with its decoded list. */
  lemma DecodeEmbedsShape(e: Json)
    requires DecodeEmbeds(e).Success?
    ensures AsObject(e).Success?
    ensures var m := AsObject(e).value;
            var es := DecodeEmbeds(e).value.entries;
            && Rels(es) == SortedOf(m.Keys)
            && forall i :: 0 <= i < |es| ==>
                 es[i].rel in m && DecodeResources(m[es[i].rel]) == Success(es[i].resources)
  {
    var m := AsObject(e).value;
    DecodeEntriesShape(e, SortedOf(m.Keys));
  }

  /** An embeds value that is not an object (nor null), or a relation that is not a list of resources, is an error. */
  lemma DecodeEmbedsErrors(e: Json, k: string)
    ensures AsObject(e).Failure? ==> DecodeEmbeds(e).Failure?
    ensures AsObject(e).Success? && k in AsObject(e).value && DecodeResources(AsObject(e).value[k]).Failure? ==>
              DecodeEmbeds(e).Failure?
  {
    if AsObject(e).Success? && k in AsObject(e).value && DecodeResources(AsObject(e).value[k]).Failure? {
      var m := AsObject(e).value;
      var ks := SortedOf(m.Keys);
      DecodeEntriesShape(e, ks);
      var i :| 0 <= i < |ks| && ks[i] == k;
    }
  }

  /** A relation list that is neither null nor an array is an error; null is a nil list. */
  lemma DecodeResourcesShape(v: Json)
    ensures v.Null? ==> DecodeResources(v) == Success(Nil)
    ensures !(v.Null? || v.Arr?) ==> DecodeResources(v) == Failure(Malformed)
    ensures v.Arr? && DecodeResources(v).Success? ==>
              var rs := DecodeResources(v).value;
              rs.Slice? && |rs.elems| == |v.items| &&
              forall i :: 0 <= i < |v.items| ==> DecodeResource(v.items[i], AnyT) == Success(rs.elems[i])
  {
  }

  /*
   * The `_links: null` defect.
   */

  /** `{"_links": null, "curies": []}` panics: the curies are stored through a nil pointer. */
  lemma NullLinksWithCuriesPanics()
    ensures LinksStep(map[LINKS := Null, CURIES := Arr([])]) == Failure(Panic)
  {
    var temp := map[LINKS := Null, CURIES := Arr([])];
    assert LINKS != CURIES by {
      assert LINKS[0] != CURIES[0];
    }
    assert DecodeTopCuries(temp[CURIES]) == Success([]) by {
      assert Sequence<CurieValue>([]) == Success([]);
    }
  }

  /**
   * `{"curies": [{"name": true, "name": n}]}` decodes to a curie named
   * `n`: the earlier `name` is gone from the map the object was read into.
   */
  lemma TopCuriesDuplicateResolved(n: string, toT: Json -> Option<Json>)
    ensures DecodeResource(Obj([Member(CURIES, Arr([Obj([Member(NAME, Bool(true)), Member(NAME, Str(n))])]))]), toT)
              == Success(ResourceValue(Some(EmptyLinks.(curies := [ZeroCurie.(name := n)])), Some(EmptyEmbeds), map[]))
  {
    var x := Arr([Obj([Member(NAME, Bool(true)), Member(NAME, Str(n))])]);
    var ms := [Member(CURIES, x)];
    assert ms[..0] == [];
    assert ToMap(ms) == ToMap([])[CURIES := x];
    assert AsObject(Obj(ms)) == Success(map[CURIES := x]);
    RemarshalDropsEarlierDuplicate(n);
    assert CURIES != EMBEDDED && CURIES != LINKS by {
      assert CURIES[0] != EMBEDDED[0] && CURIES[0] != LINKS[0];
    }
    var temp := map[CURIES := x];
    assert temp - {EMBEDDED, LINKS, CURIES} == map[];
    assert EMBEDDED !in temp && LINKS !in temp;
    assert LinksMemberStep(temp) == Success(Some(EmptyLinks));
    assert LinksStep(temp) == Success(Some(EmptyLinks.(curies := [ZeroCurie.(name := n)])));
    assert DecodeData(map[], toT) == Success(map[]);
  }

  /** A null `_links` without a top-level `curies` leaves the resource with nil Links. */
  lemma NullLinksGivesNilLinks(temp: map<string, Json>)
    requires LINKS in temp && temp[LINKS].Null? && CURIES !in temp
    ensures LinksStep(temp) == Success(None)
  {
  }

  /**
   * The links step with the defect corrected: a null `_links` is read as
   * an absent one, so the result is always a container and a top-level
   * `curies` never meets a nil pointer.
   */
  function CorrectedLinksStep(temp: map<string, Json>): (r: Result<LinksValue>)
    ensures r.Failure? ==> r.error == Malformed
  {
    var links :- if LINKS in temp && !temp[LINKS].Null? then DecodeLinksInto(EmptyLinks, temp[LINKS]) else Success(EmptyLinks);
    if CURIES in temp then
      var cs :- DecodeTopCuries(temp[CURIES]);
      Success(links.(curies := cs))
    else Success(links)
  }

  /** Apart from a null `_links`, the written step and the corrected one agree. */
  lemma LinksStepAgrees(temp: map<string, Json>)
    requires !(LINKS in temp && temp[LINKS].Null?)
    ensures LinksStep(temp).Success? <==> CorrectedLinksStep(temp).Success?
    ensures CorrectedLinksStep(temp).Success? ==> LinksStep(temp).value == Some(CorrectedLinksStep(temp).value)
    ensures CorrectedLinksStep(temp).Failure? ==> LinksStep(temp).error == CorrectedLinksStep(temp).error
  {
  }

  /** The corrected step treats a null `_links` as an absent one and never panics. */
  lemma CorrectedLinksStepNullIsAbsent(temp: map<string, Json>)
    ensures CorrectedLinksStep(temp[LINKS := Null]) == CorrectedLinksStep(temp - {LINKS})
    ensures CorrectedLinksStep(temp).Failure? ==> CorrectedLinksStep(temp).error == Malformed
  {
    assert LINKS != CURIES by {
      assert LINKS[0] != CURIES[0];
    }
  }

  /*
   * The containers.
   */

  /** The embeds container of a resource: `Embeds` behind a pointer. */
  class Embeds {
    var relations: map<string, Slice<ResourceValue>>

    /** NewEmbeds. */
    constructor ()
      ensures relations == map[]
    {
      relations := map[];
    }

    function Value(): EmbedsValue
      reads this
    {
      EntriesOf(relations)
    }

    /** Writes each relation once, in map iteration order (any order). */
    method MarshalJSON() returns (j: Json)
      ensures IsEmbedsEncoding(relations, j)
    {
      var buffer: seq<Member> := [];
      var rest := relations.Keys;
      while rest != {}
        invariant rest <= relations.Keys
        invariant DistinctKeys(buffer)
        invariant forall k :: k in relations && k !in rest ==> k in Keys(buffer)
        invariant forall i :: 0 <= i < |buffer| ==>
                    buffer[i].key in relations && buffer[i].key !in rest &&
                    buffer[i].value == EncodeResources(relations[buffer[i].key])
        decreases |rest|
      {
        var key :| key in rest;
        var buffer' := buffer + [Member(key, EncodeResources(relations[key]))];
        assert Keys(buffer') == Keys(buffer) + [key];
        buffer, rest := buffer', rest - {key};
      }
      j := Obj(buffer);
    }

    /**
     * Decodes into a fresh relations map, relation by relation in map
     * iteration order; the first failing relation met is reported.
     */
    method UnmarshalJSON(j: Json) returns (err: Option<Error>)
      modifies this
      ensures err.None? <==> DecodeEmbeds(j).Success?
      ensures err.None? ==> Value() == DecodeEmbeds(j).value
      ensures err.None? ==>
                relations.Keys == AsObject(j).value.Keys &&
                forall k :: k in relations ==> DecodeResources(AsObject(j).value[k]) == Success(relations[k])
      ensures AsObject(j).Failure? ==> err == Some(Malformed) && relations == old(relations)
      ensures AsObject(j).Success? ==>
                relations.Keys <= AsObject(j).value.Keys &&
                forall k :: k in relations ==> DecodeResources(AsObject(j).value[k]) == Success(relations[k])
      ensures err.Some? && AsObject(j).Success? ==>
                exists k :: k in AsObject(j).value && DecodeResources(AsObject(j).value[k]) == Failure(err.value)
    {
      var decoded := AsObject(j);
      if decoded.Failure? {
        return Some(decoded.error);
      }
      var temp := decoded.value;
      relations := map[];
      var rest := temp.Keys;
      while rest != {}
        invariant rest <= temp.Keys
        invariant relations.Keys == temp.Keys - rest
        invariant forall k :: k in relations ==> DecodeResources(temp[k]) == Success(relations[k])
        decreases |rest|
      {
        var rel :| rel in rest;
        var res := DecodeResources(temp[rel]);
        if res.Failure? {
          DecodeEmbedsErrors(j, rel);
          return Some(res.error);
        }
        relations := relations[rel := res.value];
        rest := rest - {rel};
      }
      DecodedEmbedsAre(j, relations);
      err := None;
    }
  }

  /** Decoding every relation of an embeds object gives the embeds value listing them. */
  lemma DecodedEmbedsAre(e: Json, m: map<string, Slice<ResourceValue>>)
    requires AsObject(e).Success? && m.Keys == AsObject(e).value.Keys
    requires forall k :: k in m ==> DecodeResources(AsObject(e).value[k]) == Success(m[k])
    ensures DecodeEmbeds(e) == Success(EntriesOf(m))
  {
    var temp := AsObject(e).value;
    var ks := SortedOf(temp.Keys);
    var want := EntriesOf(m).entries;
    assert Rels(want) == ks;
    assert |want| == |ks|;
    forall i | 0 <= i < |ks|
      ensures want[i].rel == ks[i]
    {
      assert Rels(want)[i] == want[i].rel;
    }
    DecodedEntriesAre(e, ks, want);
  }

  /** `sort.Strings` over the data keys, then one member per key. */
  method MarshalData(data: map<string, Json>) returns (ms: seq<Member>)
    ensures ms == MembersOf(data, SortedOf(data.Keys))
  {
    ms := [];
    var sortedKeys := SortedKeys(data.Keys);
    var i := 0;
    while i < |sortedKeys|
      invariant 0 <= i <= |sortedKeys|
      invariant ms == MembersOf(data, sortedKeys[..i])
    {
      var key := sortedKeys[i];
      assert sortedKeys[..i + 1] == sortedKeys[..i] + [key];
      ms := ms + [Member(key, data[key])];
      i := i + 1;
    }
    assert sortedKeys[..i] == sortedKeys;
  }

  /**
   * The data loop of Resource.UnmarshalJSON: each remaining member is
   * converted to T in map iteration order; the first one T cannot hold
   * ends the loop with what was converted so far.
   */
  method DecodeDataLoop(rest: map<string, Json>, toT: Json -> Option<Json>) returns (data: map<string, Json>, err: Option<Error>)
    ensures err.None? <==> DecodeData(rest, toT).Success?
    ensures err.None? ==> data == DecodeData(rest, toT).value
    ensures err.Some? ==>
              err == Some(TypeMismatch) && data.Keys <= rest.Keys &&
              forall k :: k in data ==> toT(rest[k]) == Some(data[k])
  {
    data := map[];
    var left := rest.Keys;
    while left != {}
      invariant left <= rest.Keys
      invariant data.Keys == rest.Keys - left
      invariant forall k :: k in data ==> toT(rest[k]) == Some(data[k])
      decreases |left|
    {
      var k :| k in left;
      var v := toT(rest[k]);
      if v.None? {
        return data, Some(TypeMismatch);
      }
      data := data[k := v.value];
      left := left - {k};
    }
    SameData(rest, toT, data);
    err := None;
  }

  lemma SameData(rest: map<string, Json>, toT: Json -> Option<Json>, data: map<string, Json>)
    requires data.Keys == rest.Keys
    requires forall k :: k in data ==> toT(rest[k]) == Some(data[k])
    ensures DecodeData(rest, toT) == Success(data)
  {
    var r := DecodeData(rest, toT);
    assert r.Success?;
    assert r.value == data;
  }

  /**
   * A resource: pointers to its links and embeds, and its data.  A nil
   * pointer is null.
   */
  class Resource {
    var links: Links?
    var embeds: Embeds?
    var data: map<string, Json>

    /** NewResource. */
    constructor ()
      ensures fresh(links) && fresh(embeds)
      ensures Value() == EmptyResource
    {
      data := map[];
      links := new Links();
      embeds := new Embeds();
    }

    function Value(): ResourceValue
      reads this, links, embeds
    {
      ResourceValue(
        if links == null then None else Some(links.Value()),
        if embeds == null then None else Some(embeds.Value()),
        data)
    }

    /** Sets the self link to a link with only the href.  Go panics on a nil Links. */
    method Self(uri: string)
      requires links != null
      modifies links
      ensures Value() == old(Value()).(links := Some(old(links.Value()).(self := Some(HrefOnly(uri)))))
    {
      links.self := Some(HrefOnly(uri));
    }

    /** Links.AddLink on the resource's links. */
    method AddLink(rel: string, link: Link) returns (err: Option<Error>)
      requires links != null
      modifies links
      ensures var w := WithLink(old(links.Value()), rel, link);
              && (w.Success? ==> err == None && Value() == old(Value()).(links := Some(w.value)))
              && (w.Failure? ==> err == Some(ErrNoCurie) && Value() == old(Value()))
    {
      err := links.AddLink(rel, link);
    }

    /** Links.AddCurie on the resource's links. */
    method AddCurie(c: Curie) returns (err: Option<Error>)
      requires links != null
      modifies links
      ensures err == None
      ensures Value() == old(Value()).(links := Some(WithCurie(old(links.Value()), old(c.Value()))))
    {
      err := links.AddCurie(c);
    }

    /**
     * Appends a copy of `e` to the relation `rel` of the embeds, creating
     * the relation if absent.  Go panics on a nil Embeds.
     */
    method AddEmbed(rel: string, e: Resource) returns (err: Option<Error>)
      requires embeds != null
      modifies embeds
      ensures err == None
      ensures embeds.relations == WithEmbed(old(embeds.relations), rel, old(e.Value()))
      ensures links == old(links) && data == old(data)
    {
      var snapshot := e.Value();
      embeds.relations := WithEmbed(embeds.relations, rel, snapshot);
      err := None;
    }

    /**
     * `_links` when there is a relation or a self link, `_embedded` when
     * there is an embedded relation, then the data in ascending key order.
     */
    method MarshalJSON() returns (j: Json)
      ensures !ShowsEmbeds(Value()) ==> j == EncodeResource(Value())
      ensures ShowsEmbeds(Value()) ==>
                embeds != null && exists e :: IsEmbedsEncoding(embeds.relations, e) && j == Assemble(Value(), e)
    {
      ghost var v := Value();
      var head: seq<Member> := [];
      if links != null && (|links.relations| > 0 || links.self.Some?) {
        var b := links.MarshalJSON();
        head := [Member(LINKS, b)];
      }
      assert head == LinksPart(v);
      var shows := embeds != null && |embeds.relations| > 0;
      assert shows == ShowsEmbeds(v) by {
        if embeds != null {
          assert |v.embeds.value.entries| == |SortedOf(embeds.relations.Keys)|;
        }
      }
      var e := Null;
      if shows {
        e := embeds.MarshalJSON();
      }
      var dataBuffer := MarshalData(data);
      j := Obj(head + (if shows then [Member(EMBEDDED, e)] else []) + dataBuffer);
      assert j == Assemble(v, e);
    }

    /**
     * Decodes `j` with `toT` as the conversion of data values.  The
     * embeds are stored before the links are decoded, the links before a
     * top-level `curies` is, and the data last, so a later failure leaves
     * the earlier parts replaced.
     */
    method UnmarshalJSON(j: Json, toT: Json -> Option<Json>) returns (err: Option<Error>)
      modifies this
      ensures var r := DecodeResource(j, toT);
              && (err.None? <==> r.Success?)
              && (r.Success? ==> Value() == r.value)
              && (r.Failure? ==> err == Some(r.error) || err == Some(Malformed) || err == Some(Panic))
              && (r.Failure? && !(AsObject(j).Success? && EmbedsStepOf(j).Failure?) ==> err == Some(r.error))
      ensures AsObject(j).Failure? || EmbedsStepOf(j).Failure? ==> unchanged(this)
      ensures AsObject(j).Success? && EmbedsStepOf(j).Success? ==> Value().embeds == EmbedsStepOf(j).value
      ensures AsObject(j).Success? && EmbedsStepOf(j).Success? && LinksMemberStep(AsObject(j).value).Failure? ==>
                links == old(links) && data == old(data)
      ensures AsObject(j).Success? && EmbedsStepOf(j).Success? && LinksMemberStep(AsObject(j).value).Success? ==>
                var temp := AsObject(j).value;
                Value().links == if LinksStep(temp).Success? then LinksStep(temp).value else LinksMemberStep(temp).value
      ensures AsObject(j).Success? && LinksStep(AsObject(j).value).Failure? ==> data == old(data)
      ensures err.Some? && AsObject(j).Success? && EmbedsStepOf(j).Success? && LinksStep(AsObject(j).value).Success? ==>
                var rest := AsObject(j).value - {EMBEDDED, LINKS, CURIES};
                data.Keys <= rest.Keys && forall k :: k in data ==> toT(rest[k]) == Some(data[k])
    {
      var decoded := AsObject(j);
      if decoded.Failure? {
        return Some(decoded.error);
      }
      var temp := decoded.value;
      DecodeResourceSteps(j, toT);
      var embedded, e := UnmarshalEmbedsMember(j);
      if e.Some? {
        return e;
      }
      embeds := embedded;
      var ls;
      ls, e := UnmarshalLinksMember(temp);
      if e.Some? {
        return e;
      }
      links := ls;
      if CURIES in temp {
        var cs := DecodeTopCuries(temp[CURIES]);
        if cs.Failure? {
          return Some(cs.error);
        }
        if links == null {
          return Some(Panic);
        }
        links.curies := cs.value;
      }
      assert Value().links == LinksStep(temp).value;
      var rest := temp - {EMBEDDED, LINKS, CURIES};
      data, err := DecodeDataLoop(rest, toT);
      assert Value() == ResourceValue(LinksStep(temp).value, EmbedsStepOf(j).value, data);
    }
  }

  /** The steps of DecodeResource, one after the other. */
  lemma DecodeResourceSteps(j: Json, toT: Json -> Option<Json>)
    requires AsObject(j).Success?
    ensures var temp := AsObject(j).value;
            var rest := temp - {EMBEDDED, LINKS, CURIES};
            DecodeResource(j, toT) ==
              if EmbedsStepOf(j).Failure? then Failure(EmbedsStepOf(j).error)
              else if LinksStep(temp).Failure? then Failure(LinksStep(temp).error)
              else if DecodeData(rest, toT).Failure? then Failure(DecodeData(rest, toT).error)
              else Success(ResourceValue(LinksStep(temp).value, EmbedsStepOf(j).value, DecodeData(rest, toT).value))
  {
  }

  /**
   * `_embedded` into a fresh NewEmbeds: absent keeps it, null makes the
   * pointer nil, anything else goes to Embeds.UnmarshalJSON.
   */
  method UnmarshalEmbedsMember(j: Json) returns (embedded: Embeds?, err: Option<Error>)
    requires AsObject(j).Success?
    ensures err.None? <==> EmbedsStepOf(j).Success?
    ensures err.Some? ==> err == Some(Malformed) || err == Some(Panic)
    ensures err.Some? && EMBEDDED in AsObject(j).value && AsObject(AsObject(j).value[EMBEDDED]).Failure? ==>
              err == Some(Malformed)
    ensures err.None? ==>
              (embedded == null || fresh(embedded)) &&
              (if embedded == null then None else Some(embedded.Value())) == EmbedsStepOf(j).value
  {
    var temp := AsObject(j).value;
    embedded := new Embeds();
    assert embedded.Value() == EmptyEmbeds;
    err := None;
    if EMBEDDED in temp {
      if temp[EMBEDDED].Null? {
        embedded := null;
      } else {
        err := embedded.UnmarshalJSON(temp[EMBEDDED]);
      }
    }
  }

  /**
   * `_links` into a fresh NewLinks: absent keeps it, null makes the
   * pointer nil, anything else goes to Links.UnmarshalJSON.
   */
  method UnmarshalLinksMember(temp: map<string, Json>) returns (ls: Links?, err: Option<Error>)
    ensures ls != null ==> fresh(ls)
    ensures err.None? <==> LinksMemberStep(temp).Success?
    ensures err.Some? ==> err == Some(LinksMemberStep(temp).error)
    ensures err.None? ==> (if ls == null then None else Some(ls.Value())) == LinksMemberStep(temp).value
  {
    ls := new Links();
    err := None;
    if LINKS in temp {
      if temp[LINKS].Null? {
        ls := null;
      } else {
        err := ls.UnmarshalJSON(temp[LINKS]);
      }
    }
  }
}
