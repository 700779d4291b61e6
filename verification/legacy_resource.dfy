/**
 * The resource of the original (root package) codec: a links container,
 * an embeds container mapping relation types to lists of nested
 * resources, and every other member kept as raw JSON data.  Unlike the v3
 * codec it tests `_embedded`, `_links` and `curies` with `!= nil`, so a
 * null member counts as absent.
 */
module LegacyResource {
  import opened Json
  import opened Hal
  import opened Curies
  import opened LegacyLinks
  import Resource3

  /** The value of a Resource.  A nil Links or Embeds pointer is None. */
  datatype ResourceValue = ResourceValue(
    links: Option<LinksValue>,
    embeds: Option<EmbedsValue>,
    data: map<string, Json>)

  /** The value of an Embeds: its relations in ascending relation type order (see EntriesOf). */
  datatype EmbedsValue = EmbedsValue(entries: seq<Embedded>)

  datatype Embedded = Embedded(rel: string, resources: Slice<ResourceValue>)

  /** NewEmbeds. */
  const EmptyEmbeds := EmbedsValue([])

  /** NewResource: empty data, NewLinks, NewEmbeds. */
  const EmptyResource := ResourceValue(Some(EmptyLinks), Some(EmptyEmbeds), map[])

  function Rels(es: seq<Embedded>): (ks: seq<string>)
    ensures |ks| == |es|
    ensures forall i :: 0 <= i < |es| ==> ks[i] == es[i].rel
  {
    seq(|es|, i requires 0 <= i < |es| => es[i].rel)
  }

  /*
   * Encoding.
   */

  /** `_links` is written only when there is a relation or a self link; curies alone are not. */
  predicate ShowsLinks(r: ResourceValue) {
    r.links.Some? && (|r.links.value.relations| > 0 || r.links.value.self.Some?)
  }

  /** `_embedded` is written only when there is an embedded relation. */
  predicate ShowsEmbeds(r: ResourceValue) {
    r.embeds.Some? && |r.embeds.value.entries| > 0
  }

  function LinksPart(r: ResourceValue): seq<Member> {
    if ShowsLinks(r) then [Member(LINKS, EncodeLinks(r.links.value))] else []
  }

  /**
   * The members of a resource's encoding with `e` as the `_embedded`
   * value: `_links`, then `_embedded`, then the data keys in ascending
   * order, each value written as it is held.
   */
  function Assemble(r: ResourceValue, e: Json): (j: Json)
    ensures j.Obj?
  {
    Obj(LinksPart(r)
        + (if ShowsEmbeds(r) then [Member(EMBEDDED, e)] else [])
        + MembersOf(r.data, SortedOf(r.data.Keys)))
  }

  /**
   * Resource.MarshalJSON, with the keys of every embeds object written in
   * ascending order (one of the orders Go's map iteration can produce;
   * see IsEmbedsEncoding for all of them).
   */
  function EncodeResource(r: ResourceValue): (j: Json)
    ensures j.Obj?
    decreases r, 2
  {
    Assemble(r, if ShowsEmbeds(r) then EncodeEmbeds(r.embeds.value) else Null)
  }

  /** Embeds.MarshalJSON: one member per relation type, each the list of its resources. */
  function EncodeEmbeds(ev: EmbedsValue): (j: Json)
    ensures j.Obj? && |j.members| == |ev.entries|
    decreases ev, 1
  {
    var es := ev.entries;
    Obj(seq(|es|, i requires 0 <= i < |es| => Member(es[i].rel, EncodeResources(es[i].resources))))
  }

  /** `json.Marshal` of a `[]Resource`: a nil slice is null. */
  function EncodeResources(rs: Slice<ResourceValue>): (j: Json)
    decreases rs, 0
  {
    match rs
    case Nil => Null
    case Slice(s) => Arr(seq(|s|, i requires 0 <= i < |s| => EncodeResource(s[i])))
  }

  /**
   * The layout of an encoded resource: `_links` if written, `_embedded`
   * if written, then every data key once, in strictly ascending order.
   */
  lemma ResourceLayout(r: ResourceValue)
    ensures Keys(EncodeResource(r).members) ==
              (if ShowsLinks(r) then [LINKS] else []) + (if ShowsEmbeds(r) then [EMBEDDED] else []) + SortedOf(r.data.Keys)
    ensures StrictlySorted(SortedOf(r.data.Keys))
  {
    SortedOfAscending(r.data.Keys);
    var e := if ShowsEmbeds(r) then EncodeEmbeds(r.embeds.value) else Null;
    var l := LinksPart(r);
    var m := if ShowsEmbeds(r) then [Member(EMBEDDED, e)] else [];
    var ks := SortedOf(r.data.Keys);
    var ds := MembersOf(r.data, ks);
    assert EncodeResource(r).members == l + m + ds;
    Resource3.KeysAppend(l + m, ds);
    Resource3.KeysAppend(l, m);
    assert Keys(ds) == ks;
    assert Keys(l) == if ShowsLinks(r) then [LINKS] else [];
    assert Keys(m) == if ShowsEmbeds(r) then [EMBEDDED] else [];
  }

  /** A resource with nothing to write encodes to `{}`, even when its links hold curies. */
  lemma EmptyResourceEncoding(r: ResourceValue)
    requires !ShowsLinks(r) && !ShowsEmbeds(r) && r.data == map[]
    ensures EncodeResource(r) == Obj([])
  {
    assert SortedOf(r.data.Keys) == [];
  }

  /** Curies without a relation or a self link are not written. */
  lemma CuriesAloneNotWritten(c: CurieValue)
    ensures EncodeResource(EmptyResource.(links := Some(WithCurie(EmptyLinks, c)))) == Obj([])
  {
    EmptyResourceEncoding(EmptyResource.(links := Some(WithCurie(EmptyLinks, c))));
  }

  /** The embeds map listed by relation type in ascending order. */
  function EntriesOf(m: map<string, Slice<ResourceValue>>): (ev: EmbedsValue)
    ensures Rels(ev.entries) == SortedOf(m.Keys)
    ensures forall i :: 0 <= i < |ev.entries| ==> ev.entries[i].rel in m && ev.entries[i].resources == m[ev.entries[i].rel]
  {
    var ks := SortedOf(m.Keys);
    EmbedsValue(seq(|ks|, i requires 0 <= i < |ks| => Embedded(ks[i], m[ks[i]])))
  }

  /**
   * What Embeds.MarshalJSON may write for the relations `m`: each
   * relation once, as the list of its resources, in any order.
   */
  ghost predicate IsEmbedsEncoding(m: map<string, Slice<ResourceValue>>, j: Json) {
    && j.Obj?
    && DistinctKeys(j.members)
    && (forall k :: k in m <==> k in Keys(j.members))
    && (forall i :: 0 <= i < |j.members| ==>
          j.members[i].key in m && j.members[i].value == EncodeResources(m[j.members[i].key]))
  }

  /**
   * AddEmbed on the relations map: the resource goes at the end of the
   * relation's list, which is created (empty, not nil) if absent.
   */
  function WithEmbed(m: map<string, Slice<ResourceValue>>, rel: string, e: ResourceValue): (m': map<string, Slice<ResourceValue>>)
    ensures m'.Keys == m.Keys + {rel}
    ensures m'[rel].Slice? && m'[rel].elems == (if rel in m then m[rel].Elems() else []) + [e]
    ensures forall k :: k in m && k != rel ==> m'[k] == m[k]
  {
    m[rel := Slice((if rel in m then m[rel].Elems() else []) + [e])]
  }

  /*
   * Decoding.
   */

  /** A member that is present and not null; `temp[key] != nil` in the source. */
  predicate Given(temp: map<string, Json>, key: string) {
    key in temp && !temp[key].Null?
  }

  /**
   * Resource.UnmarshalJSON: embeds first, then links and a top-level
   * `curies`, then every other member as data, unconverted.
   */
  function DecodeResource(j: Json): (r: Result<ResourceValue>)
    ensures r.Failure? ==> r.error == Malformed || r.error == Panic
    decreases Size(j), 3, 0
  {
    var temp :- AsObject(j);
    var embeds :- if Given(temp, EMBEDDED) then (ValueSmaller(j, EMBEDDED); DecodeEmbeds(temp[EMBEDDED])) else Success(EmptyEmbeds);
    var links :- LinksStep(temp);
    Success(ResourceValue(Some(links), Some(embeds), temp - {EMBEDDED, LINKS, CURIES}))
  }

  /** Embeds.UnmarshalJSON: an object (or null) whose every member is a list of resources. */
  function DecodeEmbeds(e: Json): (r: Result<EmbedsValue>)
    ensures r.Failure? ==> r.error == Malformed || r.error == Panic
    decreases Size(e), 1, 0
  {
    var temp :- AsObject(e);
    var es :- DecodeEntries(e, SortedOf(temp.Keys));
    Success(EmbedsValue(es))
  }

  /** The relations `ks` of an embeds object, decoded in that order. */
  function DecodeEntries(e: Json, ks: seq<string>): (r: Result<seq<Embedded>>)
    requires AsObject(e).Success? && forall k :: k in ks ==> k in AsObject(e).value
    ensures r.Failure? ==> r.error == Malformed || r.error == Panic
    decreases Size(e), 0, |ks|
  {
    if ks == [] then Success([])
    else
      ValueSmaller(e, ks[0]);
      var rs :- DecodeResources(AsObject(e).value[ks[0]]);
      var rest :- DecodeEntries(e, ks[1..]);
      Success([Embedded(ks[0], rs)] + rest)
  }

  /**
   * `json.Unmarshal` into a `[]Resource`: null is nil, an array decodes
   * item by item (a null item reaches Resource.UnmarshalJSON as null and
   * gives an empty resource), anything else is an error.
   */
  function DecodeResources(v: Json): (r: Result<Slice<ResourceValue>>)
    ensures r.Failure? ==> r.error == Malformed || r.error == Panic
    decreases Size(v), 2, 0
  {
    match v
    case Null => Success(Nil)
    case Arr(items) =>
      var rs :- Sequence(seq(|items|, i requires 0 <= i < |items| =>
                           (ItemSmaller(items, i); DecodeResource(items[i]))));
      Success(Slice(rs))
    case _ => Failure(Malformed)
  }

  /**
   * `_links` and a top-level `curies`: a given `_links` is decoded into
   * NewLinks, a given `curies` is decoded as a `*[]Curie` after its round
   * through `map[string]any` (`DecodeTopCuries`, with encoding/json's
   * checks, so a wrong shape is an error, not a panic) and replaces the
   * curie pointer, even when it is `[]`.
   */
  function LinksStep(temp: map<string, Json>): (r: Result<LinksValue>)
    ensures r.Failure? ==> r.error == Malformed || r.error == Panic
    ensures r.Success? && Given(temp, CURIES) ==>
              DecodeTopCuries(temp[CURIES]).Success? &&
              r.value.curies == Some(Slice(DecodeTopCuries(temp[CURIES]).value))
    ensures r.Success? && !Given(temp, CURIES) && !Given(temp, LINKS) ==> r.value == EmptyLinks
  {
    var links :- LinksMemberStep(temp);
    if Given(temp, CURIES) then
      var cs :- DecodeTopCuries(temp[CURIES]);
      Success(links.(curies := Some(Slice(cs))))
    else Success(links)
  }

  /** `_links` alone: decoded into NewLinks when given. */
  function LinksMemberStep(temp: map<string, Json>): Result<LinksValue> {
    if Given(temp, LINKS) then DecodeLinksInto(EmptyLinks, temp[LINKS]) else Success(EmptyLinks)
  }

  /** The embeds step of a decode, from the whole object. */
  function EmbedsStepOf(j: Json): Result<EmbedsValue>
    requires AsObject(j).Success?
  {
    var temp := AsObject(j).value;
    if Given(temp, EMBEDDED) then (ValueSmaller(j, EMBEDDED); DecodeEmbeds(temp[EMBEDDED])) else Success(EmptyEmbeds)
  }

  /*
   * Properties of decoding.
   */

  /** The steps of DecodeResource, one after the other. */
  lemma DecodeResourceSteps(j: Json)
    requires AsObject(j).Success?
    ensures var temp := AsObject(j).value;
            DecodeResource(j) ==
              if EmbedsStepOf(j).Failure? then Failure(EmbedsStepOf(j).error)
              else if LinksStep(temp).Failure? then Failure(LinksStep(temp).error)
              else Success(ResourceValue(Some(LinksStep(temp).value), Some(EmbedsStepOf(j).value), temp - {EMBEDDED, LINKS, CURIES}))
  {
  }

  /**
   * What a successful decode holds: both containers, and every member
   * but the three reserved ones as data, unchanged.
   */
  lemma DecodeResourceShape(j: Json)
    ensures AsObject(j).Failure? ==> DecodeResource(j) == Failure(Malformed)
    ensures DecodeResource(j).Success? ==>
              (AsObject(j).Success? &&
               var temp := AsObject(j).value;
               var r := DecodeResource(j).value;
               && r.links.Some? && r.embeds.Some?
               && r.data == temp - {EMBEDDED, LINKS, CURIES}
               && (!Given(temp, EMBEDDED) ==> r.embeds == Some(EmptyEmbeds))
               && (!Given(temp, LINKS) && !Given(temp, CURIES) ==> r.links == Some(EmptyLinks)))
    ensures AsObject(j).Success? ==>
              (DecodeResource(j).Success? <==> EmbedsStepOf(j).Success? && LinksStep(AsObject(j).value).Success?)
  {
    if AsObject(j).Success? {
      DecodeResourceSteps(j);
    }
  }

  /** A null `_links` or `curies` is the same as an absent one. */
  lemma NullLinksMembersAreAbsent(temp: map<string, Json>)
    ensures LinksStep(temp[LINKS := Null]) == LinksStep(temp - {LINKS})
    ensures LinksStep(temp[CURIES := Null]) == LinksStep(temp - {CURIES})
  {
    assert LINKS != CURIES by {
      assert LINKS[0] != CURIES[0];
    }
  }

  /** A null `_embedded` is the same as an absent one. */
  lemma NullEmbeddedIsAbsent(j: Json, j': Json)
    requires AsObject(j).Success? && AsObject(j').Success?
    requires AsObject(j).value == AsObject(j').value[EMBEDDED := Null]
    ensures EmbedsStepOf(j) == Success(EmptyEmbeds)
  {
  }

  /**
   * `{"_links": null, "curies": []}` decodes: the links are NewLinks with
   * an allocated empty curie list (the v3 codec panics on it).
   */
  lemma NullLinksWithCuriesDecodes()
    ensures LinksStep(map[LINKS := Null, CURIES := Arr([])]) == Success(EmptyLinks.(curies := Some(Slice([]))))
  {
    var temp := map[LINKS := Null, CURIES := Arr([])];
    assert LINKS != CURIES by {
      assert LINKS[0] != CURIES[0];
    }
    assert DecodeTopCuries(temp[CURIES]) == Success([]) by {
      assert Sequence<CurieValue>([]) == Success([]);
    }
  }

  /**
   * `{"curies": [{"name": true, "name": n}]}` decodes to a curie named
   * `n`: the earlier `name` is gone from the map the object was read into.
   */
  lemma TopCuriesDuplicateResolved(n: string)
    ensures DecodeResource(Obj([Member(CURIES, Arr([Obj([Member(NAME, Bool(true)), Member(NAME, Str(n))])]))]))
              == Success(ResourceValue(Some(EmptyLinks.(curies := Some(Slice([ZeroCurie.(name := n)])))), Some(EmptyEmbeds), map[]))
  {
    var x := Arr([Obj([Member(NAME, Bool(true)), Member(NAME, Str(n))])]);
    var ms := [Member(CURIES, x)];
    assert ms[..0] == [];
    assert ToMap(ms) == ToMap([])[CURIES := x];
    assert AsObject(Obj(ms)) == Success(map[CURIES := x]);
    RemarshalDropsEarlierDuplicate(n);
    assert CURIES != EMBEDDED && CURIES != LINKS by {
      assert CURIES[0] != EMBEDDED[0] && CURIES[0] != LINKS[0];
    }
    var temp := map[CURIES := x];
    assert temp - {EMBEDDED, LINKS, CURIES} == map[];
    assert !Given(temp, EMBEDDED) && !Given(temp, LINKS) && Given(temp, CURIES);
    assert LinksMemberStep(temp) == Success(EmptyLinks);
    assert LinksStep(temp) == Success(EmptyLinks.(curies := Some(Slice([ZeroCurie.(name := n)]))));
  }

  /** A `curies` that is not an array is an error at the top level but a panic inside `_links`. */
  lemma CuriesShapeErrors(v: Json)
    requires !(v.Arr? || v.Null?)
    ensures LinksStep(map[CURIES := v]) == Failure(Malformed)
    ensures LinksStep(map[LINKS := Obj([Member(CURIES, v)])]) == Failure(Panic)
  {
    assert LINKS != CURIES by {
      assert LINKS[0] != CURIES[0];
    }
    var links := Obj([Member(CURIES, v)]);
    assert ToMap(links.members) == map[CURIES := v] by {
      assert links.members[..0] == [];
    }
  }

  /**
   * The relations of an embeds object are decoded in the order `ks`; the
   * first failing one decides the error.
   */
  lemma {:induction false} DecodeEntriesShape(e: Json, ks: seq<string>)
    requires AsObject(e).Success? && forall k :: k in ks ==> k in AsObject(e).value
    ensures var m := AsObject(e).value;
            DecodeEntries(e, ks).Success? <==> forall i :: 0 <= i < |ks| ==> DecodeResources(m[ks[i]]).Success?
    ensures var m := AsObject(e).value;
            var r := DecodeEntries(e, ks);
            r.Success? ==>
              |r.value| == |ks| &&
              forall i :: 0 <= i < |ks| ==> r.value[i] == Embedded(ks[i], DecodeResources(m[ks[i]]).value)
    ensures var m := AsObject(e).value;
            var r := DecodeEntries(e, ks);
            r.Failure? ==> exists i :: 0 <= i < |ks| && DecodeResources(m[ks[i]]) == Failure(r.error)
    decreases |ks|
  {
    if ks != [] {
      var m := AsObject(e).value;
      DecodeEntriesShape(e, ks[1..]);
      var r := DecodeEntries(e, ks);
      var head := DecodeResources(m[ks[0]]);
      if head.Success? {
        var rest := DecodeEntries(e, ks[1..]);
        if rest.Success? {
          assert r.value == [Embedded(ks[0], head.value)] + rest.value;
          forall i | 0 <= i < |ks|
            ensures DecodeResources(m[ks[i]]).Success? && r.value[i] == Embedded(ks[i], DecodeResources(m[ks[i]]).value)
          {
            if i > 0 {
              assert ks[i] == ks[1..][i - 1];
            }
          }
        } else {
          var i :| 0 <= i < |ks[1..]| && DecodeResources(m[ks[1..][i]]) == Failure(rest.error);
          assert ks[1..][i] == ks[i + 1];
        }
      }
    }
  }

  /** Entries whose every relation decodes to the wanted list decode to the wanted entries. */
  lemma DecodedEntriesAre(e: Json, ks: seq<string>, want: seq<Embedded>)
    requires AsObject(e).Success? && forall k :: k in ks ==> k in AsObject(e).value
    requires |want| == |ks|
    requires forall i :: 0 <= i < |ks| ==>
               want[i].rel == ks[i] && DecodeResources(AsObject(e).value[ks[i]]) == Success(want[i].resources)
    ensures DecodeEntries(e, ks) == Success(want)
  {
    DecodeEntriesShape(e, ks);
    var r := DecodeEntries(e, ks);
    assert r.Success?;
    assert r.value == want;
  }

  /** An embeds value that is not an object (nor null), or a relation that is not a list of resources, is an error. */
  lemma DecodeEmbedsErrors(e: Json, k: string)
    ensures AsObject(e).Failure? ==> DecodeEmbeds(e) == Failure(Malformed)
    ensures AsObject(e).Success? && k in AsObject(e).value && DecodeResources(AsObject(e).value[k]).Failure? ==>
              DecodeEmbeds(e).Failure?
  {
    if AsObject(e).Success? && k in AsObject(e).value && DecodeResources(AsObject(e).value[k]).Failure? {
      var m := AsObject(e).value;
      var ks := SortedOf(m.Keys);
      DecodeEntriesShape(e, ks);
      var i :| 0 <= i < |ks| && ks[i] == k;
    }
  }

  /** A relation list that is neither null nor an array is an error; null is a nil list. */
  lemma DecodeResourcesShape(v: Json)
    ensures v.Null? ==> DecodeResources(v) == Success(Nil)
    ensures !(v.Null? || v.Arr?) ==> DecodeResources(v) == Failure(Malformed)
    ensures v.Arr? && DecodeResources(v).Success? ==>
              var rs := DecodeResources(v).value;
              rs.Slice? && |rs.elems| == |v.items| &&
              forall i :: 0 <= i < |v.items| ==> DecodeResource(v.items[i]) == Success(rs.elems[i])
  {
  }

  /** A null item of a relation list is an empty resource. */
  lemma NullItemIsEmptyResource()
    ensures DecodeResource(Null) == Success(EmptyResource)
  {
    var empty: map<string, Json> := map[];
    assert !Given(empty, EMBEDDED);
    assert empty - {EMBEDDED, LINKS, CURIES} == empty;
  }

  /*
   * The containers.
   */

  /** The embeds container of a resource: `Embeds` behind a pointer. */
  class Embeds {
    var relations: map<string, Slice<ResourceValue>>

    /** NewEmbeds. */
    constructor ()
      ensures relations == map[]
    {
      relations := map[];
    }

    function Value(): EmbedsValue
      reads this
    {
      EntriesOf(relations)
    }

    /** Writes each relation once, in map iteration order (any order). */
    method MarshalJSON() returns (j: Json)
      ensures IsEmbedsEncoding(relations, j)
    {
      var buffer: seq<Member> := [];
      var rest := relations.Keys;
      while rest != {}
        invariant rest <= relations.Keys
        invariant DistinctKeys(buffer)
        invariant forall k :: k in relations && k !in rest ==> k in Keys(buffer)
        invariant forall i :: 0 <= i < |buffer| ==>
                    buffer[i].key in relations && buffer[i].key !in rest &&
                    buffer[i].value == EncodeResources(relations[buffer[i].key])
        decreases |rest|
      {
        var key :| key in rest;
        var buffer' := buffer + [Member(key, EncodeResources(relations[key]))];
        assert Keys(buffer') == Keys(buffer) + [key];
        buffer, rest := buffer', rest - {key};
      }
      j := Obj(buffer);
    }

    /**
     * Decodes into a fresh relations map, relation by relation in map
     * iteration order; the first failing relation met is reported.
     */
    method UnmarshalJSON(j: Json) returns (err: Option<Error>)
      modifies this
      ensures err.None? <==> DecodeEmbeds(j).Success?
      ensures err.None? ==> Value() == DecodeEmbeds(j).value
      ensures err.None? ==>
                relations.Keys == AsObject(j).value.Keys &&
                forall k :: k in relations ==> DecodeResources(AsObject(j).value[k]) == Success(relations[k])
      ensures AsObject(j).Failure? ==> err == Some(Malformed) && relations == old(relations)
      ensures AsObject(j).Success? ==>
                relations.Keys <= AsObject(j).value.Keys &&
                forall k :: k in relations ==> DecodeResources(AsObject(j).value[k]) == Success(relations[k])
      ensures err.Some? ==> err.value == Malformed || err.value == Panic
      ensures err.Some? && AsObject(j).Success? ==>
                exists k :: k in AsObject(j).value && DecodeResources(AsObject(j).value[k]) == Failure(err.value)
    {
      var decoded := AsObject(j);
      if decoded.Failure? {
        return Some(decoded.error);
      }
      var temp := decoded.value;
      relations := map[];
      var rest := temp.Keys;
      while rest != {}
        invariant rest <= temp.Keys
        invariant relations.Keys == temp.Keys - rest
        invariant forall k :: k in relations ==> DecodeResources(temp[k]) == Success(relations[k])
        decreases |rest|
      {
        var rel :| rel in rest;
        var res := DecodeResources(temp[rel]);
        if res.Failure? {
          DecodeEmbedsErrors(j, rel);
          return Some(res.error);
        }
        relations := relations[rel := res.value];
        rest := rest - {rel};
      }
      DecodedEmbedsAre(j, relations);
      err := None;
    }
  }

  /** Decoding every relation of an embeds object gives the embeds value listing them. */
  lemma DecodedEmbedsAre(e: Json, m: map<string, Slice<ResourceValue>>)
    requires AsObject(e).Success? && m.Keys == AsObject(e).value.Keys
    requires forall k :: k in m ==> DecodeResources(AsObject(e).value[k]) == Success(m[k])
    ensures DecodeEmbeds(e) == Success(EntriesOf(m))
  {
    var temp := AsObject(e).value;
    var ks := SortedOf(temp.Keys);
    var want := EntriesOf(m).entries;
    assert Rels(want) == ks;
    assert |want| == |ks|;
    forall i | 0 <= i < |ks|
      ensures want[i].rel == ks[i]
    {
      assert Rels(want)[i] == want[i].rel;
    }
    DecodedEntriesAre(e, ks, want);
  }

  /**
   * A resource: pointers to its links and embeds, and its data.  A nil
   * pointer is None in its value.
   */
  class Resource {
    var links: Links?
    var embeds: Embeds?
    var data: map<string, Json>

    /** NewResource. */
    constructor ()
      ensures fresh(links) && fresh(embeds)
      ensures Value() == EmptyResource
    {
      data := map[];
      links := new Links();
      embeds := new Embeds();
    }

    function Value(): ResourceValue
      reads this, links, embeds
    {
      ResourceValue(
        if links == null then None else Some(links.Value()),
        if embeds == null then None else Some(embeds.Value()),
        data)
    }

    /** Sets the self link to a link with only the href.  Go panics on a nil Links. */
    method Self(uri: string)
      requires links != null
      modifies links
      ensures Value() == old(Value()).(links := Some(old(links.Value()).(self := Some(HrefOnly(uri)))))
    {
      links.self := Some(HrefOnly(uri));
    }

    /** Links.AddLink on the resource's links. */
    method AddLink(rel: string, link: Link) returns (err: Option<Error>)
      requires links != null
      modifies links
      ensures var w := WithLink(old(links.Value()), rel, link);
              && (w.Success? ==> err == None && Value() == old(Value()).(links := Some(w.value)))
              && (w.Failure? ==> err == Some(ErrNoCurie) && Value() == old(Value()))
    {
      err := links.AddLink(rel, link);
    }

    /** Links.AddCurie on the resource's links. */
    method AddCurie(c: Curie) returns (err: Option<Error>)
      requires links != null
      modifies links
      ensures err == None
      ensures Value() == old(Value()).(links := Some(WithCurie(old(links.Value()), old(c.Value()))))
    {
      err := links.AddCurie(c);
    }

    /**
     * Appends a copy of `e` to the relation `rel` of the embeds, creating
     * the relation if absent.  Go panics on a nil Embeds.
     */
    method AddEmbed(rel: string, e: Resource) returns (err: Option<Error>)
      requires embeds != null
      modifies embeds
      ensures err == None
      ensures embeds.relations == WithEmbed(old(embeds.relations), rel, old(e.Value()))
      ensures links == old(links) && data == old(data)
    {
      var snapshot := e.Value();
      embeds.relations := WithEmbed(embeds.relations, rel, snapshot);
      err := None;
    }

    /**
     * `_links` when there is a relation or a self link, `_embedded` when
     * there is an embedded relation, then the data in ascending key order.
     */
    method MarshalJSON() returns (j: Json)
      ensures !ShowsEmbeds(Value()) ==> j == EncodeResource(Value())
      ensures ShowsEmbeds(Value()) ==>
                embeds != null && exists e :: IsEmbedsEncoding(embeds.relations, e) && j == Assemble(Value(), e)
    {
      ghost var v := Value();
      var head: seq<Member> := [];
      if links != null && (|links.relations| > 0 || links.self.Some?) {
        var b := links.MarshalJSON();
        head := [Member(LINKS, b)];
      }
      assert head == LinksPart(v);
      var shows := embeds != null && |embeds.relations| > 0;
      assert shows == ShowsEmbeds(v) by {
        if embeds != null {
          assert |v.embeds.value.entries| == |SortedOf(embeds.relations.Keys)|;
        }
      }
      var e := Null;
      if shows {
        e := embeds.MarshalJSON();
      }
      var dataBuffer := Resource3.MarshalData(data);
      j := Obj(head + (if shows then [Member(EMBEDDED, e)] else []) + dataBuffer);
      assert j == Assemble(v, e);
    }

    /**
     * Decodes `j`.  The embeds are stored before the links are decoded,
     * and the links before a top-level `curies` is, so a later failure
     * leaves the earlier parts replaced; the data is stored last.
     */
    method UnmarshalJSON(j: Json) returns (err: Option<Error>)
      modifies this
      ensures var r := DecodeResource(j);
              && (err.None? <==> r.Success?)
              && (r.Success? ==> Value() == r.value)
              && (r.Failure? ==> err == Some(Malformed) || err == Some(Panic))
              && (r.Failure? && !(AsObject(j).Success? && EmbedsStepOf(j).Failure?) ==> err == Some(r.error))
      ensures AsObject(j).Failure? || EmbedsStepOf(j).Failure? ==> unchanged(this)
      ensures AsObject(j).Success? && EmbedsStepOf(j).Success? ==>
                embeds != null && embeds.Value() == EmbedsStepOf(j).value
      ensures AsObject(j).Success? && EmbedsStepOf(j).Success? && LinksMemberStep(AsObject(j).value).Failure? ==>
                links == old(links) && data == old(data)
      ensures AsObject(j).Success? && EmbedsStepOf(j).Success? && LinksMemberStep(AsObject(j).value).Success? ==>
                var temp := AsObject(j).value;
                Value().links == Some(if LinksStep(temp).Success? then LinksStep(temp).value else LinksMemberStep(temp).value)
      ensures err.Some? ==> data == old(data)
    {
      var decoded := AsObject(j);
      if decoded.Failure? {
        return Some(decoded.error);
      }
      var temp := decoded.value;
      DecodeResourceSteps(j);
      var embedded, e := UnmarshalEmbedsMember(j);
      if e.Some? {
        return e;
      }
      embeds := embedded;
      var ls;
      ls, e := UnmarshalLinksMember(temp);
      if e.Some? {
        return e;
      }
      links := ls;
      if Given(temp, CURIES) {
        var cs := DecodeTopCuries(temp[CURIES]);
        if cs.Failure? {
          return Some(cs.error);
        }
        links.curies := Some(Slice(cs.value));
      }
      data := temp - {EMBEDDED, LINKS, CURIES};
      err := None;
      assert Value() == ResourceValue(Some(LinksStep(temp).value), Some(EmbedsStepOf(j).value), data);
    }
  }

  /** `_embedded` into a fresh NewEmbeds when given. */
  method UnmarshalEmbedsMember(j: Json) returns (embedded: Embeds, err: Option<Error>)
    requires AsObject(j).Success?
    ensures fresh(embedded)
    ensures err.None? <==> EmbedsStepOf(j).Success?
    ensures err.Some? ==> err == Some(Malformed) || err == Some(Panic)
    ensures err.None? ==> embedded.Value() == EmbedsStepOf(j).value
  {
    var temp := AsObject(j).value;
    embedded := new Embeds();
    assert embedded.Value() == EmptyEmbeds;
    err := None;
    if Given(temp, EMBEDDED) {
      err := embedded.UnmarshalJSON(temp[EMBEDDED]);
    }
  }

  /** `_links` into a fresh NewLinks when given. */
  method UnmarshalLinksMember(temp: map<string, Json>) returns (ls: Links, err: Option<Error>)
    ensures fresh(ls)
    ensures err.None? <==> LinksMemberStep(temp).Success?
    ensures err.Some? ==> err == Some(LinksMemberStep(temp).error)
    ensures err.None? ==> ls.Value() == LinksMemberStep(temp).value
  {
    ls := new Links();
    err := None;
    if Given(temp, LINKS) {
      err := ls.UnmarshalJSON(temp[LINKS]);
    }
  }
}
