/**
 * Encoding a root-package resource and decoding the result.  What comes
 * back is the resource as the wire can carry it (Reread): self links keep
 * only their href, links that are not written (curies without any
 * relation or self link) are lost, missing containers come back empty,
 * and nested resources are reread the same way.
 *
 * The embeds-order lemmas (CanonicalEmbedsEncoding, EmbedsEncodingMap,
 * DecodeEmbedsByObject, EmbedsEncodingsDecodeAlike, SameOutsideEmbedded,
 * LinksStepIgnoresEmbedded) have namesakes in Resource3RoundTrip: they are stated
 * over this codec's own links, resource values and encoders, which differ
 * from the other codec's, so each module proves its own.
 */
module LegacyRoundTrip {
  import opened Json
  import opened Hal
  import opened LegacyLinks
  import opened LegacyResource
  import Resource3
  import Resource3RoundTrip

  /** The resource that decoding the encoding of `r` gives. */
  function Reread(r: ResourceValue): (r': ResourceValue)
    ensures r'.data == r.data && r'.links.Some? && r'.embeds.Some?
    ensures !ShowsLinks(r) ==> r'.links == Some(EmptyLinks)
    ensures !ShowsEmbeds(r) ==> r'.embeds == Some(EmptyEmbeds)
    decreases r, 2
  {
    ResourceValue(
      Some(if ShowsLinks(r) then ReadSelf(r.links.value) else EmptyLinks),
      Some(if ShowsEmbeds(r) then RereadEmbeds(r.embeds.value) else EmptyEmbeds),
      r.data)
  }

  function RereadEmbeds(ev: EmbedsValue): (ev': EmbedsValue)
    ensures Rels(ev'.entries) == Rels(ev.entries)
    decreases ev, 1
  {
    var es := ev.entries;
    EmbedsValue(seq(|es|, i requires 0 <= i < |es| => Embedded(es[i].rel, RereadResources(es[i].resources))))
  }

  function RereadResources(rs: Slice<ResourceValue>): (rs': Slice<ResourceValue>)
    ensures rs'.Nil? <==> rs.Nil?
    ensures |rs'.Elems()| == |rs.Elems()|
    decreases rs, 0
  {
    match rs
    case Nil => Nil
    case Slice(s) => Slice(seq(|s|, i requires 0 <= i < |s| => Reread(s[i])))
  }

  /** Written links that read back: see LegacyLinks.LinksRoundTrip. */
  predicate LinksWireSafe(v: LinksValue) {
    && SELF !in v.relations && CURIES !in v.relations
    && (forall k :: k in v.relations ==> v.relations[k] != [])
    && (v.curies.Some? ==> v.curies.value.Slice? && v.curies.value.elems != [])
  }

  /**
   * A resource whose encoding decodes without loss of structure: written
   * links are wire-safe, data keys are not reserved, written embeds list
   * their relations in ascending order (as EntriesOf does), and nested
   * resources are wire-safe.
   */
  ghost predicate WireSafe(r: ResourceValue)
    decreases r, 2
  {
    && (ShowsLinks(r) ==> LinksWireSafe(r.links.value))
    && (forall k :: k in r.data ==> k != EMBEDDED && k != LINKS && k != CURIES)
    && (ShowsEmbeds(r) ==> EmbedsWireSafe(r.embeds.value))
  }

  ghost predicate EmbedsWireSafe(ev: EmbedsValue)
    decreases ev, 1
  {
    && StrictlySorted(Rels(ev.entries))
    && forall i :: 0 <= i < |ev.entries| ==> ResourcesWireSafe(ev.entries[i].resources)
  }

  ghost predicate ResourcesWireSafe(rs: Slice<ResourceValue>)
    decreases rs, 0
  {
    match rs
    case Nil => true
    case Slice(s) => forall i :: 0 <= i < |s| ==> WireSafe(s[i])
  }

  /*
   * Reading an encoded resource back as a map.
   */

  /** The object an encoded resource decodes into, with `e` written as `_embedded`. */
  lemma AssembledMap(r: ResourceValue, e: Json)
    requires forall k :: k in r.data ==> k != EMBEDDED && k != LINKS
    ensures var temp := ToMap(Assemble(r, e).members);
            && (LINKS in temp <==> ShowsLinks(r))
            && (ShowsLinks(r) ==> temp[LINKS] == EncodeLinks(r.links.value))
            && (EMBEDDED in temp <==> ShowsEmbeds(r))
            && (ShowsEmbeds(r) ==> temp[EMBEDDED] == e)
            && temp - {EMBEDDED, LINKS} == r.data
  {
    var head := LinksPart(r) + (if ShowsEmbeds(r) then [Member(EMBEDDED, e)] else []);
    var ds := MembersOf(r.data, SortedOf(r.data.Keys));
    assert Assemble(r, e).members == head + ds;
    ToMapAppend(head, ds);
    MembersOfMap(r.data);
    HeadPartMap(r, e);
    MergeResourceHead(ToMap(head), r.data);
  }

  lemma HeadPartMap(r: ResourceValue, e: Json)
    ensures var h := ToMap(LinksPart(r) + (if ShowsEmbeds(r) then [Member(EMBEDDED, e)] else []));
            && h.Keys <= {LINKS, EMBEDDED}
            && (LINKS in h <==> ShowsLinks(r))
            && (ShowsLinks(r) ==> h[LINKS] == EncodeLinks(r.links.value))
            && (EMBEDDED in h <==> ShowsEmbeds(r))
            && (ShowsEmbeds(r) ==> h[EMBEDDED] == e)
  {
    var l := LinksPart(r);
    var m := if ShowsEmbeds(r) then [Member(EMBEDDED, e)] else [];
    ToMapAppend(l, m);
    assert ToMap(l) == if ShowsLinks(r) then map[LINKS := EncodeLinks(r.links.value)] else map[] by {
      if ShowsLinks(r) {
        assert l[..0] == [];
      }
    }
    assert ToMap(m) == if ShowsEmbeds(r) then map[EMBEDDED := e] else map[] by {
      if ShowsEmbeds(r) {
        assert m[..0] == [];
      }
    }
  }

  lemma MergeResourceHead(h: map<string, Json>, data: map<string, Json>)
    requires h.Keys <= {LINKS, EMBEDDED} && LINKS !in data && EMBEDDED !in data
    ensures forall k :: k in h ==> k in h + data && (h + data)[k] == h[k]
    ensures LINKS in h + data <==> LINKS in h
    ensures EMBEDDED in h + data <==> EMBEDDED in h
    ensures (h + data) - {EMBEDDED, LINKS} == data
  {
  }

  /*
   * The round trip, by induction over the resource tree.
   */

  /** Decoding the encoding of a wire-safe resource gives the reread resource. */
  lemma {:induction false} ResourceRoundTrip(r: ResourceValue)
    requires WireSafe(r)
    ensures DecodeResource(EncodeResource(r)) == Success(Reread(r))
    decreases r, 2
  {
    var j := EncodeResource(r);
    if ShowsEmbeds(r) {
      EmbedsRoundTrip(r.embeds.value);
    }
    EmbedsStepOfEncoding(r);
    LinksStepOfEncoding(r);
    DataOfEncoding(r);
    DecodeResourceSteps(j);
  }

  lemma EmbedsStepOfEncoding(r: ResourceValue)
    requires forall k :: k in r.data ==> k != EMBEDDED && k != LINKS
    requires ShowsEmbeds(r) ==> DecodeEmbeds(EncodeEmbeds(r.embeds.value)) == Success(RereadEmbeds(r.embeds.value))
    ensures AsObject(EncodeResource(r)).Success?
    ensures EmbedsStepOf(EncodeResource(r)) == Success(Reread(r).embeds.value)
  {
    AssembledMap(r, if ShowsEmbeds(r) then EncodeEmbeds(r.embeds.value) else Null);
  }

  lemma LinksStepOfEncoding(r: ResourceValue)
    requires forall k :: k in r.data ==> k != EMBEDDED && k != LINKS && k != CURIES
    requires ShowsLinks(r) ==> LinksWireSafe(r.links.value)
    ensures LinksStep(ToMap(EncodeResource(r).members)) == Success(Reread(r).links.value)
  {
    var temp := ToMap(EncodeResource(r).members);
    AssembledMap(r, if ShowsEmbeds(r) then EncodeEmbeds(r.embeds.value) else Null);
    Resource3RoundTrip.NoCuriesMember(temp, r.data);
    if ShowsLinks(r) {
      LinksStepReadsBack(temp, r.links.value);
    } else {
      assert LinksStep(temp) == Success(EmptyLinks);
    }
  }

  lemma LinksStepReadsBack(temp: map<string, Json>, v: LinksValue)
    requires LINKS in temp && temp[LINKS] == EncodeLinks(v) && CURIES !in temp
    requires LinksWireSafe(v)
    ensures LinksStep(temp) == Success(ReadSelf(v))
  {
    LinksRoundTrip(v);
  }

  lemma DataOfEncoding(r: ResourceValue)
    requires forall k :: k in r.data ==> k != EMBEDDED && k != LINKS && k != CURIES
    ensures ToMap(EncodeResource(r).members) - {EMBEDDED, LINKS, CURIES} == r.data
  {
    var temp := ToMap(EncodeResource(r).members);
    AssembledMap(r, if ShowsEmbeds(r) then EncodeEmbeds(r.embeds.value) else Null);
    Resource3RoundTrip.WithoutCuries(temp, r.data);
  }

  /** Decoding the encoding of wire-safe embeds gives them back, each resource reread. */
  lemma {:induction false} EmbedsRoundTrip(ev: EmbedsValue)
    requires EmbedsWireSafe(ev)
    ensures DecodeEmbeds(EncodeEmbeds(ev)) == Success(RereadEmbeds(ev))
    decreases ev, 1
  {
    var es := ev.entries;
    var e := EncodeEmbeds(ev);
    var ms := e.members;
    var ks := Rels(es);
    assert Keys(ms) == ks;
    Resource3RoundTrip.StrictlySortedDistinct(ks);
    assert DistinctKeys(ms);
    ToMapDistinct(ms);
    ToMapKeys(ms);
    var m := ToMap(ms);
    SortedUnique(ks, m.Keys);
    var want := RereadEmbeds(ev).entries;
    forall i | 0 <= i < |es|
      ensures DecodeResources(m[ks[i]]) == Success(want[i].resources)
    {
      assert m[ks[i]] == EncodeResources(es[i].resources);
      ResourcesRoundTrip(es[i].resources);
    }
    DecodedEntriesAre(e, ks, want);
  }

  /** Decoding the encoding of a list of wire-safe resources rereads each one. */
  lemma {:induction false} ResourcesRoundTrip(rs: Slice<ResourceValue>)
    requires ResourcesWireSafe(rs)
    ensures DecodeResources(EncodeResources(rs)) == Success(RereadResources(rs))
    decreases rs, 0
  {
    match rs
    case Nil =>
    case Slice(s) =>
      var items := EncodeResources(rs).items;
      var results := seq(|items|, i requires 0 <= i < |items| => DecodeResource(items[i]));
      forall i | 0 <= i < |s|
        ensures results[i] == Success(Reread(s[i]))
      {
        ResourceRoundTrip(s[i]);
      }
      var r := Sequence(results);
      assert r.Success?;
      assert r.value == RereadResources(rs).elems;
  }

  /*
   * Embeds written in any key order.
   */

  /** Writing the relations in ascending order is one of the encodings Embeds.MarshalJSON may produce. */
  lemma CanonicalEmbedsEncoding(m: map<string, Slice<ResourceValue>>)
    ensures IsEmbedsEncoding(m, EncodeEmbeds(EntriesOf(m)))
  {
    var ev := EntriesOf(m);
    var ms := EncodeEmbeds(ev).members;
    var ks := SortedOf(m.Keys);
    assert Keys(ms) == ks;
    SortedOfDistinct(m.Keys);
  }

  /** Each relation with the encoding of its list. */
  function EncodedRelations(m: map<string, Slice<ResourceValue>>): (t: map<string, Json>)
    ensures t.Keys == m.Keys
    ensures forall k :: k in m ==> t[k] == EncodeResources(m[k])
  {
    map k | k in m :: EncodeResources(m[k])
  }

  /** Every encoding of the relations reads back as the same object: each relation and its list. */
  lemma EmbedsEncodingMap(m: map<string, Slice<ResourceValue>>, j: Json)
    requires IsEmbedsEncoding(m, j)
    ensures AsObject(j) == Success(EncodedRelations(m))
  {
    ToMapDistinct(j.members);
    ToMapKeys(j.members);
    var t := ToMap(j.members);
    forall k | k in m
      ensures k in t && t[k] == EncodeResources(m[k])
    {
      var i :| 0 <= i < |j.members| && Keys(j.members)[i] == k;
    }
    forall k | k in t
      ensures k in m
    {
      var i :| 0 <= i < |j.members| && Keys(j.members)[i] == k;
    }
    var want := EncodedRelations(m);
    assert t.Keys == want.Keys;
    SameMap(t, want);
    assert AsObject(j) == Success(t);
  }

  /** Decoding embeds looks only at the object read from them. */
  lemma DecodeEmbedsByObject(e1: Json, e2: Json)
    requires AsObject(e1) == AsObject(e2)
    ensures DecodeEmbeds(e1) == DecodeEmbeds(e2)
  {
    if AsObject(e1).Success? {
      DecodeEntriesByObject(e1, e2, SortedOf(AsObject(e1).value.Keys));
    }
  }

  lemma {:induction false} DecodeEntriesByObject(e1: Json, e2: Json, ks: seq<string>)
    requires AsObject(e1).Success? && AsObject(e1) == AsObject(e2)
    requires forall k :: k in ks ==> k in AsObject(e1).value
    ensures DecodeEntries(e1, ks) == DecodeEntries(e2, ks)
    decreases |ks|
  {
    if ks != [] {
      DecodeEntriesByObject(e1, e2, ks[1..]);
    }
  }

  /** Any key order Embeds.MarshalJSON picks decodes like the ascending one. */
  lemma EmbedsEncodingsDecodeAlike(m: map<string, Slice<ResourceValue>>, j: Json)
    requires IsEmbedsEncoding(m, j)
    ensures DecodeEmbeds(j) == DecodeEmbeds(EncodeEmbeds(EntriesOf(m)))
  {
    CanonicalEmbedsEncoding(m);
    EmbedsEncodingMap(m, j);
    EmbedsEncodingMap(m, EncodeEmbeds(EntriesOf(m)));
    DecodeEmbedsByObject(j, EncodeEmbeds(EntriesOf(m)));
  }

  /**
   * Whatever order Resource.MarshalJSON writes the embeds in, the output
   * decodes like EncodeResource's.
   */
  lemma {:induction false} MarshalDecodesAlike(r: ResourceValue, m: map<string, Slice<ResourceValue>>, e: Json)
    requires forall k :: k in r.data ==> k != EMBEDDED && k != LINKS
    requires r.embeds == Some(EntriesOf(m)) && ShowsEmbeds(r) && IsEmbedsEncoding(m, e)
    ensures DecodeResource(Assemble(r, e)) == DecodeResource(EncodeResource(r))
  {
    var c := EncodeEmbeds(EntriesOf(m));
    var j1 := Assemble(r, e);
    var j2 := EncodeResource(r);
    assert j2 == Assemble(r, c);
    AssembledMap(r, e);
    AssembledMap(r, c);
    var t1 := ToMap(j1.members);
    var t2 := ToMap(j2.members);
    EmbedsEncodingsDecodeAlike(m, e);
    assert EmbedsStepOf(j1) == EmbedsStepOf(j2);
    SameOutsideEmbedded(t1, t2, r.data);
    DecodeResourceSteps(j1);
    DecodeResourceSteps(j2);
  }

  /** Two objects that differ at most in `_embedded` give the same links and data. */
  lemma SameOutsideEmbedded(t1: map<string, Json>, t2: map<string, Json>, data: map<string, Json>)
    requires t1 - {EMBEDDED, LINKS} == data && t2 - {EMBEDDED, LINKS} == data
    requires (LINKS in t1 <==> LINKS in t2) && (LINKS in t1 ==> t1[LINKS] == t2[LINKS])
    ensures LinksStep(t1) == LinksStep(t2)
    ensures t1 - {EMBEDDED, LINKS, CURIES} == t2 - {EMBEDDED, LINKS, CURIES}
  {
    var u1 := t1 - {EMBEDDED};
    var u2 := t2 - {EMBEDDED};
    forall k | k != EMBEDDED
      ensures (k in t1 <==> k in t2) && (k in t1 ==> t1[k] == t2[k])
    {
      if k != LINKS {
        assert k in t1 <==> k in data;
        assert k in t2 <==> k in data;
        if k in data {
          assert t1[k] == (t1 - {EMBEDDED, LINKS})[k];
          assert t2[k] == (t2 - {EMBEDDED, LINKS})[k];
        }
      }
    }
    assert u1.Keys == u2.Keys;
    assert u1 == u2;
    LinksStepIgnoresEmbedded(t1);
    LinksStepIgnoresEmbedded(t2);
    assert t1 - {EMBEDDED, LINKS, CURIES} == u1 - {LINKS, CURIES};
    assert t2 - {EMBEDDED, LINKS, CURIES} == u2 - {LINKS, CURIES};
  }

  lemma LinksStepIgnoresEmbedded(t: map<string, Json>)
    ensures LinksStep(t) == LinksStep(t - {EMBEDDED})
  {
    assert CURIES[0] != EMBEDDED[0] && LINKS[1] != EMBEDDED[1];
    assert (LINKS in t <==> LINKS in t - {EMBEDDED}) && (CURIES in t <==> CURIES in t - {EMBEDDED});
  }

  /**
   * The round trip through the Resource container: whatever order its
   * MarshalJSON writes the embeds in, decoding gives the reread resource.
   */
  lemma MarshalRoundTrip(r: ResourceValue, m: map<string, Slice<ResourceValue>>, e: Json)
    requires WireSafe(r)
    requires r.embeds == Some(EntriesOf(m)) && ShowsEmbeds(r) && IsEmbedsEncoding(m, e)
    ensures DecodeResource(Assemble(r, e)) == Success(Reread(r))
  {
    MarshalDecodesAlike(r, m, e);
    ResourceRoundTrip(r);
  }

  /*
   * Encoding the decoded resource again.
   */

  /** Every written self link, here and in nested resources, carries only its href. */
  ghost predicate SelvesHrefOnly(r: ResourceValue)
    decreases r, 2
  {
    && (ShowsLinks(r) && r.links.value.self.Some? ==>
          r.links.value.self.value == HrefOnly(r.links.value.self.value.href))
    && (ShowsEmbeds(r) ==> EmbedsSelvesHrefOnly(r.embeds.value))
  }

  ghost predicate EmbedsSelvesHrefOnly(ev: EmbedsValue)
    decreases ev, 1
  {
    forall i :: 0 <= i < |ev.entries| ==> ResourcesSelvesHrefOnly(ev.entries[i].resources)
  }

  ghost predicate ResourcesSelvesHrefOnly(rs: Slice<ResourceValue>)
    decreases rs, 0
  {
    match rs
    case Nil => true
    case Slice(s) => forall i :: 0 <= i < |s| ==> SelvesHrefOnly(s[i])
  }

  /**
   * What decoding loses is never written: when every self link carries
   * only its href, the reread resource encodes exactly as the resource.
   */
  lemma {:induction false} RereadEncodesAlike(r: ResourceValue)
    requires SelvesHrefOnly(r)
    ensures EncodeResource(Reread(r)) == EncodeResource(r)
    decreases r, 2
  {
    var r' := Reread(r);
    assert ShowsLinks(r') <==> ShowsLinks(r);
    assert LinksPart(r') == LinksPart(r);
    assert ShowsEmbeds(r') <==> ShowsEmbeds(r);
    if ShowsEmbeds(r) {
      EmbedsRereadEncodesAlike(r.embeds.value);
    }
  }

  lemma {:induction false} EmbedsRereadEncodesAlike(ev: EmbedsValue)
    requires EmbedsSelvesHrefOnly(ev)
    ensures EncodeEmbeds(RereadEmbeds(ev)) == EncodeEmbeds(ev)
    decreases ev, 1
  {
    var es := ev.entries;
    var es' := RereadEmbeds(ev).entries;
    forall i | 0 <= i < |es|
      ensures Member(es'[i].rel, EncodeResources(es'[i].resources)) == Member(es[i].rel, EncodeResources(es[i].resources))
    {
      ResourcesRereadEncodesAlike(es[i].resources);
    }
  }

  lemma {:induction false} ResourcesRereadEncodesAlike(rs: Slice<ResourceValue>)
    requires ResourcesSelvesHrefOnly(rs)
    ensures EncodeResources(RereadResources(rs)) == EncodeResources(rs)
    decreases rs, 0
  {
    match rs
    case Nil =>
    case Slice(s) =>
      var s' := RereadResources(rs).elems;
      forall i | 0 <= i < |s|
        ensures EncodeResource(s'[i]) == EncodeResource(s[i])
      {
        RereadEncodesAlike(s[i]);
      }
  }

  /**
   * The payload round trip: decoding the encoding of a wire-safe resource
   * whose self links carry only their href, and encoding the result,
   * gives the same payload.
   */
  lemma PayloadRoundTrip(r: ResourceValue)
    requires WireSafe(r) && SelvesHrefOnly(r)
    ensures DecodeResource(EncodeResource(r)).Success?
    ensures EncodeResource(DecodeResource(EncodeResource(r)).value) == EncodeResource(r)
  {
    ResourceRoundTrip(r);
    RereadEncodesAlike(r);
  }
}
