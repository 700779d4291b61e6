/**
 * The links container of the v3 codec (`_links`, draft-kelly-json-hal-11
 * section 4.1.1): a self link, the registered curies and the links of
 * each relation type.  Link objects carry the properties of section 5;
 * every property is `omitempty`.
 */
module Links3 {
  import opened Json
  import opened Hal
  import opened Curies

  /** The value of a v3 Link struct; `mediaType` is the `type` property. */
  datatype Link = Link(
    deprecation: string,
    href: string,
    hreflang: string,
    name: string,
    profile: string,
    templated: bool,
    title: string,
    mediaType: string)

  const ZeroLink := Link("", "", "", "", "", false, "", "")

  /** `&Link{Href: href}`. */
  function HrefOnly(href: string): (l: Link)
    ensures l.href == href && l.(href := "") == ZeroLink
  {
    ZeroLink.(href := href)
  }

  /** Every property of a link as a member, in struct field order. */
  function AllFields(l: Link): seq<Member> {
    [ Member(DEPRECATION, Str(l.deprecation)),
      Member(HREF, Str(l.href)),
      Member(HREFLANG, Str(l.hreflang)),
      Member(NAME, Str(l.name)),
      Member(PROFILE, Str(l.profile)),
      Member(TEMPLATED, Bool(l.templated)),
      Member(TITLE, Str(l.title)),
      Member(TYPE, Str(l.mediaType)) ]
  }

  /** The property names of a link, which are also its output order. */
  const LinkKeys := [DEPRECATION, HREF, HREFLANG, NAME, PROFILE, TEMPLATED, TITLE, TYPE]

  lemma LinkKeysSorted()
    ensures StrictlySorted(LinkKeys)
  {
    assert DiffersAt(DEPRECATION, HREF, 0);
    assert HREF[..4] == HREFLANG[..4] && DiffersAt(HREF, HREFLANG, 4);
    assert DiffersAt(HREFLANG, NAME, 0);
    assert DiffersAt(NAME, PROFILE, 0);
    assert DiffersAt(PROFILE, TEMPLATED, 0);
    assert TEMPLATED[..1] == TITLE[..1] && DiffersAt(TEMPLATED, TITLE, 1);
    assert TITLE[..1] == TYPE[..1] && DiffersAt(TITLE, TYPE, 1);
    forall i, j | 0 <= i < j < |LinkKeys|
      ensures Less(LinkKeys[i], LinkKeys[j])
    {
      var n := i;
      while n + 1 < j
        invariant i <= n < j
        invariant Less(LinkKeys[i], LinkKeys[n + 1])
      {
        LessTransitive(LinkKeys[i], LinkKeys[n + 1], LinkKeys[n + 2]);
        n := n + 1;
      }
    }
  }

  /** The value `omitempty` drops: an empty string or false. */
  predicate IsEmptyValue(v: Json) {
    v == Str("") || v == Bool(false)
  }

  /** `omitempty`: keep only the members whose value is not empty, in order. */
  function OmitEmpty(ms: seq<Member>): seq<Member> {
    if ms == [] then []
    else if IsEmptyValue(ms[0].value) then OmitEmpty(ms[1..])
    else [ms[0]] + OmitEmpty(ms[1..])
  }

  /** What `omitempty` keeps comes from the input and is not empty. */
  lemma OmitEmptyFrom(ms: seq<Member>, x: Member)
    requires x in OmitEmpty(ms)
    ensures exists n :: 0 <= n < |ms| && ms[n] == x && !IsEmptyValue(x.value)
  {
    if x != ms[0] || IsEmptyValue(ms[0].value) {
      OmitEmptyFrom(ms[1..], x);
      var n :| 0 <= n < |ms[1..]| && ms[1..][n] == x && !IsEmptyValue(x.value);
      assert ms[n + 1] == x;
    }
  }

  /** Every non-empty member is kept. */
  lemma OmitEmptyKeeps(ms: seq<Member>, i: int)
    requires 0 <= i < |ms| && !IsEmptyValue(ms[i].value)
    ensures ms[i] in OmitEmpty(ms)
  {
    if i > 0 {
      OmitEmptyKeeps(ms[1..], i - 1);
    }
  }

  /** Dropping members keeps the remaining keys in order. */
  lemma {:induction false} OmitEmptySorted(ms: seq<Member>)
    requires StrictlySorted(Keys(ms))
    ensures StrictlySorted(Keys(OmitEmpty(ms)))
  {
    if ms != [] {
      var tail := OmitEmpty(ms[1..]);
      SortedTail(ms);
      OmitEmptySorted(ms[1..]);
      if !IsEmptyValue(ms[0].value) {
        forall i | 0 <= i < |tail|
          ensures Less(ms[0].key, tail[i].key)
        {
          OmitEmptyFrom(ms[1..], tail[i]);
          var n :| 0 <= n < |ms[1..]| && ms[1..][n] == tail[i];
          assert ms[n + 1] == tail[i];
        }
        SortedCons(ms[0], tail);
      }
    }
  }

  lemma SortedDistinct(ms: seq<Member>)
    requires StrictlySorted(Keys(ms))
    ensures DistinctKeys(ms)
  {
    forall i, j | 0 <= i < j < |ms|
      ensures ms[i].key != ms[j].key
    {
      assert Less(Keys(ms)[i], Keys(ms)[j]);
      LessIrreflexive(ms[i].key);
    }
  }

  /**
   * The object encoding/json writes for a Link: only its non-empty
   * properties, in the order deprecation, href, hreflang, name, profile,
   * templated, title, type (which is ascending).
   */
  function EncodeLink(l: Link): (j: Json)
    ensures j.Obj?
  {
    Obj(OmitEmpty(AllFields(l)))
  }

  /** The encoded link holds exactly its non-empty properties, keys ascending. */
  lemma EncodeLinkLayout(l: Link)
    ensures StrictlySorted(Keys(EncodeLink(l).members))
    ensures forall m :: m in EncodeLink(l).members <==> m in AllFields(l) && !IsEmptyValue(m.value)
  {
    var all := AllFields(l);
    LinkKeysSorted();
    assert Keys(all) == LinkKeys;
    OmitEmptySorted(all);
    forall m | m in EncodeLink(l).members
      ensures m in all && !IsEmptyValue(m.value)
    {
      OmitEmptyFrom(all, m);
    }
    forall m | m in all && !IsEmptyValue(m.value)
      ensures m in EncodeLink(l).members
    {
      var i :| 0 <= i < |all| && all[i] == m;
      OmitEmptyKeeps(all, i);
    }
  }

  /** Reading back one property of an `omitempty` encoding. */
  lemma ReadBackField(all: seq<Member>, i: int)
    requires DistinctKeys(all) && DistinctKeys(OmitEmpty(all)) && 0 <= i < |all|
    ensures var m := ToMap(OmitEmpty(all));
            && (all[i].key in m <==> !IsEmptyValue(all[i].value))
            && (all[i].key in m ==> m[all[i].key] == all[i].value)
  {
    var r := OmitEmpty(all);
    var m := ToMap(r);
    var f := all[i];
    if !IsEmptyValue(f.value) {
      OmitEmptyKeeps(all, i);
      var n :| 0 <= n < |r| && r[n] == f;
      ToMapDistinct(r);
      assert Keys(r)[n] == f.key;
      assert f.key in m && m[f.key] == f.value;
    }
    if f.key in m {
      ToMapSource(r, f.key);
      var n :| 0 <= n < |r| && r[n].key == f.key && m[f.key] == r[n].value;
      SameKeySameMember(all, r[n], i);
      assert !IsEmptyValue(f.value) && m[f.key] == f.value;
    }
  }

  lemma SameKeySameMember(all: seq<Member>, x: Member, i: int)
    requires DistinctKeys(all) && 0 <= i < |all|
    requires x in OmitEmpty(all) && x.key == all[i].key
    ensures x == all[i] && !IsEmptyValue(x.value)
  {
    OmitEmptyFrom(all, x);
    var n :| 0 <= n < |all| && all[n] == x && !IsEmptyValue(x.value);
    assert all[n].key == all[i].key;
    assert n == i;
  }

  /** The property loop of UnmarshalJSON: known keys of the right type set a field. */
  function DecodeLink(props: map<string, Json>): Link {
    Link(
      LenientString(props, DEPRECATION),
      LenientString(props, HREF),
      LenientString(props, HREFLANG),
      LenientString(props, NAME),
      LenientString(props, PROFILE),
      LenientBool(props, TEMPLATED),
      LenientString(props, TITLE),
      LenientString(props, TYPE))
  }

  lemma FieldsDistinct(l: Link)
    ensures DistinctKeys(AllFields(l)) && DistinctKeys(OmitEmpty(AllFields(l)))
  {
    LinkKeysSorted();
    assert Keys(AllFields(l)) == LinkKeys;
    OmitEmptySorted(AllFields(l));
    SortedDistinct(AllFields(l));
    SortedDistinct(OmitEmpty(AllFields(l)));
  }

  /** A link object read back from its own encoding gives the same link. */
  lemma LinkRoundTrip(l: Link)
    ensures DecodeLink(ToMap(EncodeLink(l).members)) == l
  {
    var all := AllFields(l);
    FieldsDistinct(l);
    ReadBackField(all, 0);
    ReadBackField(all, 1);
    ReadBackField(all, 2);
    ReadBackField(all, 3);
    ReadBackField(all, 4);
    ReadBackField(all, 5);
    ReadBackField(all, 6);
    ReadBackField(all, 7);
  }

  /** A property the link does not know is ignored, whatever its value. */
  lemma UnknownPropertyIgnored(props: map<string, Json>, key: string, v: Json)
    requires key !in LinkKeys
    ensures DecodeLink(props[key := v]) == DecodeLink(props)
  {
  }

  /** A known string property holding a value of another type is ignored. */
  lemma WrongTypeIgnored(props: map<string, Json>, key: string, v: Json)
    requires key in LinkKeys && key != TEMPLATED && !v.Str?
    ensures DecodeLink(props[key := v]) == DecodeLink(props - {key})
  {
  }

  /** The links container as a value. */
  datatype LinksValue = LinksValue(
    self: Option<Link>,
    curies: seq<CurieValue>,
    relations: map<string, seq<Link>>)

  /** NewLinks: no self link, nil curies, no relations. */
  const EmptyLinks := LinksValue(None, [], map[])

  /** The links under a relation type, none when it is absent. */
  function LinksOf(v: LinksValue, rel: string): seq<Link> {
    if rel in v.relations then v.relations[rel] else []
  }

  /** AddCurie: appends a copy of the curie, never fails, no duplicate check. */
  function WithCurie(v: LinksValue, c: CurieValue): (r: LinksValue)
    ensures r.curies == v.curies + [c] && |r.curies| == |v.curies| + 1
    ensures r.self == v.self && r.relations == v.relations
  {
    v.(curies := v.curies + [c])
  }

  /**
   * AddLink: a curied relation type needs a registered curie for its
   * prefix (ErrNoCurie otherwise, nothing changed); on success the link
   * goes at the end of the relation's list, which is created if absent.
   */
  function WithLink(v: LinksValue, rel: string, l: Link): (r: Result<LinksValue>)
    ensures r.Success? <==> GateOpen(v.curies, rel)
    ensures r.Failure? ==> r.error == ErrNoCurie
    ensures r.Success? ==> r.value.self == v.self && r.value.curies == v.curies
    ensures r.Success? ==> r.value.relations.Keys == v.relations.Keys + {rel}
    ensures r.Success? ==> r.value.relations[rel] == LinksOf(v, rel) + [l]
    ensures r.Success? ==> forall k :: k in v.relations && k != rel ==> r.value.relations[k] == v.relations[k]
  {
    if !GateOpen(v.curies, rel) then Failure(ErrNoCurie)
    else Success(v.(relations := v.relations[rel := LinksOf(v, rel) + [l]]))
  }

  /** Every curied relation type present has a registered curie for its prefix. */
  predicate Gated(v: LinksValue) {
    forall rel :: rel in v.relations ==> GateOpen(v.curies, rel)
  }

  lemma EmptyLinksGated()
    ensures Gated(EmptyLinks)
  {
  }

  lemma WithLinkKeepsGated(v: LinksValue, rel: string, l: Link)
    requires Gated(v) && WithLink(v, rel, l).Success?
    ensures Gated(WithLink(v, rel, l).value)
  {
  }

  lemma WithCurieKeepsGated(v: LinksValue, c: CurieValue)
    requires Gated(v)
    ensures Gated(WithCurie(v, c))
  {
    forall rel | rel in v.relations && IsCuried(rel)
      ensures Registered(v.curies + [c], Prefix(rel))
    {
      var i :| 0 <= i < |v.curies| && v.curies[i].name == Prefix(rel);
      assert (v.curies + [c])[i] == v.curies[i];
    }
  }

  /** A refused relation stays refused after registering a curie with another name. */
  lemma OtherCurieDoesNotUnlock(v: LinksValue, c: CurieValue, rel: string, l: Link)
    requires WithLink(v, rel, l).Failure?
    requires c.name != Prefix(rel)
    ensures WithLink(WithCurie(v, c), rel, l).Failure?
  {
    OtherCurieKeepsGate(v.curies, c, rel);
  }

  /** Registering the prefix makes the same AddLink succeed. */
  lemma MatchingCurieUnlocks(v: LinksValue, c: CurieValue, rel: string, l: Link)
    requires IsCuried(rel) && c.name == Prefix(rel)
    ensures WithLink(WithCurie(v, c), rel, l).Success?
  {
    RegisteringOpensGate(v.curies, c, rel);
  }

  /*
   * Encoding.
   */

  /** `json.Marshal` of a `[]*Link`: a nil slice (only decoding makes one) is null. */
  function EncodeLinkList(ls: seq<Link>): (j: Json)
    ensures ls == [] ==> j == Null
    ensures ls != [] ==> j.Arr? && |j.items| == |ls| &&
                         forall i :: 0 <= i < |ls| ==> j.items[i] == EncodeLink(ls[i])
  {
    if ls == [] then Null
    else Arr(seq(|ls|, i requires 0 <= i < |ls| => EncodeLink(ls[i])))
  }

  /** The members for the relation keys `ks`, in that order. */
  function RelationMembers(rels: map<string, seq<Link>>, ks: seq<string>): (ms: seq<Member>)
    requires forall k :: k in ks ==> k in rels
    ensures |ms| == |ks|
    ensures forall i :: 0 <= i < |ks| ==> ms[i] == Member(ks[i], EncodeLinkList(rels[ks[i]]))
  {
    if ks == [] then []
    else RelationMembers(rels, ks[..|ks| - 1]) + [Member(ks[|ks| - 1], EncodeLinkList(rels[ks[|ks| - 1]]))]
  }

  function SelfMembers(v: LinksValue): seq<Member> {
    if v.self.Some? then [Member(SELF, EncodeLink(v.self.value))] else []
  }

  function CurieMembers(v: LinksValue): seq<Member> {
    if |v.curies| > 0 then [Member(CURIES, EncodeCuries(v.curies))] else []
  }

  /** Links.MarshalJSON: `self`, then `curies` when non-empty, then the relations by key. */
  function EncodeLinks(v: LinksValue): (j: Json)
    ensures j.Obj?
  {
    Obj(SelfMembers(v) + CurieMembers(v) + RelationMembers(v.relations, SortedOf(v.relations.Keys)))
  }

  /**
   * The layout of the encoding: `self` comes first exactly when it is
   * set, then `curies` exactly when there are some, then every relation
   * key once, in strictly ascending order, each holding its links.
   */
  lemma EncodeLinksLayout(v: LinksValue)
    ensures var ms := EncodeLinks(v).members;
            var s := if v.self.Some? then 1 else 0;
            var h := s + if |v.curies| > 0 then 1 else 0;
            && |ms| == h + |v.relations|
            && (v.self.Some? ==> ms[0] == Member(SELF, EncodeLink(v.self.value)))
            && (|v.curies| > 0 ==> ms[s] == Member(CURIES, EncodeCuries(v.curies)))
            && Keys(ms[h..]) == SortedOf(v.relations.Keys)
            && StrictlySorted(Keys(ms[h..]))
            && (forall i :: h <= i < |ms| ==> ms[i].key in v.relations && ms[i].value == EncodeLinkList(v.relations[ms[i].key]))
  {
    var head := SelfMembers(v) + CurieMembers(v);
    var rs := RelationMembers(v.relations, SortedOf(v.relations.Keys));
    assert EncodeLinks(v).members == head + rs;
    HeadLayout(v);
    RelationsLayout(v.relations);
    AfterHead(head, rs);
  }

  lemma HeadLayout(v: LinksValue)
    ensures var head := SelfMembers(v) + CurieMembers(v);
            var s := if v.self.Some? then 1 else 0;
            && |head| == s + (if |v.curies| > 0 then 1 else 0)
            && (v.self.Some? ==> head[0] == Member(SELF, EncodeLink(v.self.value)))
            && (|v.curies| > 0 ==> head[s] == Member(CURIES, EncodeCuries(v.curies)))
  {
  }

  lemma RelationsLayout(rels: map<string, seq<Link>>)
    ensures var rs := RelationMembers(rels, SortedOf(rels.Keys));
            && |rs| == |rels|
            && Keys(rs) == SortedOf(rels.Keys)
            && StrictlySorted(Keys(rs))
            && (forall i :: 0 <= i < |rs| ==> rs[i].key in rels && rs[i].value == EncodeLinkList(rels[rs[i].key]))
  {
    var ks := SortedOf(rels.Keys);
    RelationMembersKeys(rels, ks);
    SortedOfAscending(rels.Keys);
  }


  /** One more key of `ks` adds its member at the end. */
  lemma RelationMembersStep(rels: map<string, seq<Link>>, ks: seq<string>, i: nat)
    requires forall k :: k in ks ==> k in rels
    requires i < |ks|
    ensures ks[i] in rels
    ensures RelationMembers(rels, ks[..i + 1]) == RelationMembers(rels, ks[..i]) + [Member(ks[i], EncodeLinkList(rels[ks[i]]))]
  {
    assert ks[..i + 1] == ks[..i] + [ks[i]];
    RelationMembersSnoc(rels, ks[..i], ks[i]);
  }

  lemma RelationMembersSnoc(rels: map<string, seq<Link>>, ks: seq<string>, k: string)
    requires forall k' :: k' in ks ==> k' in rels
    requires k in rels
    ensures RelationMembers(rels, ks + [k]) == RelationMembers(rels, ks) + [Member(k, EncodeLinkList(rels[k]))]
  {
    assert (ks + [k])[..|ks|] == ks;
  }

  lemma RelationMembersKeys(rels: map<string, seq<Link>>, ks: seq<string>)
    requires forall k :: k in ks ==> k in rels
    ensures Keys(RelationMembers(rels, ks)) == ks
  {
  }

  /** With every list non-empty, every relation is written as an array of its links. */
  lemma RelationsAreArrays(v: LinksValue)
    requires forall k :: k in v.relations ==> v.relations[k] != []
    ensures forall m :: m in EncodeLinks(v).members && m.key in v.relations && m.key != SELF && m.key != CURIES ==>
              m.value.Arr? && |m.value.items| == |v.relations[m.key]|
  {
    var ms := EncodeLinks(v).members;
    var rs := RelationMembers(v.relations, SortedOf(v.relations.Keys));
    forall m | m in ms && m.key in v.relations && m.key != SELF && m.key != CURIES
      ensures m.value.Arr? && |m.value.items| == |v.relations[m.key]|
    {
      assert m in rs;
      var i :| 0 <= i < |rs| && rs[i] == m;
      assert Keys(rs)[i] == m.key;
    }
  }

  /** The relation loop of Links.MarshalJSON: sort the keys, then one member per key. */
  method MarshalRelations(rels: map<string, seq<Link>>) returns (ms: seq<Member>)
    ensures ms == RelationMembers(rels, SortedOf(rels.Keys))
  {
    ms := [];
    var sortedKeys := SortedKeys(rels.Keys);
    assert forall k :: k in sortedKeys ==> k in rels;
    var i := 0;
    while i < |sortedKeys|
      invariant 0 <= i <= |sortedKeys|
      invariant ms == RelationMembers(rels, sortedKeys[..i])
    {
      var key := sortedKeys[i];
      RelationMembersStep(rels, sortedKeys, i);
      ms := ms + [Member(key, EncodeLinkList(rels[key]))];
      i := i + 1;
    }
    assert sortedKeys[..i] == sortedKeys;
  }

  /** Links.MarshalJSON: the buffer of members, `self` and `curies` first. */
  method MarshalLinks(v: LinksValue) returns (j: Json)
    ensures j == EncodeLinks(v)
  {
    var buffer: seq<Member> := [];
    if v.self.Some? {
      buffer := buffer + [Member(SELF, EncodeLink(v.self.value))];
    }
    if |v.curies| > 0 {
      buffer := buffer + [Member(CURIES, EncodeCuries(v.curies))];
    }
    assert buffer == SelfMembers(v) + CurieMembers(v);
    var relations := MarshalRelations(v.relations);
    j := Obj(buffer + relations);
  }

  /*
   * Decoding.
   */

  /** The curie fields the lenient loop keeps: right-typed name, href and templated. */
  function DecodeCurieLenient(props: map<string, Json>): CurieValue {
    CurieValue(LenientString(props, NAME), LenientString(props, HREF), LenientBool(props, TEMPLATED))
  }

  /** `curies` inside `_links`: must be an array of objects. */
  function DecodeCuriesLenient(j: Json): (r: Result<seq<CurieValue>>)
    ensures r.Success? <==> j.Arr? && forall i :: 0 <= i < |j.items| ==> j.items[i].Obj?
    ensures r.Failure? ==> r.error == Malformed
    ensures r.Success? ==>
              (|r.value| == |j.items| &&
               forall i :: 0 <= i < |j.items| ==> r.value[i] == DecodeCurieLenient(ToMap(j.items[i].members)))
  {
    if j.Arr? && forall i :: 0 <= i < |j.items| ==> j.items[i].Obj? then
      Success(seq(|j.items|, i requires 0 <= i < |j.items| => DecodeCurieLenient(ToMap(j.items[i].members))))
    else Failure(Malformed)
  }

  /** `self` inside `_links`: must be an object, of which only `href` is kept. */
  function DecodeSelf(j: Json): (r: Result<Link>)
    ensures r.Success? <==> j.Obj?
    ensures r.Failure? ==> r.error == Malformed
    ensures r.Success? ==> r.value == HrefOnly(LenientString(ToMap(j.members), HREF))
  {
    if j.Obj? then Success(HrefOnly(LenientString(ToMap(j.members), HREF)))
    else Failure(Malformed)
  }

  /** A relation's value: must be an array of link objects. */
  function DecodeLinkList(j: Json): (r: Result<seq<Link>>)
    ensures r.Success? <==> j.Arr? && forall i :: 0 <= i < |j.items| ==> j.items[i].Obj?
    ensures r.Failure? ==> r.error == Malformed
    ensures r.Success? ==>
              (|r.value| == |j.items| &&
               forall i :: 0 <= i < |j.items| ==> r.value[i] == DecodeLink(ToMap(j.items[i].members)))
  {
    if j.Arr? && forall i :: 0 <= i < |j.items| ==> j.items[i].Obj? then
      Success(seq(|j.items|, i requires 0 <= i < |j.items| => DecodeLink(ToMap(j.items[i].members))))
    else Failure(Malformed)
  }

  /** Every remaining key is a relation: all must decode, into a fresh map. */
  function DecodeRelations(temp: map<string, Json>): (r: Result<map<string, seq<Link>>>)
    ensures r.Success? <==> forall k :: k in temp ==> DecodeLinkList(temp[k]).Success?
    ensures r.Failure? ==> r.error == Malformed
    ensures r.Success? ==>
              (r.value.Keys == temp.Keys &&
               forall k :: k in temp ==> r.value[k] == DecodeLinkList(temp[k]).value)
  {
    if forall k :: k in temp ==> DecodeLinkList(temp[k]).Success? then
      Success(map k | k in temp :: DecodeLinkList(temp[k]).value)
    else Failure(Malformed)
  }

  /**
   * Links.UnmarshalJSON on a container holding `base`: `curies` and
   * `self` are replaced only when present, the relations always.
   */
  function DecodeLinksInto(base: LinksValue, j: Json): (r: Result<LinksValue>)
    ensures r.Failure? ==> r.error == Malformed
    ensures r.Success? ==>
              (AsObject(j).Success? &&
               var temp := AsObject(j).value;
               && r.value.relations.Keys == temp.Keys - {CURIES, SELF}
               && (CURIES !in temp ==> r.value.curies == base.curies)
               && (SELF !in temp ==> r.value.self == base.self)
               && (SELF in temp ==> r.value.self.Some? && r.value.self.value.(href := "") == ZeroLink))
    ensures AsObject(j).Success? && CURIES in AsObject(j).value && DecodeCuriesLenient(AsObject(j).value[CURIES]).Failure? ==> r.Failure?
    ensures AsObject(j).Success? && SELF in AsObject(j).value && !AsObject(j).value[SELF].Obj? ==> r.Failure?
  {
    var temp :- AsObject(j);
    var curies :- if CURIES in temp then DecodeCuriesLenient(temp[CURIES]) else Success(base.curies);
    var self :- if SELF in temp then (var s :- DecodeSelf(temp[SELF]); Success(Some(s))) else Success(base.self);
    var relations :- DecodeRelations(temp - {CURIES, SELF});
    Success(LinksValue(self, curies, relations))
  }

  /** The lenient curie reading gives back an encoded curie. */
  lemma CurieLenientRoundTrip(c: CurieValue)
    ensures DecodeCurieLenient(ToMap(EncodeCurie(c).members)) == c
  {
    var m := ShownFields(c);
    assert LenientString(m, NAME) == c.name;
    assert LenientString(m, HREF) == c.href;
    assert LenientBool(m, TEMPLATED) == c.templated;
  }

  lemma RelationMembersDistinct(rels: map<string, seq<Link>>)
    ensures DistinctKeys(RelationMembers(rels, SortedOf(rels.Keys)))
  {
    var ks := SortedOf(rels.Keys);
    var ms := RelationMembers(rels, ks);
    SortedOfDistinct(rels.Keys);
    forall i, j | 0 <= i < j < |ms|
      ensures ms[i].key != ms[j].key
    {
      assert ms[i].key == ks[i] && ms[j].key == ks[j];
    }
  }

  /** The relation values as a map: what the relation members read back as. */
  function RelationValues(rels: map<string, seq<Link>>): (m: map<string, Json>)
    ensures m.Keys == rels.Keys
  {
    map k | k in rels :: EncodeLinkList(rels[k])
  }

  /** The map the relation members read back as. */
  lemma RelationMembersMap(rels: map<string, seq<Link>>)
    ensures ToMap(RelationMembers(rels, SortedOf(rels.Keys))) == RelationValues(rels)
  {
    var ks := SortedOf(rels.Keys);
    RelationMembersRead(rels, ks);
    SameRelationValues(ToMap(RelationMembers(rels, ks)), rels);
  }

  lemma {:induction false} RelationMembersRead(rels: map<string, seq<Link>>, ks: seq<string>)
    requires forall k :: k in ks ==> k in rels
    ensures forall k :: k in ToMap(RelationMembers(rels, ks)) <==> k in ks
    ensures forall k :: k in ToMap(RelationMembers(rels, ks)) ==> ToMap(RelationMembers(rels, ks))[k] == EncodeLinkList(rels[k])
  {
    if ks != [] {
      var init := ks[..|ks| - 1];
      var ms := RelationMembers(rels, ks);
      RelationMembersRead(rels, init);
      assert ms[..|ms| - 1] == RelationMembers(rels, init);
      assert forall k :: k in ks <==> k in init || k == ks[|ks| - 1];
    }
  }


  lemma SameRelationValues(m: map<string, Json>, rels: map<string, seq<Link>>)
    requires m.Keys == rels.Keys
    requires forall k :: k in rels ==> m[k] == EncodeLinkList(rels[k])
    ensures m == RelationValues(rels)
  {
  }

  /** The members before the relations, read back. */
  lemma HeadMap(v: LinksValue)
    ensures var head := ToMap(SelfMembers(v) + CurieMembers(v));
            && head.Keys <= {SELF, CURIES}
            && (SELF in head <==> v.self.Some?)
            && (v.self.Some? ==> head[SELF] == EncodeLink(v.self.value))
            && (CURIES in head <==> |v.curies| > 0)
            && (|v.curies| > 0 ==> head[CURIES] == EncodeCuries(v.curies))
  {
    ToMapAppend(SelfMembers(v), CurieMembers(v));
    assert SELF != CURIES by {
      assert SELF[0] != CURIES[0];
    }
  }

  /** What the encoding reads back as, when no relation is named `self` or `curies`. */
  lemma EncodedLinksMap(v: LinksValue)
    requires SELF !in v.relations && CURIES !in v.relations
    ensures var temp := ToMap(EncodeLinks(v).members);
            && (SELF in temp <==> v.self.Some?)
            && (v.self.Some? ==> temp[SELF] == EncodeLink(v.self.value))
            && (CURIES in temp <==> |v.curies| > 0)
            && (|v.curies| > 0 ==> temp[CURIES] == EncodeCuries(v.curies))
            && temp - {CURIES, SELF} == RelationValues(v.relations)
  {
    var head := SelfMembers(v) + CurieMembers(v);
    var rs := RelationMembers(v.relations, SortedOf(v.relations.Keys));
    assert EncodeLinks(v).members == head + rs;
    RelationMembersMap(v.relations);
    HeadMap(v);
    ToMapAppend(head, rs);
    MergeHead(ToMap(head), RelationValues(v.relations));
  }

  /** Relations written after `self` and `curies` neither hide them nor are hidden. */
  lemma MergeHead(head: map<string, Json>, rels: map<string, Json>)
    requires head.Keys <= {SELF, CURIES} && SELF !in rels && CURIES !in rels
    ensures forall k :: k in head ==> k in head + rels && (head + rels)[k] == head[k]
    ensures SELF in head + rels <==> SELF in head
    ensures CURIES in head + rels <==> CURIES in head
    ensures (head + rels) - {CURIES, SELF} == rels
  {
  }

  /** A non-empty curie list reads back through the lenient loop. */
  lemma CuriesReadBack(cs: seq<CurieValue>)
    ensures DecodeCuriesLenient(EncodeCuries(cs)) == Success(cs)
  {
    var j := EncodeCuries(cs);
    forall i | 0 <= i < |cs|
      ensures DecodeCurieLenient(ToMap(j.items[i].members)) == cs[i]
    {
      CurieLenientRoundTrip(cs[i]);
    }
    var r := DecodeCuriesLenient(j);
    assert r.Success?;
    assert r.value == cs;
  }

  /** The self link reads back as its href alone. */
  lemma SelfReadBack(l: Link)
    ensures DecodeSelf(EncodeLink(l)) == Success(HrefOnly(l.href))
  {
    LinkRoundTrip(l);
  }

  /** A non-empty list of links reads back. */
  lemma LinkListReadBack(ls: seq<Link>)
    requires ls != []
    ensures DecodeLinkList(EncodeLinkList(ls)) == Success(ls)
  {
    var j := EncodeLinkList(ls);
    forall i | 0 <= i < |ls|
      ensures DecodeLink(ToMap(j.items[i].members)) == ls[i]
    {
      LinkRoundTrip(ls[i]);
    }
    var r := DecodeLinkList(j);
    assert r.Success?;
    assert r.value == ls;
  }

  /** The relations read back when each has links. */
  lemma RelationsReadBack(rels: map<string, seq<Link>>)
    requires forall k :: k in rels ==> rels[k] != []
    ensures DecodeRelations(RelationValues(rels)) == Success(rels)
  {
    var rv := RelationValues(rels);
    forall k | k in rv
      ensures DecodeLinkList(rv[k]) == Success(rels[k])
    {
      LinkListReadBack(rels[k]);
    }
    var r := DecodeRelations(rv);
    assert r.Success?;
    assert r.value == rels;
  }

  /**
   * Decoding the encoding gives the links back, with `self` reduced to
   * its href, provided every relation has links and none is named
   * `self` or `curies`.
   */
  lemma LinksRoundTrip(v: LinksValue)
    requires SELF !in v.relations && CURIES !in v.relations
    requires forall k :: k in v.relations ==> v.relations[k] != []
    ensures DecodeLinksInto(EmptyLinks, EncodeLinks(v)) ==
              Success(v.(self := if v.self.Some? then Some(HrefOnly(v.self.value.href)) else None))
  {
    EncodedLinksMap(v);
    CuriesReadBack(v.curies);
    if v.self.Some? {
      SelfReadBack(v.self.value);
    }
    RelationsReadBack(v.relations);
  }

  /** A relation left with no links (as decoding `[]` makes it) is written as null, which does not read back. */
  lemma EmptyRelationDoesNotReadBack(v: LinksValue, rel: string)
    requires SELF !in v.relations && CURIES !in v.relations
    requires rel in v.relations && v.relations[rel] == []
    ensures DecodeLinksInto(EmptyLinks, EncodeLinks(v)).Failure?
  {
    EncodedLinksMap(v);
    var rest := ToMap(EncodeLinks(v).members) - {CURIES, SELF};
    assert rest[rel] == RelationValues(v.relations)[rel];
    assert DecodeLinkList(rest[rel]).Failure?;
    assert DecodeRelations(rest).Failure?;
  }

  /** Decoding `[]` under a relation gives it no links. */
  lemma EmptyArrayGivesNoLinks(rel: string)
    requires rel != SELF && rel != CURIES
    ensures DecodeLinksInto(EmptyLinks, Obj([Member(rel, Arr([]))])) == Success(EmptyLinks.(relations := map[rel := []]))
  {
    var ms := [Member(rel, Arr([]))];
    assert ms[..0] == [];
    var temp := ToMap(ms);
    assert temp == ToMap(ms[..0])[rel := Arr([])];
    assert temp == map[rel := Arr([])];
    assert temp - {CURIES, SELF} == temp;
    var r := DecodeRelations(temp);
    assert r.Success? && r.value == map[rel := []];
  }

  /** The links container of a resource: `Links` behind a pointer. */
  class Links {
    var self: Option<Link>
    var curies: seq<CurieValue>
    var relations: map<string, seq<Link>>

    /** NewLinks. */
    constructor ()
      ensures Value() == EmptyLinks
    {
      self, curies, relations := None, [], map[];
    }

    function Value(): LinksValue
      reads this
    {
      LinksValue(self, curies, relations)
    }

    /** Appends a copy of the curie; always succeeds. */
    method AddCurie(c: Curie) returns (err: Option<Error>)
      modifies this
      ensures err == None
      ensures Value() == WithCurie(old(Value()), c.Value())
    {
      curies := curies + [c.Value()];
      err := None;
    }

    /** Adds a link under a relation type, after the curie check. */
    method AddLink(rel: string, link: Link) returns (err: Option<Error>)
      modifies this
      ensures WithLink(old(Value()), rel, link).Success? ==> err == None && Value() == WithLink(old(Value()), rel, link).value
      ensures WithLink(old(Value()), rel, link).Failure? ==> err == Some(ErrNoCurie) && Value() == old(Value())
    {
      var open := CheckGate(curies, rel);
      if !open {
        return Some(ErrNoCurie);
      }
      if rel !in relations {
        relations := relations[rel := []];
      }
      relations := relations[rel := relations[rel] + [link]];
      err := None;
    }

    method MarshalJSON() returns (j: Json)
      ensures j == EncodeLinks(Value())
    {
      j := MarshalLinks(Value());
    }

    /**
     * Decodes into this container: `curies` and `self` first, when
     * present, then the relations into a fresh map.  A failure leaves what
     * was already decoded in place.
     */
    method UnmarshalJSON(j: Json) returns (err: Option<Error>)
      modifies this
      ensures var r := DecodeLinksInto(old(Value()), j);
              && (err.None? <==> r.Success?)
              && (r.Success? ==> Value() == r.value)
              && (r.Failure? ==> err == Some(r.error))
      ensures AsObject(j).Failure? ==> Value() == old(Value())
      ensures AsObject(j).Success? ==>
                var temp := AsObject(j).value;
                var cs := if CURIES in temp then DecodeCuriesLenient(temp[CURIES]) else Success(old(curies));
                var selfFails := SELF in temp && DecodeSelf(temp[SELF]).Failure?;
                && (cs.Failure? ==> Value() == old(Value()))
                && (cs.Success? ==> curies == cs.value)
                && (cs.Success? && selfFails ==> self == old(self) && relations == old(relations))
                && (cs.Success? && !selfFails ==>
                      && self == (if SELF in temp then Some(DecodeSelf(temp[SELF]).value) else old(self))
                      && forall k :: k in relations ==>
                           k in temp && k != CURIES && k != SELF && DecodeLinkList(temp[k]) == Success(relations[k]))
    {
      var decoded := AsObject(j);
      if decoded.Failure? {
        return Some(decoded.error);
      }
      var temp := decoded.value;
      if CURIES in temp {
        var cs := DecodeCuriesLenient(temp[CURIES]);
        if cs.Failure? {
          return Some(cs.error);
        }
        curies := cs.value;
        temp := temp - {CURIES};
      }
      if SELF in temp {
        var s := DecodeSelf(temp[SELF]);
        if s.Failure? {
          return Some(s.error);
        }
        self := Some(s.value);
        temp := temp - {SELF};
      }
      assert temp == decoded.value - {CURIES, SELF};
      relations, err := DecodeRelationsLoop(temp);
    }
  }

  /**
   * The relation loop of Links.UnmarshalJSON.  The keys are taken in no
   * particular order, as Go's map iteration does; the order only decides
   * which failing relation is met first and how much is decoded by then.
   */
  method DecodeRelationsLoop(temp: map<string, Json>) returns (decoded: map<string, seq<Link>>, err: Option<Error>)
    ensures err.None? <==> DecodeRelations(temp).Success?
    ensures err.None? ==> decoded == DecodeRelations(temp).value
    ensures forall k :: k in decoded ==> k in temp && DecodeLinkList(temp[k]) == Success(decoded[k])
    ensures err.Some? ==> err == Some(Malformed) && decoded.Keys <= temp.Keys
  {
    decoded := map[];
    var rest := temp.Keys;
    while rest != {}
      invariant rest <= temp.Keys
      invariant decoded.Keys == temp.Keys - rest
      invariant forall k :: k in decoded ==> DecodeLinkList(temp[k]) == Success(decoded[k])
      decreases |rest|
    {
      var rel :| rel in rest;
      var links := DecodeLinkList(temp[rel]);
      if links.Failure? {
        return decoded, Some(links.error);
      }
      decoded := decoded[rel := links.value];
      rest := rest - {rel};
    }
    SameDecodedRelations(temp, decoded);
    err := None;
  }

  lemma SameDecodedRelations(temp: map<string, Json>, decoded: map<string, seq<Link>>)
    requires decoded.Keys == temp.Keys
    requires forall k :: k in decoded ==> DecodeLinkList(temp[k]) == Success(decoded[k])
    ensures DecodeRelations(temp) == Success(decoded)
  {
    var r := DecodeRelations(temp);
    assert r.Success?;
    assert r.value == decoded;
  }
}
