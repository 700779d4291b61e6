/**
 * The links container of the original (root package) codec.  Optional
 * link properties are pointers, so an empty string that was set is kept
 * apart from one that was never set; the curie list is a pointer to a
 * slice; and decoding asserts the type of every value it reads, so a
 * value of the wrong shape is a Go panic rather than an error.
 */
module LegacyLinks {
  import opened Json
  import opened Hal
  import opened Curies

  /**
   * The value of a root-package Link struct: every property but `href` is
   * a pointer (None when nil); there is no `name` property.  `mediaType`
   * is the `type` property.
   */
  datatype Link = Link(
    deprecation: Option<string>,
    href: string,
    hreflang: Option<string>,
    profile: Option<string>,
    templated: Option<bool>,
    title: Option<string>,
    mediaType: Option<string>)

  const ZeroLink := Link(None, "", None, None, None, None, None)

  /** `&Link{Href: href}`. */
  function HrefOnly(href: string): (l: Link)
    ensures l.href == href && l.(href := "") == ZeroLink
  {
    ZeroLink.(href := href)
  }

  /** The member for a pointer property: written exactly when the pointer is set. */
  function PointerMember(key: string, v: Option<string>): seq<Member> {
    if v.Some? then [Member(key, Str(v.value))] else []
  }

  /** `href` is a plain string: written unless empty. */
  function HrefMember(href: string): seq<Member> {
    if href != "" then [Member(HREF, Str(href))] else []
  }

  function TemplatedMember(v: Option<bool>): seq<Member> {
    if v.Some? then [Member(TEMPLATED, Bool(v.value))] else []
  }

  /** Reading a pointer property's member after `m`. */
  function PutString(m: map<string, Json>, key: string, v: Option<string>): map<string, Json> {
    if v.Some? then m[key := Str(v.value)] else m
  }

  /** The properties the encoding of a link shows, as they read back. */
  function ShownLinkFields(l: Link): map<string, Json> {
    var d := PutString(map[], DEPRECATION, l.deprecation);
    var h := if l.href != "" then d[HREF := Str(l.href)] else d;
    var hl := PutString(h, HREFLANG, l.hreflang);
    var p := PutString(hl, PROFILE, l.profile);
    var t := if l.templated.Some? then p[TEMPLATED := Bool(l.templated.value)] else p;
    var ti := PutString(t, TITLE, l.title);
    PutString(ti, TYPE, l.mediaType)
  }

  lemma AppendMember(ms: seq<Member>, m: Member)
    ensures ToMap(ms + [m]) == ToMap(ms)[m.key := m.value]
  {
    assert (ms + [m])[..|ms|] == ms;
  }

  lemma AppendPointer(ms: seq<Member>, key: string, v: Option<string>)
    ensures ToMap(ms + PointerMember(key, v)) == PutString(ToMap(ms), key, v)
  {
    if v.Some? {
      AppendMember(ms, Member(key, Str(v.value)));
    } else {
      assert ms + [] == ms;
    }
  }

  lemma AppendHref(ms: seq<Member>, href: string)
    ensures ToMap(ms + HrefMember(href)) == if href != "" then ToMap(ms)[HREF := Str(href)] else ToMap(ms)
  {
    if href != "" {
      AppendMember(ms, Member(HREF, Str(href)));
    } else {
      assert ms + [] == ms;
    }
  }

  lemma AppendTemplated(ms: seq<Member>, v: Option<bool>)
    ensures ToMap(ms + TemplatedMember(v)) == if v.Some? then ToMap(ms)[TEMPLATED := Bool(v.value)] else ToMap(ms)
  {
    if v.Some? {
      AppendMember(ms, Member(TEMPLATED, Bool(v.value)));
    } else {
      assert ms + [] == ms;
    }
  }

  /**
   * The object encoding/json writes for a Link, in struct field order:
   * `omitempty` drops a nil pointer and an empty href, so a set pointer
   * is written even when it points to "" or false.
   */
  function EncodeLink(l: Link): (j: Json)
    ensures j.Obj? && ToMap(j.members) == ShownLinkFields(l)
  {
    var d := PointerMember(DEPRECATION, l.deprecation);
    var h := d + HrefMember(l.href);
    var hl := h + PointerMember(HREFLANG, l.hreflang);
    var p := hl + PointerMember(PROFILE, l.profile);
    var t := p + TemplatedMember(l.templated);
    var ti := t + PointerMember(TITLE, l.title);
    var ty := ti + PointerMember(TYPE, l.mediaType);
    AppendPointer([], DEPRECATION, l.deprecation);
    assert [] + PointerMember(DEPRECATION, l.deprecation) == d;
    AppendHref(d, l.href);
    AppendPointer(h, HREFLANG, l.hreflang);
    AppendPointer(hl, PROFILE, l.profile);
    AppendTemplated(p, l.templated);
    AppendPointer(t, TITLE, l.title);
    AppendPointer(ti, TYPE, l.mediaType);
    Obj(ty)
  }

  /*
   * Decoding with unchecked type assertions.
   */

  /** A string property: absent is nil, a string is set, anything else panics. */
  function StringPointer(props: map<string, Json>, key: string): (r: Result<Option<string>>)
    ensures r.Failure? <==> key in props && !props[key].Str?
    ensures r.Failure? ==> r.error == Panic
    ensures r.Success? ==> (r.value.Some? <==> key in props) && (r.value.Some? ==> props[key] == Str(r.value.value))
  {
    if key !in props then Success(None)
    else if props[key].Str? then Success(Some(props[key].s))
    else Failure(Panic)
  }

  /** The bool property `templated`, read the same way. */
  function BoolPointer(props: map<string, Json>, key: string): (r: Result<Option<bool>>)
    ensures r.Failure? <==> key in props && !props[key].Bool?
    ensures r.Failure? ==> r.error == Panic
    ensures r.Success? ==> (r.value.Some? <==> key in props) && (r.value.Some? ==> props[key] == Bool(r.value.value))
  {
    if key !in props then Success(None)
    else if props[key].Bool? then Success(Some(props[key].b))
    else Failure(Panic)
  }

  /** The properties a Link knows; every other key is skipped. */
  const StringProperties := {DEPRECATION, HREF, HREFLANG, PROFILE, TITLE, TYPE}

  /** Every known property holds a value of its type. */
  predicate WellTyped(props: map<string, Json>) {
    && (forall k :: k in props && k in StringProperties ==> props[k].Str?)
    && (TEMPLATED in props ==> props[TEMPLATED].Bool?)
  }

  /**
   * The property loop of UnmarshalJSON for one link: a known property
   * sets its field (a pointer one to a fresh copy), after asserting its
   * type.
   */
  function DecodeLink(props: map<string, Json>): (r: Result<Link>)
    ensures r.Success? <==> WellTyped(props)
    ensures r.Failure? ==> r.error == Panic
  {
    var deprecation :- StringPointer(props, DEPRECATION);
    var href :- StringPointer(props, HREF);
    var hreflang :- StringPointer(props, HREFLANG);
    var profile :- StringPointer(props, PROFILE);
    var templated :- BoolPointer(props, TEMPLATED);
    var title :- StringPointer(props, TITLE);
    var mediaType :- StringPointer(props, TYPE);
    Success(Link(deprecation, if href.Some? then href.value else "", hreflang, profile, templated, title, mediaType))
  }

  /** A decoded optional property is set exactly when its key is present. */
  lemma PresenceDecidesPointers(props: map<string, Json>)
    requires DecodeLink(props).Success?
    ensures var l := DecodeLink(props).value;
            && (l.deprecation.Some? <==> DEPRECATION in props)
            && (l.hreflang.Some? <==> HREFLANG in props)
            && (l.profile.Some? <==> PROFILE in props)
            && (l.templated.Some? <==> TEMPLATED in props)
            && (l.title.Some? <==> TITLE in props)
            && (l.mediaType.Some? <==> TYPE in props)
            && (l.href == if HREF in props then props[HREF].s else "")
  {
  }

  /** `name` is not a property of this Link: it is skipped, whatever its value. */
  lemma NameIgnored(props: map<string, Json>, v: Json)
    ensures DecodeLink(props[NAME := v]) == DecodeLink(props)
  {
    assert NAME !in StringProperties && NAME != TEMPLATED;
    var p := props[NAME := v];
    assert forall k :: k != NAME ==> (k in p <==> k in props) && (k in p ==> p[k] == props[k]);
  }

  /** A known property of the wrong type panics. */
  lemma WrongTypePanics(props: map<string, Json>, key: string, v: Json)
    requires key in StringProperties && !v.Str?
    ensures DecodeLink(props[key := v]) == Failure(Panic)
  {
    assert !WellTyped(props[key := v]);
  }

  lemma PropertyNamesDistinct()
    ensures DEPRECATION != HREF && DEPRECATION != HREFLANG && DEPRECATION != PROFILE
    ensures DEPRECATION != TEMPLATED && DEPRECATION != TITLE && DEPRECATION != TYPE
    ensures HREF != HREFLANG && HREF != PROFILE && HREF != TEMPLATED && HREF != TITLE && HREF != TYPE
    ensures HREFLANG != PROFILE && HREFLANG != TEMPLATED && HREFLANG != TITLE && HREFLANG != TYPE
    ensures PROFILE != TEMPLATED && PROFILE != TITLE && PROFILE != TYPE
    ensures TEMPLATED != TITLE && TEMPLATED != TYPE && TITLE != TYPE
  {
    assert |DEPRECATION| == 11 && |HREF| == 4 && |HREFLANG| == 8 && |PROFILE| == 7;
    assert |TEMPLATED| == 9 && |TITLE| == 5 && |TYPE| == 4;
    assert HREF[0] != TYPE[0];
  }

  /** Each property of the encoding, looked up by name. */
  lemma ShownLinkLookup(l: Link)
    ensures var m := ShownLinkFields(l);
            && (DEPRECATION in m <==> l.deprecation.Some?)
            && (l.deprecation.Some? ==> m[DEPRECATION] == Str(l.deprecation.value))
            && (HREF in m <==> l.href != "")
            && (l.href != "" ==> m[HREF] == Str(l.href))
            && (HREFLANG in m <==> l.hreflang.Some?)
            && (l.hreflang.Some? ==> m[HREFLANG] == Str(l.hreflang.value))
            && (PROFILE in m <==> l.profile.Some?)
            && (l.profile.Some? ==> m[PROFILE] == Str(l.profile.value))
            && (TEMPLATED in m <==> l.templated.Some?)
            && (l.templated.Some? ==> m[TEMPLATED] == Bool(l.templated.value))
            && (TITLE in m <==> l.title.Some?)
            && (l.title.Some? ==> m[TITLE] == Str(l.title.value))
            && (TYPE in m <==> l.mediaType.Some?)
            && (l.mediaType.Some? ==> m[TYPE] == Str(l.mediaType.value))
  {
    PropertyNamesDistinct();
  }

  /** A link read back from its own encoding is the same link, set-but-empty properties included. */
  lemma LinkRoundTrip(l: Link)
    ensures DecodeLink(ToMap(EncodeLink(l).members)) == Success(l)
  {
    var m := ShownLinkFields(l);
    ShownLinkLookup(l);
    assert StringPointer(m, DEPRECATION) == Success(l.deprecation);
    assert StringPointer(m, HREF) == Success(if l.href != "" then Some(l.href) else None);
    assert StringPointer(m, HREFLANG) == Success(l.hreflang);
    assert StringPointer(m, PROFILE) == Success(l.profile);
    assert BoolPointer(m, TEMPLATED) == Success(l.templated);
    assert StringPointer(m, TITLE) == Success(l.title);
    assert StringPointer(m, TYPE) == Success(l.mediaType);
  }

  /** One curie of `curies` inside `_links`: an object whose known fields have their types. */
  function DecodeCurieStrict(j: Json): (r: Result<CurieValue>)
    ensures r.Failure? ==> r.error == Panic
    ensures !j.Obj? ==> r.Failure?
  {
    if !j.Obj? then Failure(Panic)
    else
      var m := ToMap(j.members);
      if (NAME in m && !m[NAME].Str?) || (HREF in m && !m[HREF].Str?) || (TEMPLATED in m && !m[TEMPLATED].Bool?) then Failure(Panic)
      else Success(CurieValue(LenientString(m, NAME), LenientString(m, HREF), LenientBool(m, TEMPLATED)))
  }

  /**
   * `curies` inside `_links`: an array of curie objects.  The curies are
   * appended to a nil slice, so an empty array gives a nil slice.
   */
  function DecodeCuriesStrict(j: Json): (r: Result<Slice<CurieValue>>)
    ensures r.Failure? ==> r.error == Panic
    ensures !j.Arr? ==> r.Failure?
    ensures j == Arr([]) ==> r == Success(Nil)
    ensures r.Success? && j.Arr? && j.items != [] ==>
              r.value.Slice? && |r.value.elems| == |j.items| &&
              forall i :: 0 <= i < |j.items| ==> DecodeCurieStrict(j.items[i]) == Success(r.value.elems[i])
  {
    if !j.Arr? then Failure(Panic)
    else
      var cs :- Sequence(seq(|j.items|, i requires 0 <= i < |j.items| => DecodeCurieStrict(j.items[i])));
      Success(if cs == [] then Nil else Slice(cs))
  }

  /** `self`: an object whose `href`, if present, is a string; other keys are not looked at. */
  function DecodeSelfStrict(j: Json): (r: Result<Link>)
    ensures r.Failure? ==> r.error == Panic
    ensures r.Success? <==> j.Obj? && (HREF in ToMap(j.members) ==> ToMap(j.members)[HREF].Str?)
    ensures r.Success? ==> r.value == HrefOnly(LenientString(ToMap(j.members), HREF))
  {
    if !j.Obj? then Failure(Panic)
    else
      var m := ToMap(j.members);
      if HREF in m && !m[HREF].Str? then Failure(Panic)
      else Success(HrefOnly(LenientString(m, HREF)))
  }

  /** One relation: an array of link objects; an empty array gives a nil slice. */
  function DecodeLinkList(j: Json): (r: Result<seq<Link>>)
    ensures r.Failure? ==> r.error == Panic
    ensures r.Success? <==> j.Arr? && forall i :: 0 <= i < |j.items| ==> j.items[i].Obj? && WellTyped(ToMap(j.items[i].members))
    ensures r.Success? ==>
              |r.value| == |j.items| &&
              forall i :: 0 <= i < |j.items| ==> DecodeLink(ToMap(j.items[i].members)) == Success(r.value[i])
  {
    if !j.Arr? || exists i :: 0 <= i < |j.items| && !j.items[i].Obj? then Failure(Panic)
    else
      var rs := seq(|j.items|, i requires 0 <= i < |j.items| => DecodeLink(ToMap(j.items[i].members)));
      assert forall i :: 0 <= i < |j.items| ==> rs[i] == DecodeLink(ToMap(j.items[i].members));
      Sequence(rs)
  }

  /** Every member left over is a relation. */
  function DecodeRelations(temp: map<string, Json>): (r: Result<map<string, seq<Link>>>)
    ensures r.Success? <==> forall k :: k in temp ==> DecodeLinkList(temp[k]).Success?
    ensures r.Failure? ==> r.error == Panic
    ensures r.Success? ==>
              (r.value.Keys == temp.Keys &&
               forall k :: k in temp ==> r.value[k] == DecodeLinkList(temp[k]).value)
  {
    if forall k :: k in temp ==> DecodeLinkList(temp[k]).Success? then
      Success(map k | k in temp :: DecodeLinkList(temp[k]).value)
    else Failure(Panic)
  }

  /** The links container as a value; `curies` is the `*[]Curie` pointer. */
  datatype LinksValue = LinksValue(
    self: Option<Link>,
    curies: Option<Slice<CurieValue>>,
    relations: map<string, seq<Link>>)

  /** NewLinks: no self link, a nil curie pointer, no relations. */
  const EmptyLinks := LinksValue(None, None, map[])

  /** The registered curies; a nil pointer has none. */
  function CurieList(v: LinksValue): seq<CurieValue> {
    if v.curies.Some? then v.curies.value.Elems() else []
  }

  function LinksOf(v: LinksValue, rel: string): seq<Link> {
    if rel in v.relations then v.relations[rel] else []
  }

  /** AddCurie: allocates the list on first use, then appends a copy. */
  function WithCurie(v: LinksValue, c: CurieValue): (r: LinksValue)
    ensures r.curies.Some? && r.curies.value.Slice?
    ensures CurieList(r) == CurieList(v) + [c]
    ensures r.self == v.self && r.relations == v.relations
  {
    v.(curies := Some(Slice(CurieList(v) + [c])))
  }

  /**
   * AddLink: the same gate as the v3 codec (a nil curie pointer registers
   * nothing); on success the link goes at the end of the relation's list.
   */
  function WithLink(v: LinksValue, rel: string, l: Link): (r: Result<LinksValue>)
    ensures r.Success? <==> GateOpen(CurieList(v), rel)
    ensures r.Failure? ==> r.error == ErrNoCurie
    ensures r.Success? ==> r.value.self == v.self && r.value.curies == v.curies
    ensures r.Success? ==> r.value.relations.Keys == v.relations.Keys + {rel}
    ensures r.Success? ==> r.value.relations[rel] == LinksOf(v, rel) + [l]
    ensures r.Success? ==> forall k :: k in v.relations && k != rel ==> r.value.relations[k] == v.relations[k]
  {
    if !GateOpen(CurieList(v), rel) then Failure(ErrNoCurie)
    else Success(v.(relations := v.relations[rel := LinksOf(v, rel) + [l]]))
  }

  /** Without a curie pointer every curied relation type is refused. */
  lemma NoCuriesRefusesCuried(v: LinksValue, rel: string, l: Link)
    requires v.curies.None? && IsCuried(rel)
    ensures WithLink(v, rel, l) == Failure(ErrNoCurie)
  {
  }

  /*
   * Encoding.
   */

  /** `json.Marshal` of a `*[]Curie` that is not nil: a nil slice is null. */
  function EncodeCurieSlice(cs: Slice<CurieValue>): (j: Json)
    ensures cs.Nil? ==> j == Null
    ensures cs.Slice? ==> j == EncodeCuries(cs.elems)
  {
    match cs
    case Nil => Null
    case Slice(s) => EncodeCuries(s)
  }

  /** `json.Marshal` of a `[]*Link`: a nil slice is null. */
  function EncodeLinkList(ls: seq<Link>): (j: Json)
    ensures ls == [] ==> j == Null
    ensures ls != [] ==> j.Arr? && |j.items| == |ls| &&
                         forall i :: 0 <= i < |ls| ==> j.items[i] == EncodeLink(ls[i])
  {
    if ls == [] then Null
    else Arr(seq(|ls|, i requires 0 <= i < |ls| => EncodeLink(ls[i])))
  }

  /** The members for the relation keys `ks`, in that order. */
  function RelationMembers(rels: map<string, seq<Link>>, ks: seq<string>): (ms: seq<Member>)
    requires forall k :: k in ks ==> k in rels
    ensures |ms| == |ks|
    ensures forall i :: 0 <= i < |ks| ==> ms[i] == Member(ks[i], EncodeLinkList(rels[ks[i]]))
  {
    if ks == [] then []
    else RelationMembers(rels, ks[..|ks| - 1]) + [Member(ks[|ks| - 1], EncodeLinkList(rels[ks[|ks| - 1]]))]
  }

  /** One more key of `ks` adds its member at the end. */
  lemma RelationMembersStep(rels: map<string, seq<Link>>, ks: seq<string>, i: nat)
    requires forall k :: k in ks ==> k in rels
    requires i < |ks|
    ensures ks[i] in rels
    ensures RelationMembers(rels, ks[..i + 1]) == RelationMembers(rels, ks[..i]) + [Member(ks[i], EncodeLinkList(rels[ks[i]]))]
  {
    assert ks[..i + 1] == ks[..i] + [ks[i]];
    RelationMembersSnoc(rels, ks[..i], ks[i]);
  }

  lemma RelationMembersSnoc(rels: map<string, seq<Link>>, ks: seq<string>, k: string)
    requires forall k' :: k' in ks ==> k' in rels
    requires k in rels
    ensures RelationMembers(rels, ks + [k]) == RelationMembers(rels, ks) + [Member(k, EncodeLinkList(rels[k]))]
  {
    assert (ks + [k])[..|ks|] == ks;
  }

  lemma RelationMembersKeys(rels: map<string, seq<Link>>, ks: seq<string>)
    requires forall k :: k in ks ==> k in rels
    ensures Keys(RelationMembers(rels, ks)) == ks
  {
  }

  function SelfMembers(v: LinksValue): seq<Member> {
    if v.self.Some? then [Member(SELF, EncodeLink(v.self.value))] else []
  }

  /** `curies` is written whenever the pointer is set, even to an empty or nil slice. */
  function CurieMembers(v: LinksValue): seq<Member> {
    if v.curies.Some? then [Member(CURIES, EncodeCurieSlice(v.curies.value))] else []
  }

  /** Links.MarshalJSON: `self`, then `curies`, then the relations by key. */
  function EncodeLinks(v: LinksValue): (j: Json)
    ensures j.Obj?
  {
    Obj(SelfMembers(v) + CurieMembers(v) + RelationMembers(v.relations, SortedOf(v.relations.Keys)))
  }

  /**
   * The layout of the encoding: `self` first exactly when it is set,
   * then `curies` exactly when the pointer is set, then every relation key
   * once, in strictly ascending order.
   */
  lemma EncodeLinksLayout(v: LinksValue)
    ensures var ms := EncodeLinks(v).members;
            var s := if v.self.Some? then 1 else 0;
            var h := s + if v.curies.Some? then 1 else 0;
            && |ms| == h + |v.relations|
            && (v.self.Some? ==> ms[0] == Member(SELF, EncodeLink(v.self.value)))
            && (v.curies.Some? ==> ms[s] == Member(CURIES, EncodeCurieSlice(v.curies.value)))
            && Keys(ms[h..]) == SortedOf(v.relations.Keys)
            && StrictlySorted(Keys(ms[h..]))
            && (forall i :: h <= i < |ms| ==> ms[i].key in v.relations && ms[i].value == EncodeLinkList(v.relations[ms[i].key]))
  {
    var head := SelfMembers(v) + CurieMembers(v);
    var rs := RelationMembers(v.relations, SortedOf(v.relations.Keys));
    assert EncodeLinks(v).members == head + rs;
    HeadLayout(v);
    RelationsLayout(v.relations);
    AfterHead(head, rs);
  }

  lemma HeadLayout(v: LinksValue)
    ensures var head := SelfMembers(v) + CurieMembers(v);
            var s := if v.self.Some? then 1 else 0;
            && |head| == s + (if v.curies.Some? then 1 else 0)
            && (v.self.Some? ==> head[0] == Member(SELF, EncodeLink(v.self.value)))
            && (v.curies.Some? ==> head[s] == Member(CURIES, EncodeCurieSlice(v.curies.value)))
  {
  }

  lemma RelationsLayout(rels: map<string, seq<Link>>)
    ensures var rs := RelationMembers(rels, SortedOf(rels.Keys));
            && |rs| == |rels|
            && Keys(rs) == SortedOf(rels.Keys)
            && StrictlySorted(Keys(rs))
            && (forall i :: 0 <= i < |rs| ==> rs[i].key in rels && rs[i].value == EncodeLinkList(rels[rs[i].key]))
  {
    var ks := SortedOf(rels.Keys);
    RelationMembersKeys(rels, ks);
    SortedOfAscending(rels.Keys);
  }

  /** An empty but allocated curie list is still written, as `[]`, unlike the v3 codec. */
  lemma EmptyCuriesWritten(v: LinksValue)
    requires v.curies == Some(Slice([]))
    ensures Member(CURIES, Arr([])) in EncodeLinks(v).members
  {
    EncodeLinksLayout(v);
    var s := if v.self.Some? then 1 else 0;
    assert EncodeLinks(v).members[s] == Member(CURIES, Arr([]));
  }

  /** The relation loop of Links.MarshalJSON: the keys filled in by index, sorted, then one member per key. */
  method MarshalRelations(rels: map<string, seq<Link>>) returns (ms: seq<Member>)
    ensures ms == RelationMembers(rels, SortedOf(rels.Keys))
  {
    ms := [];
    var sortedKeys := SortedKeys(rels.Keys);
    assert forall k :: k in sortedKeys ==> k in rels;
    var i := 0;
    while i < |sortedKeys|
      invariant 0 <= i <= |sortedKeys|
      invariant ms == RelationMembers(rels, sortedKeys[..i])
    {
      var key := sortedKeys[i];
      RelationMembersStep(rels, sortedKeys, i);
      ms := ms + [Member(key, EncodeLinkList(rels[key]))];
      i := i + 1;
    }
    assert sortedKeys[..i] == sortedKeys;
  }

  /*
   * Decoding.
   */

  /**
   * Links.UnmarshalJSON on a container holding `base`: `curies` and
   * `self` are replaced when present (null included, which panics), the
   * relations always.
   */
  function DecodeLinksInto(base: LinksValue, j: Json): (r: Result<LinksValue>)
    ensures r.Failure? ==> r.error == Malformed || r.error == Panic
    ensures AsObject(j).Failure? ==> r == Failure(Malformed)
    ensures r.Success? ==>
              (AsObject(j).Success? &&
               var temp := AsObject(j).value;
               && r.value.relations.Keys == temp.Keys - {CURIES, SELF}
               && (CURIES !in temp ==> r.value.curies == base.curies)
               && (CURIES in temp ==> r.value.curies.Some?)
               && (SELF !in temp ==> r.value.self == base.self)
               && (SELF in temp ==> r.value.self.Some? && r.value.self.value.(href := "") == ZeroLink))
    ensures AsObject(j).Success? && CURIES in AsObject(j).value && AsObject(j).value[CURIES].Null? ==> r == Failure(Panic)
  {
    var temp :- AsObject(j);
    var curies :- if CURIES in temp then (var cs :- DecodeCuriesStrict(temp[CURIES]); Success(Some(cs))) else Success(base.curies);
    var self :- if SELF in temp then (var s :- DecodeSelfStrict(temp[SELF]); Success(Some(s))) else Success(base.self);
    var relations :- DecodeRelations(temp - {CURIES, SELF});
    Success(LinksValue(self, curies, relations))
  }

  /*
   * Reading the encoding back.
   */

  function ReadSelf(v: LinksValue): (v': LinksValue)
    ensures v'.curies == v.curies && v'.relations == v.relations
    ensures v'.self.Some? <==> v.self.Some?
    ensures v.self.Some? ==> v'.self.value == HrefOnly(v.self.value.href)
  {
    v.(self := if v.self.Some? then Some(HrefOnly(v.self.value.href)) else None)
  }

  /** Each field of a curie's encoding, looked up by name. */
  lemma ShownCurieLookup(c: CurieValue)
    ensures var m := ShownFields(c);
            && (NAME in m <==> c.name != "") && (NAME in m ==> m[NAME] == Str(c.name))
            && (HREF in m <==> c.href != "") && (HREF in m ==> m[HREF] == Str(c.href))
            && (TEMPLATED in m <==> c.templated) && (TEMPLATED in m ==> m[TEMPLATED] == Bool(true))
  {
    assert NAME[0] != HREF[0] && |TEMPLATED| == 9;
  }

  /** A curie reads back from its own encoding. */
  lemma CurieStrictRoundTrip(c: CurieValue)
    ensures DecodeCurieStrict(EncodeCurie(c)) == Success(c)
  {
    var m := ShownFields(c);
    ShownCurieLookup(c);
    assert LenientString(m, NAME) == c.name;
    assert LenientString(m, HREF) == c.href;
    assert LenientBool(m, TEMPLATED) == c.templated;
  }

  /** `self` reads back as its href alone. */
  lemma SelfReadBack(l: Link)
    ensures DecodeSelfStrict(EncodeLink(l)) == Success(HrefOnly(l.href))
  {
    ShownLinkLookup(l);
    assert LenientString(ShownLinkFields(l), HREF) == l.href;
  }

  /** A non-empty curie list reads back. */
  lemma CuriesReadBack(cs: seq<CurieValue>)
    requires cs != []
    ensures DecodeCuriesStrict(EncodeCuries(cs)) == Success(Slice(cs))
  {
    var j := EncodeCuries(cs);
    var rs := seq(|j.items|, i requires 0 <= i < |j.items| => DecodeCurieStrict(j.items[i]));
    forall i | 0 <= i < |cs|
      ensures rs[i] == Success(cs[i])
    {
      CurieStrictRoundTrip(cs[i]);
    }
    var r := Sequence(rs);
    assert r.Success?;
    assert r.value == cs;
  }

  /** A non-empty list of links reads back. */
  lemma LinkListReadBack(ls: seq<Link>)
    requires ls != []
    ensures DecodeLinkList(EncodeLinkList(ls)) == Success(ls)
  {
    var j := EncodeLinkList(ls);
    forall i | 0 <= i < |ls|
      ensures j.items[i].Obj? && DecodeLink(ToMap(j.items[i].members)) == Success(ls[i])
    {
      LinkRoundTrip(ls[i]);
    }
    var r := DecodeLinkList(j);
    assert r.Success?;
    assert r.value == ls;
  }

  /** The relation values as a map: what the relation members read back as. */
  function RelationValues(rels: map<string, seq<Link>>): (m: map<string, Json>)
    ensures m.Keys == rels.Keys
  {
    map k | k in rels :: EncodeLinkList(rels[k])
  }

  lemma {:induction false} RelationMembersRead(rels: map<string, seq<Link>>, ks: seq<string>)
    requires forall k :: k in ks ==> k in rels
    ensures forall k :: k in ToMap(RelationMembers(rels, ks)) <==> k in ks
    ensures forall k :: k in ToMap(RelationMembers(rels, ks)) ==> ToMap(RelationMembers(rels, ks))[k] == EncodeLinkList(rels[k])
  {
    if ks != [] {
      var init := ks[..|ks| - 1];
      var ms := RelationMembers(rels, ks);
      RelationMembersRead(rels, init);
      assert ms[..|ms| - 1] == RelationMembers(rels, init);
      assert forall k :: k in ks <==> k in init || k == ks[|ks| - 1];
    }
  }

  lemma RelationMembersMap(rels: map<string, seq<Link>>)
    ensures ToMap(RelationMembers(rels, SortedOf(rels.Keys))) == RelationValues(rels)
  {
    var ks := SortedOf(rels.Keys);
    RelationMembersRead(rels, ks);
    SameRelationValues(ToMap(RelationMembers(rels, ks)), rels);
  }

  lemma SameRelationValues(m: map<string, Json>, rels: map<string, seq<Link>>)
    requires m.Keys == rels.Keys
    requires forall k :: k in rels ==> m[k] == EncodeLinkList(rels[k])
    ensures m == RelationValues(rels)
  {
  }

  lemma HeadMap(v: LinksValue)
    ensures var head := ToMap(SelfMembers(v) + CurieMembers(v));
            && head.Keys <= {SELF, CURIES}
            && (SELF in head <==> v.self.Some?)
            && (v.self.Some? ==> head[SELF] == EncodeLink(v.self.value))
            && (CURIES in head <==> v.curies.Some?)
            && (v.curies.Some? ==> head[CURIES] == EncodeCurieSlice(v.curies.value))
  {
    ToMapAppend(SelfMembers(v), CurieMembers(v));
    assert SELF != CURIES by {
      assert SELF[0] != CURIES[0];
    }
  }

  lemma MergeHead(head: map<string, Json>, rels: map<string, Json>)
    requires head.Keys <= {SELF, CURIES} && SELF !in rels && CURIES !in rels
    ensures forall k :: k in head ==> k in head + rels && (head + rels)[k] == head[k]
    ensures SELF in head + rels <==> SELF in head
    ensures CURIES in head + rels <==> CURIES in head
    ensures (head + rels) - {CURIES, SELF} == rels
  {
  }

  /** What the encoding reads back as, when no relation is named `self` or `curies`. */
  lemma EncodedLinksMap(v: LinksValue)
    requires SELF !in v.relations && CURIES !in v.relations
    ensures var temp := ToMap(EncodeLinks(v).members);
            && (SELF in temp <==> v.self.Some?)
            && (v.self.Some? ==> temp[SELF] == EncodeLink(v.self.value))
            && (CURIES in temp <==> v.curies.Some?)
            && (v.curies.Some? ==> temp[CURIES] == EncodeCurieSlice(v.curies.value))
            && temp - {CURIES, SELF} == RelationValues(v.relations)
  {
    var head := SelfMembers(v) + CurieMembers(v);
    var rs := RelationMembers(v.relations, SortedOf(v.relations.Keys));
    assert EncodeLinks(v).members == head + rs;
    RelationMembersMap(v.relations);
    HeadMap(v);
    ToMapAppend(head, rs);
    MergeHead(ToMap(head), RelationValues(v.relations));
  }

  lemma RelationsReadBack(rels: map<string, seq<Link>>)
    requires forall k :: k in rels ==> rels[k] != []
    ensures DecodeRelations(RelationValues(rels)) == Success(rels)
  {
    var rv := RelationValues(rels);
    forall k | k in rels
      ensures DecodeLinkList(rv[k]) == Success(rels[k])
    {
      LinkListReadBack(rels[k]);
    }
    SameDecodedRelations(rv, rels);
  }

  /**
   * Decoding the encoding gives the links back, with `self` reduced to
   * its href, provided every relation has links, none is named `self` or
   * `curies`, and a set curie pointer holds at least one curie.
   */
  lemma LinksRoundTrip(v: LinksValue)
    requires SELF !in v.relations && CURIES !in v.relations
    requires forall k :: k in v.relations ==> v.relations[k] != []
    requires v.curies.Some? ==> v.curies.value.Slice? && v.curies.value.elems != []
    ensures DecodeLinksInto(EmptyLinks, EncodeLinks(v)) == Success(ReadSelf(v))
  {
    EncodedLinksMap(v);
    if v.curies.Some? {
      CuriesReadBack(v.curies.value.elems);
    }
    if v.self.Some? {
      SelfReadBack(v.self.value);
    }
    RelationsReadBack(v.relations);
  }

  /**
   * A curie pointer to a nil slice (what decoding `"curies": []` leaves)
   * is written as `"curies": null`, and decoding that panics.
   */
  lemma NilCuriesDoNotReadBack(v: LinksValue)
    requires SELF !in v.relations && CURIES !in v.relations
    requires v.curies == Some(Nil)
    ensures DecodeLinksInto(EmptyLinks, EncodeLinks(v)) == Failure(Panic)
  {
    EncodedLinksMap(v);
  }

  /** An allocated empty curie list is written as `[]` and reads back as a nil slice. */
  lemma EmptyCuriesReadBackNil(v: LinksValue)
    requires SELF !in v.relations && CURIES !in v.relations
    requires forall k :: k in v.relations ==> v.relations[k] != []
    requires v.curies == Some(Slice([]))
    ensures DecodeLinksInto(EmptyLinks, EncodeLinks(v)) == Success(ReadSelf(v).(curies := Some(Nil)))
  {
    EncodedLinksMap(v);
    if v.self.Some? {
      SelfReadBack(v.self.value);
    }
    RelationsReadBack(v.relations);
  }

  /** The links container of a resource: `Links` behind a pointer. */
  class Links {
    var self: Option<Link>
    var curies: Option<Slice<CurieValue>>
    var relations: map<string, seq<Link>>

    /** NewLinks. */
    constructor ()
      ensures Value() == EmptyLinks
    {
      self, curies, relations := None, None, map[];
    }

    function Value(): LinksValue
      reads this
    {
      LinksValue(self, curies, relations)
    }

    /** Allocates the curie list on first use, then appends a copy; always succeeds. */
    method AddCurie(c: Curie) returns (err: Option<Error>)
      modifies this
      ensures err == None
      ensures Value() == WithCurie(old(Value()), old(c.Value()))
    {
      if curies.None? {
        curies := Some(Slice([]));
      }
      curies := Some(Slice(curies.value.Elems() + [c.Value()]));
      err := None;
    }

    /**
     * Adds a link under a relation type.  A curied relation type needs a
     * curie pointer and a curie named after its prefix; the search looks
     * at every curie (it does not stop at the first match).
     */
    method AddLink(rel: string, link: Link) returns (err: Option<Error>)
      modifies this
      ensures WithLink(old(Value()), rel, link).Success? ==> err == None && Value() == WithLink(old(Value()), rel, link).value
      ensures WithLink(old(Value()), rel, link).Failure? ==> err == Some(ErrNoCurie) && Value() == old(Value())
    {
      if ColonIndex(rel) > 0 {
        var prefix := rel[..ColonIndex(rel)];
        if curies.None? {
          return Some(ErrNoCurie);
        }
        var cs := curies.value.Elems();
        var curieExists := false;
        var i := 0;
        while i < |cs|
          invariant 0 <= i <= |cs|
          invariant curieExists <==> exists n :: 0 <= n < i && cs[n].name == prefix
        {
          if prefix == cs[i].name {
            curieExists := true;
          }
          i := i + 1;
        }
        if !curieExists {
          return Some(ErrNoCurie);
        }
      }
      if rel !in relations {
        relations := relations[rel := []];
      }
      relations := relations[rel := relations[rel] + [link]];
      err := None;
    }

    /** `self`, then `curies` whenever the pointer is set, then the relations in ascending key order. */
    method MarshalJSON() returns (j: Json)
      ensures j == EncodeLinks(Value())
    {
      var buffer: seq<Member> := [];
      if self.Some? {
        buffer := buffer + [Member(SELF, EncodeLink(self.value))];
      }
      if curies.Some? {
        buffer := buffer + [Member(CURIES, EncodeCurieSlice(curies.value))];
      }
      assert buffer == SelfMembers(Value()) + CurieMembers(Value());
      var rs := MarshalRelations(relations);
      j := Obj(buffer + rs);
    }

    /**
     * Decodes into this container: `curies` and `self` first, when
     * present, then the relations into a fresh map.  A panic leaves what
     * was already decoded in place: the curies and self link stored
     * before it, and the relations decoded so far.
     */
    method UnmarshalJSON(j: Json) returns (err: Option<Error>)
      modifies this
      ensures var r := DecodeLinksInto(old(Value()), j);
              && (err.None? <==> r.Success?)
              && (r.Success? ==> Value() == r.value)
              && (r.Failure? ==> err == Some(r.error))
      ensures AsObject(j).Failure? ==> Value() == old(Value())
      ensures AsObject(j).Success? ==>
                var temp := AsObject(j).value;
                var curiesFail := CURIES in temp && DecodeCuriesStrict(temp[CURIES]).Failure?;
                var selfFails := SELF in temp && DecodeSelfStrict(temp[SELF]).Failure?;
                && (curiesFail ==> Value() == old(Value()))
                && (!curiesFail ==>
                      curies == (if CURIES in temp then Some(DecodeCuriesStrict(temp[CURIES]).value) else old(curies)))
                && (!curiesFail && selfFails ==> self == old(self) && relations == old(relations))
                && (!curiesFail && !selfFails ==>
                      && self == (if SELF in temp then Some(DecodeSelfStrict(temp[SELF]).value) else old(self))
                      && forall k :: k in relations ==>
                           k in temp && k != CURIES && k != SELF && DecodeLinkList(temp[k]) == Success(relations[k]))
    {
      var decoded := AsObject(j);
      if decoded.Failure? {
        return Some(decoded.error);
      }
      var temp := decoded.value;
      if CURIES in temp {
        var cs := DecodeCuriesStrict(temp[CURIES]);
        if cs.Failure? {
          return Some(cs.error);
        }
        curies := Some(cs.value);
        temp := temp - {CURIES};
      }
      if SELF in temp {
        var s := DecodeSelfStrict(temp[SELF]);
        if s.Failure? {
          return Some(s.error);
        }
        self := Some(s.value);
        temp := temp - {SELF};
      }
      assert temp == decoded.value - {CURIES, SELF};
      relations, err := DecodeRelationsLoop(temp);
    }
  }

  /**
   * The relation loop of Links.UnmarshalJSON, in map iteration order.
   * Every failure is a panic, so the order only decides how much is
   * decoded when it happens.
   */
  method DecodeRelationsLoop(temp: map<string, Json>) returns (decoded: map<string, seq<Link>>, err: Option<Error>)
    ensures err.None? <==> DecodeRelations(temp).Success?
    ensures err.None? ==> decoded == DecodeRelations(temp).value
    ensures forall k :: k in decoded ==> k in temp && DecodeLinkList(temp[k]) == Success(decoded[k])
    ensures err.Some? ==> err == Some(Panic) && decoded.Keys <= temp.Keys
  {
    decoded := map[];
    var rest := temp.Keys;
    while rest != {}
      invariant rest <= temp.Keys
      invariant decoded.Keys == temp.Keys - rest
      invariant forall k :: k in decoded ==> DecodeLinkList(temp[k]) == Success(decoded[k])
      decreases |rest|
    {
      var rel :| rel in rest;
      var links := DecodeLinkList(temp[rel]);
      if links.Failure? {
        return decoded, Some(links.error);
      }
      decoded := decoded[rel := links.value];
      rest := rest - {rel};
    }
    SameDecodedRelations(temp, decoded);
    err := None;
  }

  lemma SameDecodedRelations(temp: map<string, Json>, decoded: map<string, seq<Link>>)
    requires decoded.Keys == temp.Keys
    requires forall k :: k in decoded ==> DecodeLinkList(temp[k]) == Success(decoded[k])
    ensures DecodeRelations(temp) == Success(decoded)
  {
    var r := DecodeRelations(temp);
    assert r.Success?;
    assert r.value == decoded;
  }
}
