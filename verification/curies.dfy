/**
 * CURIEs (draft-kelly-json-hal-11 section 8.2): named URI templates that
 * let a relation type be written `prefix:reference`.  This module holds
 * the curie record of both codec generations, its encoding, the
 * struct-decoding encoding/json applies to a `[]Curie`, and the rule that
 * gates curied relation types on a registered prefix.
 */
module Curies {
  import opened Json
  import opened Hal

  /** The value of a Curie struct. */
  datatype CurieValue = CurieValue(name: string, href: string, templated: bool)

  const ZeroCurie := CurieValue("", "", false)

  /** A Curie as the caller holds it: a struct behind a pointer, set by chainable setters. */
  class Curie {
    var name: string
    var href: string
    var templated: bool

    /** `&Curie{}`. */
    constructor ()
      ensures Value() == ZeroCurie
    {
      name, href, templated := "", "", false;
    }

    function Value(): CurieValue
      reads this
    {
      CurieValue(name, href, templated)
    }

    /** Sets the name and returns the same curie, for chaining. */
    method SetName(name': string) returns (c: Curie)
      modifies this
      ensures c == this
      ensures Value() == old(Value()).(name := name')
    {
      name := name';
      c := this;
    }

    /** Sets the href and returns the same curie, for chaining. */
    method SetHref(href': string) returns (c: Curie)
      modifies this
      ensures c == this
      ensures Value() == old(Value()).(href := href')
    {
      href := href';
      c := this;
    }

    /** Sets the templated flag and returns the same curie, for chaining. */
    method SetTemplated(templated': bool) returns (c: Curie)
      modifies this
      ensures c == this
      ensures Value() == old(Value()).(templated := templated')
    {
      templated := templated';
      c := this;
    }
  }

  /** `(&Curie{}).SetName(n).SetHref(h).SetTemplated(t)` builds exactly that curie. */
  method ChainedCurie(n: string, h: string, t: bool) returns (c: Curie)
    ensures fresh(c)
    ensures c.Value() == CurieValue(n, h, t)
  {
    var c0 := new Curie();
    var c1 := c0.SetName(n);
    var c2 := c1.SetHref(h);
    c := c2.SetTemplated(t);
  }

  /** The fields the encoding of a curie shows, as encoding/json reads them back. */
  function ShownFields(c: CurieValue): map<string, Json> {
    (if c.name != "" then map[NAME := Str(c.name)] else map[])
    + (if c.href != "" then map[HREF := Str(c.href)] else map[])
    + (if c.templated then map[TEMPLATED := Bool(true)] else map[])
  }

  /**
   * encoding/json's output for a Curie: every field is `omitempty`, so
   * an empty string and a false flag are left out; fields in struct order.
   */
  function EncodeCurie(c: CurieValue): (j: Json)
    ensures j.Obj? && ToMap(j.members) == ShownFields(c)
  {
    var a := if c.name != "" then [Member(NAME, Str(c.name))] else [];
    var b := if c.href != "" then [Member(HREF, Str(c.href))] else [];
    var t := if c.templated then [Member(TEMPLATED, Bool(true))] else [];
    ToMapAppend(a + b, t);
    ToMapAppend(a, b);
    Obj(a + b + t)
  }

  function EncodeCuries(cs: seq<CurieValue>): (j: Json)
    ensures j.Arr? && |j.items| == |cs|
    ensures forall i :: 0 <= i < |cs| ==> j.items[i] == EncodeCurie(cs[i])
  {
    Arr(seq(|cs|, i requires 0 <= i < |cs| => EncodeCurie(cs[i])))
  }

  /** ASCII upper case to lower case, every other character as is. */
  function Lower(s: string): (t: string)
    ensures |t| == |s|
  {
    seq(|s|, i requires 0 <= i < |s| => if 'A' <= s[i] <= 'Z' then (s[i] as int + 32) as char else s[i])
  }

  /**
   * Whether an object key selects the struct field whose JSON name is
   * `f`: encoding/json matches keys to field names ignoring case.  For
   * `name`, `href` and `templated` Unicode simple folding adds nothing to
   * ASCII case folding (only `k` and `s` have non-ASCII fold partners).
   */
  predicate Selects(key: string, f: string) {
    Lower(key) == f
  }

  /** A member's value fits the field its key selects (null always fits). */
  predicate FitsField(m: Member) {
    && (Selects(m.key, NAME) || Selects(m.key, HREF) ==> m.value.Null? || m.value.Str?)
    && (Selects(m.key, TEMPLATED) ==> m.value.Null? || m.value.Bool?)
  }

  /**
   * One member decoded into the curie `c`: a member selecting a field
   * sets it (null leaves it as it is), a member of the wrong type is an
   * error, a member selecting no field is ignored.
   */
  function SetField(c: CurieValue, m: Member): (r: Result<CurieValue>)
    ensures r.Success? <==> FitsField(m)
  {
    if Selects(m.key, NAME) then
      (match m.value
       case Null => Success(c)
       case Str(s) => Success(c.(name := s))
       case _ => Failure(Malformed))
    else if Selects(m.key, HREF) then
      (match m.value
       case Null => Success(c)
       case Str(s) => Success(c.(href := s))
       case _ => Failure(Malformed))
    else if Selects(m.key, TEMPLATED) then
      (match m.value
       case Null => Success(c)
       case Bool(b) => Success(c.(templated := b))
       case _ => Failure(Malformed))
    else Success(c)
  }

  /**
   * The members of an object decoded into a Curie in order.  encoding/json
   * reads every member, keeps the first type error and reports it at the
   * end; the outcome is the same as failing at the first one.
   */
  function FillCurie(ms: seq<Member>): (r: Result<CurieValue>)
    ensures r.Failure? ==> r.error == Malformed
  {
    if ms == [] then Success(ZeroCurie)
    else
      var c :- FillCurie(ms[..|ms| - 1]);
      SetField(c, ms[|ms| - 1])
  }

  /**
   * encoding/json decoding one element of a `[]Curie`: null is the zero
   * curie, an object fills the fields its keys select, any other value
   * is an error.
   */
  function DecodeCurie(j: Json): (r: Result<CurieValue>)
    ensures r.Failure? ==> r.error == Malformed
    ensures j.Null? ==> r == Success(ZeroCurie)
    ensures !(j.Null? || j.Obj?) ==> r.Failure?
  {
    match j
    case Null => Success(ZeroCurie)
    case Obj(ms) => FillCurie(ms)
    case _ => Failure(Malformed)
  }

  /** The last non-null value of a member selecting the field `f`. */
  function LastSet(ms: seq<Member>, f: string): (v: Option<Json>)
    ensures v.Some? ==> exists i :: 0 <= i < |ms| && Selects(ms[i].key, f) && ms[i].value == v.value && !v.value.Null?
  {
    if ms == [] then None
    else if Selects(ms[|ms| - 1].key, f) && !ms[|ms| - 1].value.Null? then Some(ms[|ms| - 1].value)
    else LastSet(ms[..|ms| - 1], f)
  }

  /** Decoding one more member: the curie so far, then that member. */
  lemma FillCurieSnoc(ms: seq<Member>, m: Member)
    ensures FillCurie(ms + [m]) == if FillCurie(ms).Failure? then FillCurie(ms) else SetField(FillCurie(ms).value, m)
  {
    assert (ms + [m])[..|ms|] == ms;
  }

  /** An object decodes into a Curie exactly when every member fits the field its key selects. */
  lemma {:induction false} FillCurieFits(ms: seq<Member>)
    ensures FillCurie(ms).Success? <==> forall i :: 0 <= i < |ms| ==> FitsField(ms[i])
    decreases |ms|
  {
    if ms != [] {
      var init := ms[..|ms| - 1];
      FillCurieFits(init);
      assert ms == init + [ms[|ms| - 1]];
      assert forall i :: 0 <= i < |init| ==> init[i] == ms[i];
    }
  }

  /** After a successful decode the name is the last non-null value of a key selecting it, or empty. */
  lemma {:induction false} FillCurieName(ms: seq<Member>)
    requires FillCurie(ms).Success?
    ensures LastSet(ms, NAME).Some? ==> Str(FillCurie(ms).value.name) == LastSet(ms, NAME).value
    ensures LastSet(ms, NAME).None? ==> FillCurie(ms).value.name == ""
    decreases |ms|
  {
    if ms != [] {
      FillCurieName(ms[..|ms| - 1]);
    }
  }

  /** After a successful decode the href is the last non-null value of a key selecting it, or empty. */
  lemma {:induction false} FillCurieHref(ms: seq<Member>)
    requires FillCurie(ms).Success?
    ensures LastSet(ms, HREF).Some? ==> Str(FillCurie(ms).value.href) == LastSet(ms, HREF).value
    ensures LastSet(ms, HREF).None? ==> FillCurie(ms).value.href == ""
    decreases |ms|
  {
    if ms != [] {
      FillCurieHref(ms[..|ms| - 1]);
      DistinctFields(ms[|ms| - 1].key);
    }
  }

  /** After a successful decode the flag is the last non-null value of a key selecting it, or false. */
  lemma {:induction false} FillCurieTemplated(ms: seq<Member>)
    requires FillCurie(ms).Success?
    ensures LastSet(ms, TEMPLATED).Some? ==> Bool(FillCurie(ms).value.templated) == LastSet(ms, TEMPLATED).value
    ensures LastSet(ms, TEMPLATED).None? ==> !FillCurie(ms).value.templated
    decreases |ms|
  {
    if ms != [] {
      FillCurieTemplated(ms[..|ms| - 1]);
      DistinctFields(ms[|ms| - 1].key);
    }
  }

  /** A key selects at most one of the three fields. */
  lemma DistinctFields(key: string)
    ensures !(Selects(key, NAME) && Selects(key, HREF))
    ensures !(Selects(key, NAME) && Selects(key, TEMPLATED))
    ensures !(Selects(key, HREF) && Selects(key, TEMPLATED))
  {
    assert NAME[0] != HREF[0] && NAME[0] != TEMPLATED[0] && HREF[0] != TEMPLATED[0];
  }

  /** A string without upper-case ASCII letters is its own folding. */
  lemma LowerKeeps(s: string)
    requires forall i :: 0 <= i < |s| ==> !('A' <= s[i] <= 'Z')
    ensures Lower(s) == s
  {
  }

  /** A key differing from a field name only in ASCII case sets that field. */
  lemma CapitalisedKeyRead(n: string)
    ensures DecodeCurie(Obj([Member("Name", Str(n))])) == Success(ZeroCurie.(name := n))
  {
    assert Lower("Name") == NAME;
    FillCurieSnoc([], Member("Name", Str(n)));
  }

  /**
   * `json.Unmarshal(data, &curies)` into a `[]Curie`: null leaves the
   * slice nil (no curies), an array decodes element by element, anything
   * else is an error.
   */
  function DecodeCurieArray(j: Json): (r: Result<seq<CurieValue>>)
    ensures r.Failure? ==> r.error == Malformed
    ensures j.Null? ==> r == Success([])
    ensures !(j.Null? || j.Arr?) ==> r.Failure?
    ensures r.Success? && j.Arr? ==>
              |r.value| == |j.items| &&
              (forall i :: 0 <= i < |j.items| ==> DecodeCurie(j.items[i]) == Success(r.value[i]))
  {
    match j
    case Null => Success([])
    case Arr(items) =>
      var rs := seq(|items|, i requires 0 <= i < |items| => DecodeCurie(items[i]));
      assert forall i :: 0 <= i < |items| ==> rs[i] == DecodeCurie(items[i]);
      Sequence(rs)
    case _ => Failure(Malformed)
  }

  /** Every curie survives its own encoding. */
  lemma CurieRoundTrip(c: CurieValue)
    ensures DecodeCurie(EncodeCurie(c)) == Success(c)
  {
    LowerKeeps(NAME);
    LowerKeeps(HREF);
    LowerKeeps(TEMPLATED);
    DistinctFields(NAME);
    DistinctFields(HREF);
    DistinctFields(TEMPLATED);
    var a := if c.name != "" then [Member(NAME, Str(c.name))] else [];
    var b := if c.href != "" then [Member(HREF, Str(c.href))] else [];
    var t := if c.templated then [Member(TEMPLATED, Bool(true))] else [];
    assert EncodeCurie(c).members == a + b + t;
    var c1 := ZeroCurie.(name := c.name);
    var c2 := c1.(href := c.href);
    assert FillCurie(a) == Success(c1) by {
      if a != [] {
        FillCurieSnoc([], a[0]);
        assert a == [] + [a[0]];
      }
    }
    assert FillCurie(a + b) == Success(c2) by {
      if b != [] {
        FillCurieSnoc(a, b[0]);
      }
    }
    assert FillCurie(a + b + t) == Success(c) by {
      if t != [] {
        FillCurieSnoc(a + b, t[0]);
      }
    }
  }

  /** A list of curies survives its own encoding. */
  lemma CurieArrayRoundTrip(cs: seq<CurieValue>)
    ensures DecodeCurieArray(EncodeCuries(cs)) == Success(cs)
  {
    var items := EncodeCuries(cs).items;
    var rs := seq(|items|, i requires 0 <= i < |items| => DecodeCurie(items[i]));
    forall i | 0 <= i < |cs|
      ensures rs[i] == Success(cs[i])
    {
      CurieRoundTrip(cs[i]);
    }
    var r := Sequence(rs);
    assert r.Success?;
    assert r.value == cs;
  }

  /*
   * The top-level `curies` of a resource reaches the `[]Curie` decode only
   * after a `json.Unmarshal` into `map[string]any` and a `json.Marshal`
   * back, so each object among its items arrives as the map read from it.
   */

  /**
   * One item as `json.Marshal` writes it again after it was read into an
   * `any`: an object becomes its map (the last of equal keys wins) with
   * the keys in ascending order; any other value keeps its kind.  The
   * values inside an object are not rewritten: a string stays the same
   * string, and any other value reaches either a field that refuses it
   * or a member no field selects, so one level decides the decode.
   */
  function Remarshal(j: Json): (r: Json)
    ensures j.Obj? ==> r.Obj? && ToMap(r.members) == ToMap(j.members)
    ensures j.Obj? ==> Keys(r.members) == SortedOf(ToMap(j.members).Keys)
    ensures !j.Obj? ==> r == j
  {
    if j.Obj? then
      var m := ToMap(j.members);
      MembersOfMap(m);
      var ms := MembersOf(m, SortedOf(m.Keys));
      assert Keys(ms) == SortedOf(m.Keys);
      Obj(ms)
    else j
  }

  /** The top-level `curies` decoded into a `[]Curie` after its round through `map[string]any`. */
  function DecodeTopCuries(j: Json): (r: Result<seq<CurieValue>>)
    ensures r.Failure? ==> r.error == Malformed
    ensures j.Null? ==> r == Success([])
    ensures !(j.Null? || j.Arr?) ==> r.Failure?
    ensures r.Success? && j.Arr? ==>
              |r.value| == |j.items| &&
              (forall i :: 0 <= i < |j.items| ==> DecodeCurie(Remarshal(j.items[i])) == Success(r.value[i]))
  {
    match j
    case Arr(items) => DecodeCurieArray(Arr(seq(|items|, i requires 0 <= i < |items| => Remarshal(items[i]))))
    case _ => DecodeCurieArray(j)
  }

  /** Every entry of the map fits the field its key selects. */
  predicate EntriesFit(m: map<string, Json>) {
    forall k :: k in m ==> FitsField(Member(k, m[k]))
  }

  /** A re-marshalled object decodes exactly when every entry of its map fits its field. */
  lemma TopCurieFits(ms: seq<Member>)
    ensures DecodeCurie(Remarshal(Obj(ms))).Success? <==> EntriesFit(ToMap(ms))
  {
    var m := ToMap(ms);
    var ks := SortedOf(m.Keys);
    var listed := MembersOf(m, ks);
    assert DecodeCurie(Remarshal(Obj(ms))) == FillCurie(listed);
    FillCurieFits(listed);
    ListedFits(m, ks);
  }

  /** The members listed from a map fit exactly when every key listed fits with its value. */
  lemma ListedFits(m: map<string, Json>, ks: seq<string>)
    requires forall k :: k in ks <==> k in m
    ensures (forall i :: 0 <= i < |MembersOf(m, ks)| ==> FitsField(MembersOf(m, ks)[i]))
            <==> EntriesFit(m)
  {
    var listed := MembersOf(m, ks);
    if forall i :: 0 <= i < |listed| ==> FitsField(listed[i]) {
      forall k | k in m
        ensures FitsField(Member(k, m[k]))
      {
        var i :| 0 <= i < |ks| && ks[i] == k;
        assert listed[i] == Member(k, m[k]);
      }
      assert EntriesFit(m);
    } else {
      var i :| 0 <= i < |listed| && !FitsField(listed[i]);
      assert listed[i] == Member(ks[i], m[ks[i]]);
      assert ks[i] in ks;
      assert ks[i] in m && !FitsField(Member(ks[i], m[ks[i]]));
      assert !EntriesFit(m);
      assert !FitsField(MembersOf(m, ks)[i]);
    }
  }

  /**
   * Over a map's members listed by `ks`, when only the key `f` itself
   * selects the field `f`, the last non-null value set is that key's.
   */
  lemma {:induction false} LastSetListed(m: map<string, Json>, ks: seq<string>, f: string)
    requires forall k :: k in ks ==> k in m
    requires Lower(f) == f
    requires forall k :: k in ks && Selects(k, f) ==> k == f
    ensures LastSet(MembersOf(m, ks), f) == if f in ks && !m[f].Null? then Some(m[f]) else None
    decreases |ks|
  {
    if ks != [] {
      var init := ks[..|ks| - 1];
      var ms := MembersOf(m, ks);
      assert ms[..|ms| - 1] == MembersOf(m, init);
      LastSetListed(m, init, f);
      assert forall k :: k in ks <==> k in init || k == ks[|ks| - 1];
    }
  }

  /** No key of the map is a case variant of a field name: each field is selected only by its own name. */
  predicate ExactFieldKeys(m: map<string, Json>) {
    forall k :: k in m ==>
      && (Selects(k, NAME) ==> k == NAME)
      && (Selects(k, HREF) ==> k == HREF)
      && (Selects(k, TEMPLATED) ==> k == TEMPLATED)
  }

  /**
   * Without case variants of the field names, a re-marshalled object
   * decodes to the values its map holds for `name`, `href` and
   * `templated`, null and absent ones left at their zero.
   */
  lemma TopCurieExactKeys(ms: seq<Member>)
    requires ExactFieldKeys(ToMap(ms))
    requires DecodeCurie(Remarshal(Obj(ms))).Success?
    ensures var m := ToMap(ms);
            DecodeCurie(Remarshal(Obj(ms))).value
              == CurieValue(LenientString(m, NAME), LenientString(m, HREF), LenientBool(m, TEMPLATED))
  {
    var m := ToMap(ms);
    var ks := SortedOf(m.Keys);
    var listed := MembersOf(m, ks);
    LowerKeeps(NAME);
    LowerKeeps(HREF);
    LowerKeeps(TEMPLATED);
    TopCurieFits(ms);
    LastSetListed(m, ks, NAME);
    LastSetListed(m, ks, HREF);
    LastSetListed(m, ks, TEMPLATED);
    FillCurieName(listed);
    FillCurieHref(listed);
    FillCurieTemplated(listed);
    if NAME in m {
      assert FitsField(Member(NAME, m[NAME]));
    }
    if HREF in m {
      assert FitsField(Member(HREF, m[HREF]));
    }
    if TEMPLATED in m {
      assert FitsField(Member(TEMPLATED, m[TEMPLATED]));
    }
  }

  /** A list of curies written by the encoder reads back through the top-level path. */
  lemma TopCuriesRoundTrip(cs: seq<CurieValue>)
    ensures DecodeTopCuries(EncodeCuries(cs)) == Success(cs)
  {
    var items := EncodeCuries(cs).items;
    var again := seq(|items|, i requires 0 <= i < |items| => Remarshal(items[i]));
    var rs := seq(|again|, i requires 0 <= i < |again| => DecodeCurie(again[i]));
    forall i | 0 <= i < |cs|
      ensures rs[i] == Success(cs[i])
    {
      TopCurieRoundTrip(cs[i]);
    }
    var r := Sequence(rs);
    assert r.Success?;
    assert r.value == cs;
  }

  /** One curie written by the encoder reads back through the top-level path. */
  lemma TopCurieRoundTrip(c: CurieValue)
    ensures DecodeCurie(Remarshal(EncodeCurie(c))) == Success(c)
  {
    var ms := EncodeCurie(c).members;
    var m := ShownFields(c);
    assert ToMap(ms) == m;
    ShownFieldsRead(c);
    TopCurieFits(ms);
    TopCurieExactKeys(ms);
  }

  /** The fields an encoded curie shows fit, are spelled exactly, and read back as the curie. */
  lemma ShownFieldsRead(c: CurieValue)
    ensures ExactFieldKeys(ShownFields(c)) && EntriesFit(ShownFields(c))
    ensures var m := ShownFields(c);
            CurieValue(LenientString(m, NAME), LenientString(m, HREF), LenientBool(m, TEMPLATED)) == c
  {
    var m := ShownFields(c);
    LowerKeeps(NAME);
    LowerKeeps(HREF);
    LowerKeeps(TEMPLATED);
    DistinctFields(NAME);
    DistinctFields(HREF);
    DistinctFields(TEMPLATED);
    assert forall k :: k in m ==> k == NAME || k == HREF || k == TEMPLATED;
    assert NAME in m <==> c.name != "";
    assert HREF in m <==> c.href != "";
    assert TEMPLATED in m <==> c.templated;
  }

  /**
   * Of two `name` members the map keeps only the last, so an earlier
   * value of the wrong type is gone before the struct decode, which
   * would otherwise fail on it.
   */
  lemma RemarshalDropsEarlierDuplicate(n: string)
    ensures DecodeCurie(Obj([Member(NAME, Bool(true)), Member(NAME, Str(n))])).Failure?
    ensures DecodeTopCuries(Arr([Obj([Member(NAME, Bool(true)), Member(NAME, Str(n))])]))
              == Success([ZeroCurie.(name := n)])
  {
    var ms := [Member(NAME, Bool(true)), Member(NAME, Str(n))];
    LowerKeeps(NAME);
    FillCurieFits(ms);
    assert !FitsField(ms[0]);
    OneKeyListed(ms, NAME);
    FillOne(ms[1]);
    TopSingle(Obj(ms), ZeroCurie.(name := n));
  }

  /** A trailing null `name` overwrites an earlier string in the map and leaves the name empty. */
  lemma RemarshalKeepsTrailingNull(a: string)
    ensures DecodeTopCuries(Arr([Obj([Member(NAME, Str(a)), Member(NAME, Null)])])) == Success([ZeroCurie])
  {
    var ms := [Member(NAME, Str(a)), Member(NAME, Null)];
    LowerKeeps(NAME);
    OneKeyListed(ms, NAME);
    FillOne(ms[1]);
    TopSingle(Obj(ms), ZeroCurie);
  }

  /**
   * `Name` sorts before `name` ('N' < 'n'), so the re-marshalled object
   * applies `name` last: its value wins over the case variant's.
   */
  lemma RemarshalAppliesSortedKeys(a: string, b: string)
    ensures DecodeTopCuries(Arr([Obj([Member(NAME, Str(b)), Member("Name", Str(a))])]))
              == Success([ZeroCurie.(name := b)])
  {
    var ms := [Member(NAME, Str(b)), Member("Name", Str(a))];
    var listed := [Member("Name", Str(a)), Member(NAME, Str(b))];
    SortedPairListed(ms);
    LowerKeeps(NAME);
    assert Lower("Name") == NAME;
    FillOne(listed[0]);
    FillCurieSnoc([listed[0]], listed[1]);
    assert [listed[0]] + [listed[1]] == listed;
    TopSingle(Obj(ms), ZeroCurie.(name := b));
  }

  /** Decoding one member into a fresh curie. */
  lemma FillOne(m: Member)
    ensures FillCurie([m]) == SetField(ZeroCurie, m)
  {
    FillCurieSnoc([], m);
    assert [] + [m] == [m];
  }

  /** A one-item top-level `curies` decodes to the one curie its item gives. */
  lemma TopSingle(x: Json, c: CurieValue)
    requires DecodeCurie(Remarshal(x)) == Success(c)
    ensures DecodeTopCuries(Arr([x])) == Success([c])
  {
    var again := seq(1, i requires 0 <= i < 1 => Remarshal([x][i]));
    assert again == [Remarshal(x)];
    var r := DecodeTopCuries(Arr([x]));
    assert r.Success?;
    assert r.value == [c];
  }

  /** The map of two members with the same key `f` is listed as the last one. */
  lemma OneKeyListed(ms: seq<Member>, f: string)
    requires |ms| == 2 && ms[0].key == f && ms[1].key == f
    ensures Remarshal(Obj(ms)) == Obj([ms[1]])
  {
    assert ms[..1] == [ms[0]] && [ms[0]][..0] == [];
    assert ToMap([ms[0]]) == map[f := ms[0].value];
    var m := ToMap(ms);
    assert m == ToMap([ms[0]])[f := ms[1].value];
    assert m == map[f := ms[1].value];
    assert m.Keys == {f};
    SortedUnique([f], m.Keys);
  }

  /** `{"name": b, "Name": a}` is listed with `Name` first. */
  lemma SortedPairListed(ms: seq<Member>)
    requires |ms| == 2 && ms[0].key == NAME && ms[1].key == "Name"
    ensures Remarshal(Obj(ms)) == Obj([ms[1], ms[0]])
  {
    assert ms[..1] == [ms[0]] && [ms[0]][..0] == [];
    assert ToMap([ms[0]]) == map[NAME := ms[0].value];
    var m := ToMap(ms);
    assert m == ToMap([ms[0]])["Name" := ms[1].value];
    assert m == map[NAME := ms[0].value, "Name" := ms[1].value];
    assert m.Keys == {NAME, "Name"};
    assert DiffersAt("Name", NAME, 0);
    assert StrictlySorted(["Name", NAME]);
    SortedUnique(["Name", NAME], m.Keys);
  }

  /*
   * The curie gate of AddLink: a relation type whose first ':' is past
   * its first character is curied, and may only be added when a curie
   * with the part before that ':' as its name is registered.
   */

  /** strings.Index(rel, ":"): the position of the first ':' or -1. */
  function ColonIndex(rel: string): (i: int)
    ensures -1 <= i < |rel|
    ensures i == -1 <==> ':' !in rel
    ensures i >= 0 ==> rel[i] == ':' && ':' !in rel[..i]
  {
    if rel == [] then -1
    else if rel[0] == ':' then 0
    else
      var t := ColonIndex(rel[1..]);
      if t == -1 then -1
      else
        assert rel[1..][..t] == rel[1..t + 1];
        assert rel[..t + 1] == [rel[0]] + rel[1..t + 1];
        t + 1
  }

  /** A curied relation type: `prefix:reference` with a non-empty prefix. */
  predicate IsCuried(rel: string) {
    ColonIndex(rel) > 0
  }

  /** `strings.Split(rel, ":")[0]`: everything before the first ':'. */
  function Prefix(rel: string): (p: string)
    requires IsCuried(rel)
    ensures 0 < |p| < |rel| && rel == p + [':'] + rel[|p| + 1..]
    ensures ':' !in p
  {
    var i := ColonIndex(rel);
    assert rel == rel[..i] + [':'] + rel[i + 1..];
    rel[..i]
  }

  predicate Registered(cs: seq<CurieValue>, prefix: string) {
    exists i :: 0 <= i < |cs| && cs[i].name == prefix
  }

  /** What AddLink checks before storing a link under `rel`. */
  predicate GateOpen(cs: seq<CurieValue>, rel: string) {
    IsCuried(rel) ==> Registered(cs, Prefix(rel))
  }

  /** The search loop of AddLink: stops at the first curie with that name. */
  method LookupCurie(cs: seq<CurieValue>, prefix: string) returns (found: bool)
    ensures found <==> Registered(cs, prefix)
  {
    found := false;
    var i := 0;
    while i < |cs|
      invariant 0 <= i <= |cs|
      invariant !found
      invariant forall n :: 0 <= n < i ==> cs[n].name != prefix
    {
      if cs[i].name == prefix {
        found := true;
        break;
      }
      i := i + 1;
    }
  }

  /** The gate AddLink applies, as the code does it: index, split, search. */
  method CheckGate(cs: seq<CurieValue>, rel: string) returns (open: bool)
    ensures open <==> GateOpen(cs, rel)
  {
    if ColonIndex(rel) > 0 {
      var prefix := rel[..ColonIndex(rel)];
      open := LookupCurie(cs, prefix);
    } else {
      open := true;
    }
  }

  /** A relation type that starts with ':' is never gated. */
  lemma LeadingColonNotGated(cs: seq<CurieValue>, rest: string)
    ensures GateOpen(cs, [':'] + rest)
  {
  }

  /** Registering a curie named after the prefix opens the gate. */
  lemma RegisteringOpensGate(cs: seq<CurieValue>, c: CurieValue, rel: string)
    requires IsCuried(rel) && c.name == Prefix(rel)
    ensures GateOpen(cs + [c], rel)
  {
    assert (cs + [c])[|cs|] == c;
  }

  /** A curie with another name does not change the gate's answer. */
  lemma OtherCurieKeepsGate(cs: seq<CurieValue>, c: CurieValue, rel: string)
    requires IsCuried(rel) && c.name != Prefix(rel)
    ensures GateOpen(cs + [c], rel) <==> GateOpen(cs, rel)
  {
    if GateOpen(cs + [c], rel) {
      var i :| 0 <= i < |cs + [c]| && (cs + [c])[i].name == Prefix(rel);
      assert i < |cs| && cs[i] == (cs + [c])[i];
    }
    if GateOpen(cs, rel) {
      var i :| 0 <= i < |cs| && cs[i].name == Prefix(rel);
      assert (cs + [c])[i] == cs[i];
    }
  }

  /** Only the part before the first ':' is looked up, never the whole relation type. */
  lemma GateUsesPrefixOnly(c: CurieValue, p: string, r1: string, r2: string)
    requires p != [] && ':' !in p && c.name == p
    ensures GateOpen([c], p + [':'] + r1) && GateOpen([c], p + [':'] + r2)
  {
    PrefixOf(p, r1);
    PrefixOf(p, r2);
    assert [c][0].name == p;
  }

  lemma PrefixOf(p: string, r: string)
    requires p != [] && ':' !in p
    ensures IsCuried(p + [':'] + r) && Prefix(p + [':'] + r) == p
  {
    var rel := p + [':'] + r;
    assert rel[|p|] == ':';
    assert rel[..|p|] == p;
  }
}
