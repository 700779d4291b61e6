/**
 * JSON values as the HAL codec reads and writes them: the tree that Go's
 * encoding/json parses text into (`map[string]any`, `[]any`, ...) and
 * prints text from.  Objects keep their members in order, because the
 * order in which the codec writes keys is part of what it promises.
 * Numbers keep their literal text: the codec never computes with them.
 */
module Json {

  datatype Number = Number(literal: string)

  datatype Json =
    | Null
    | Bool(b: bool)
    | Num(n: Number)
    | Str(s: string)
    | Arr(items: seq<Json>)
    | Obj(members: seq<Member>)

  datatype Member = Member(key: string, value: Json)

  /** The keys of an object's members, in order. */
  function Keys(ms: seq<Member>): (ks: seq<string>)
    ensures |ks| == |ms|
    ensures forall i :: 0 <= i < |ms| ==> ks[i] == ms[i].key
  {
    seq(|ms|, i requires 0 <= i < |ms| => ms[i].key)
  }

  predicate DistinctKeys(ms: seq<Member>) {
    forall i, j :: 0 <= i < j < |ms| ==> ms[i].key != ms[j].key
  }

  /**
   * An object read into a Go `map[string]any`: every key is there, and a
   * key written twice takes the value of its last occurrence
   * (ToMapLast, ToMapSource).
   */
  function ToMap(ms: seq<Member>): map<string, Json> {
    if ms == [] then map[]
    else ToMap(ms[..|ms| - 1])[ms[|ms| - 1].key := ms[|ms| - 1].value]
  }

  /** The keys of the map are the keys of the members. */
  lemma {:induction false} ToMapKeys(ms: seq<Member>)
    ensures forall k :: k in ToMap(ms) <==> k in Keys(ms)
  {
    if ms != [] {
      ToMapKeys(ms[..|ms| - 1]);
      assert Keys(ms) == Keys(ms[..|ms| - 1]) + [ms[|ms| - 1].key];
    }
  }

  /** Every member's key is in the map. */
  lemma ToMapHas(ms: seq<Member>, i: int)
    requires 0 <= i < |ms|
    ensures ms[i].key in ToMap(ms)
  {
    ToMapKeys(ms);
    assert Keys(ms)[i] == ms[i].key;
  }

  /** The value of a key is the value of its last occurrence. */
  lemma {:induction false} ToMapLast(ms: seq<Member>, i: int)
    requires 0 <= i < |ms|
    requires forall j :: i < j < |ms| ==> ms[j].key != ms[i].key
    ensures ms[i].key in ToMap(ms) && ToMap(ms)[ms[i].key] == ms[i].value
  {
    if i < |ms| - 1 {
      ToMapLast(ms[..|ms| - 1], i);
    }
  }

  /** Every value of the map comes from some member with that key. */
  lemma {:induction false} ToMapSource(ms: seq<Member>, k: string)
    requires k in ToMap(ms)
    ensures exists i :: 0 <= i < |ms| && ms[i].key == k && ToMap(ms)[k] == ms[i].value
  {
    var last := ms[|ms| - 1];
    if last.key != k {
      var init := ms[..|ms| - 1];
      ToMapSource(init, k);
      var i :| 0 <= i < |init| && init[i].key == k && ToMap(init)[k] == init[i].value;
      assert ms[i] == init[i];
    }
  }

  /** Reading a concatenation: members of the second part override the first. */
  lemma {:induction false} ToMapAppend(a: seq<Member>, b: seq<Member>)
    ensures ToMap(a + b) == ToMap(a) + ToMap(b)
    decreases |b|
  {
    if b == [] {
      assert a + b == a;
    } else {
      var init := b[..|b| - 1];
      var last := b[|b| - 1];
      assert (a + b)[..|a + b| - 1] == a + init;
      assert (a + b)[|a + b| - 1] == last;
      ToMapAppend(a, init);
      calc {
        ToMap(a + b);
        ToMap(a + init)[last.key := last.value];
        (ToMap(a) + ToMap(init))[last.key := last.value];
        ToMap(a) + ToMap(init)[last.key := last.value];
        ToMap(a) + ToMap(b);
      }
    }
  }

  /** With distinct keys, the map holds exactly the members. */
  lemma ToMapDistinct(ms: seq<Member>)
    requires DistinctKeys(ms)
    ensures |ToMap(ms)| == |ms|
    ensures forall i :: 0 <= i < |ms| ==> ms[i].key in ToMap(ms) && ToMap(ms)[ms[i].key] == ms[i].value
  {
    forall i | 0 <= i < |ms|
      ensures ms[i].key in ToMap(ms) && ToMap(ms)[ms[i].key] == ms[i].value
    {
      ToMapLast(ms, i);
    }
    if ms != [] {
      var init := ms[..|ms| - 1];
      ToMapDistinct(init);
      ToMapKeys(init);
      assert ms[|ms| - 1].key !in Keys(init);
    }
  }

  /** Sum of a sequence of sizes. */
  function Sum(s: seq<nat>): nat {
    if s == [] then 0 else s[0] + Sum(s[1..])
  }

  lemma SumBound(s: seq<nat>, i: int)
    requires 0 <= i < |s|
    ensures s[i] <= Sum(s)
  {
    if i > 0 {
      SumBound(s[1..], i - 1);
    }
  }

  /** Number of nodes of a JSON tree; the decoders recurse on it. */
  function Size(j: Json): nat {
    match j
    case Arr(items) => 1 + Sum(seq(|items|, i requires 0 <= i < |items| => Size(items[i])))
    case Obj(ms) => 1 + Sum(seq(|ms|, i requires 0 <= i < |ms| => Size(ms[i].value)))
    case _ => 1
  }

  lemma ItemSmaller(items: seq<Json>, i: int)
    requires 0 <= i < |items|
    ensures Size(items[i]) < Size(Arr(items))
  {
    SumBound(seq(|items|, n requires 0 <= n < |items| => Size(items[n])), i);
  }

  lemma MemberSmaller(ms: seq<Member>, i: int)
    requires 0 <= i < |ms|
    ensures Size(ms[i].value) < Size(Obj(ms))
  {
    SumBound(seq(|ms|, n requires 0 <= n < |ms| => Size(ms[n].value)), i);
  }

  /** Every value of the decoded map is a strictly smaller tree than the object. */
  lemma ValuesSmaller(ms: seq<Member>)
    ensures forall k :: k in ToMap(ms) ==> Size(ToMap(ms)[k]) < Size(Obj(ms))
  {
    forall k | k in ToMap(ms)
      ensures Size(ToMap(ms)[k]) < Size(Obj(ms))
    {
      ToMapSource(ms, k);
      var i :| 0 <= i < |ms| && ms[i].key == k && ToMap(ms)[k] == ms[i].value;
      MemberSmaller(ms, i);
    }
  }

  /*
   * Key order.  Go's sort.Strings compares strings byte by byte; on UTF-8
   * that is the order of code points, which is what `<` on char gives.
   */

  /** `a` sorts before `b`: at the first position where they differ, or where `a` ends. */
  predicate Less(a: string, b: string) {
    exists n: nat :: n <= |a| && DiffersAt(a, b, n)
  }

  /** `a` and `b` agree before `n`, and `a` is smaller at `n` (or ends there while `b` goes on). */
  predicate DiffersAt(a: string, b: string, n: nat) {
    n <= |a| && n < |b| && a[..n] == b[..n] && (n == |a| || a[n] < b[n])
  }

  lemma LessIrreflexive(a: string)
    ensures !Less(a, a)
  {
  }

  lemma LessTransitive(a: string, b: string, c: string)
    requires Less(a, b) && Less(b, c)
    ensures Less(a, c)
  {
    var n1: nat :| n1 <= |a| && DiffersAt(a, b, n1);
    var n2: nat :| n2 <= |b| && DiffersAt(b, c, n2);
    if n1 < n2 {
      assert b[..n1] == c[..n1] by {
        assert b[..n1] == b[..n2][..n1] && c[..n1] == c[..n2][..n1];
      }
      if n1 < |a| {
        assert b[n1] == b[..n2][n1] && c[n1] == c[..n2][n1];
      }
      assert DiffersAt(a, c, n1);
    } else if n2 < n1 {
      assert a[..n2] == b[..n2] by {
        assert a[..n2] == a[..n1][..n2] && b[..n2] == b[..n1][..n2];
      }
      assert a[n2] == a[..n1][n2] && b[n2] == b[..n1][n2];
      assert DiffersAt(a, c, n2);
    } else {
      assert DiffersAt(a, c, n1);
    }
  }

  lemma LessTotal(a: string, b: string)
    ensures a == b || Less(a, b) || Less(b, a)
  {
    var n := 0;
    while n < |a| && n < |b| && a[n] == b[n]
      invariant n <= |a| && n <= |b| && a[..n] == b[..n]
    {
      assert a[..n + 1] == a[..n] + [a[n]] && b[..n + 1] == b[..n] + [b[n]];
      n := n + 1;
    }
    if n == |a| && n == |b| {
      assert a == a[..n] && b == b[..n];
    } else if n == |a| {
      assert DiffersAt(a, b, n);
    } else if n == |b| {
      assert DiffersAt(b, a, n);
    } else if a[n] < b[n] {
      assert DiffersAt(a, b, n);
    } else {
      assert DiffersAt(b, a, n);
    }
  }

  lemma LessAsymmetric(a: string, b: string)
    requires Less(a, b)
    ensures !Less(b, a)
  {
    if Less(b, a) {
      LessTransitive(a, b, a);
      LessIrreflexive(a);
    }
  }

  predicate StrictlySorted(ks: seq<string>) {
    forall i, j :: 0 <= i < j < |ks| ==> Less(ks[i], ks[j])
  }

  /** `k` is the smallest element of `s`. */
  predicate IsLeast(k: string, s: set<string>) {
    k in s && forall x :: x in s && x != k ==> Less(k, x)
  }

  /** A sorted object without its first member is sorted, and that member's key is below the rest. */
  lemma SortedTail(ms: seq<Member>)
    requires ms != [] && StrictlySorted(Keys(ms))
    ensures StrictlySorted(Keys(ms[1..]))
    ensures forall i :: 1 <= i < |ms| ==> Less(ms[0].key, ms[i].key)
  {
    var ks := Keys(ms);
    forall a, b | 0 <= a < b < |ms| - 1
      ensures Less(Keys(ms[1..])[a], Keys(ms[1..])[b])
    {
      assert Less(ks[a + 1], ks[b + 1]);
    }
    forall i | 1 <= i < |ms|
      ensures Less(ms[0].key, ms[i].key)
    {
      assert Less(ks[0], ks[i]);
    }
  }

  /** A member whose key is below every key of a sorted object can go in front. */
  lemma SortedCons(x: Member, t: seq<Member>)
    requires StrictlySorted(Keys(t))
    requires forall i :: 0 <= i < |t| ==> Less(x.key, t[i].key)
    ensures StrictlySorted(Keys([x] + t))
  {
    var ks := Keys([x] + t);
    forall a, b | 0 <= a < b < |ks|
      ensures Less(ks[a], ks[b])
    {
      if a == 0 {
        assert ks[b] == t[b - 1].key;
      } else {
        assert ks[a] == Keys(t)[a - 1] && ks[b] == Keys(t)[b - 1];
      }
    }
  }

  lemma {:induction false} LeastExists(s: set<string>)
    requires s != {}
    ensures exists k :: IsLeast(k, s)
    decreases |s|
  {
    var x :| x in s;
    if s == {x} {
      assert IsLeast(x, s);
    } else {
      LeastExists(s - {x});
      var k :| IsLeast(k, s - {x});
      LessTotal(k, x);
      if Less(k, x) {
        assert IsLeast(k, s);
      } else {
        forall y | y in s && y != x
          ensures Less(x, y)
        {
          if y != k {
            LessTransitive(x, k, y);
          }
        }
        assert IsLeast(x, s);
      }
    }
  }

  lemma LeastUnique(s: set<string>)
    ensures forall k1, k2 :: IsLeast(k1, s) && IsLeast(k2, s) ==> k1 == k2
  {
    forall k1, k2 | IsLeast(k1, s) && IsLeast(k2, s)
      ensures k1 == k2
    {
      if k1 != k2 {
        LessAsymmetric(k1, k2);
      }
    }
  }

  /**
   * The keys of a set in ascending order: what the codec builds with
   * sort.Strings before writing relation and data keys.
   */
  function SortedOf(s: set<string>): (ks: seq<string>)
    ensures |ks| == |s|
    ensures forall k :: k in ks <==> k in s
    decreases |s|
  {
    if s == {} then []
    else
      LeastExists(s);
      LeastUnique(s);
      var k :| IsLeast(k, s);
      [k] + SortedOf(s - {k})
  }

  /** The listing is strictly ascending. */
  lemma {:induction false} SortedOfAscending(s: set<string>)
    ensures StrictlySorted(SortedOf(s))
    decreases |s|
  {
    if s != {} {
      var ks := SortedOf(s);
      var k := ks[0];
      LeastExists(s);
      LeastUnique(s);
      assert IsLeast(k, s);
      var tail := SortedOf(s - {k});
      assert ks == [k] + tail;
      SortedOfAscending(s - {k});
      forall x | x in tail
        ensures Less(k, x)
      {
        assert x in s && x != k;
      }
      AscendingCons(k, tail);
    }
  }

  /** A key below every key of an ascending list can go in front. */
  lemma AscendingCons(k: string, t: seq<string>)
    requires StrictlySorted(t)
    requires forall x :: x in t ==> Less(k, x)
    ensures StrictlySorted([k] + t)
  {
    var ks := [k] + t;
    forall i, j | 0 <= i < j < |ks|
      ensures Less(ks[i], ks[j])
    {
      if i == 0 {
        assert ks[j] == t[j - 1];
      } else {
        assert ks[i] == t[i - 1] && ks[j] == t[j - 1];
      }
    }
  }


  /** No key is listed twice. */
  lemma SortedOfDistinct(s: set<string>)
    ensures forall i, j :: 0 <= i < j < |SortedOf(s)| ==> SortedOf(s)[i] != SortedOf(s)[j]
  {
    var ks := SortedOf(s);
    SortedOfAscending(s);
    forall i, j | 0 <= i < j < |ks|
      ensures ks[i] != ks[j]
    {
      LessIrreflexive(ks[i]);
    }
  }

  /** There is only one strictly sorted listing of a set. */
  lemma {:induction false} SortedUnique(ks: seq<string>, s: set<string>)
    requires StrictlySorted(ks)
    requires forall k :: k in ks <==> k in s
    ensures ks == SortedOf(s)
    decreases |ks|
  {
    if ks == [] {
      assert s == {};
    } else {
      var k := ks[0];
      forall x | x in s && x != k
        ensures Less(k, x)
      {
        var i :| 0 <= i < |ks| && ks[i] == x;
        assert i != 0;
      }
      assert IsLeast(k, s);
      forall x | x in ks[1..]
        ensures x != k
      {
        var i :| 1 <= i < |ks| && ks[i] == x;
        assert Less(ks[0], ks[i]);
        LessIrreflexive(k);
      }
      SortedUnique(ks[1..], s - {k});
      LeastExists(s);
      LeastUnique(s);
      assert SortedOf(s) == [k] + SortedOf(s - {k});
    }
  }

  /** Insert a key into an ascending list, the step of sorting the keys. */
  function InsertSorted(ks: seq<string>, k: string): (r: seq<string>)
    requires StrictlySorted(ks)
    requires k !in ks
    ensures StrictlySorted(r)
    ensures forall x :: x in r <==> x in ks || x == k
    ensures |r| == |ks| + 1
  {
    if ks == [] then [k]
    else if Less(k, ks[0]) then
      assert forall j :: 0 < j < |ks| ==> Less(ks[0], ks[j]);
      forall j | 0 <= j < |ks| ensures Less(k, ks[j]) {
        if j > 0 {
          LessTransitive(k, ks[0], ks[j]);
        }
      }
      [k] + ks
    else
      LessTotal(k, ks[0]);
      var tail := InsertSorted(ks[1..], k);
      assert forall x :: x in tail ==> Less(ks[0], x) by {
        forall x | x in tail ensures Less(ks[0], x) {
          if x != k {
            var j :| 0 <= j < |ks[1..]| && ks[1..][j] == x;
            assert ks[j + 1] == x;
          }
        }
      }
      [ks[0]] + tail
  }

  /**
   * Go ranges over the map's keys in a random order and sorts them with
   * sort.Strings; here each key is picked arbitrarily and inserted.
   */
  method SortedKeys(keys: set<string>) returns (ks: seq<string>)
    ensures ks == SortedOf(keys)
  {
    ks := [];
    var left := keys;
    while left != {}
      invariant left <= keys
      invariant StrictlySorted(ks)
      invariant forall x :: x in ks <==> x in keys && x !in left
      decreases |left|
    {
      var k :| k in left;
      ks := InsertSorted(ks, k);
      left := left - {k};
    }
    SortedUnique(ks, keys);
  }

  /** Indexing into a concatenation of member lists. */
  lemma AfterHead(head: seq<Member>, rs: seq<Member>)
    ensures (head + rs)[|head|..] == rs
    ensures forall i :: 0 <= i < |head| ==> (head + rs)[i] == head[i]
    ensures forall i :: |head| <= i < |head + rs| ==> (head + rs)[i] == rs[i - |head|]
  {
  }

  /** The members for the keys `ks` of the map `m`, in that order. */
  function MembersOf(m: map<string, Json>, ks: seq<string>): (ms: seq<Member>)
    requires forall k :: k in ks ==> k in m
    ensures |ms| == |ks|
    ensures forall i :: 0 <= i < |ks| ==> ms[i] == Member(ks[i], m[ks[i]])
  {
    if ks == [] then []
    else MembersOf(m, ks[..|ks| - 1]) + [Member(ks[|ks| - 1], m[ks[|ks| - 1]])]
  }

  /** The members of a map, listed in ascending key order, read back as the map. */
  lemma MembersOfMap(m: map<string, Json>)
    ensures ToMap(MembersOf(m, SortedOf(m.Keys))) == m
  {
    var ks := SortedOf(m.Keys);
    MembersOfRead(m, ks);
    SameMap(ToMap(MembersOf(m, ks)), m);
  }

  lemma {:induction false} MembersOfRead(m: map<string, Json>, ks: seq<string>)
    requires forall k :: k in ks ==> k in m
    ensures forall k :: k in ToMap(MembersOf(m, ks)) <==> k in ks
    ensures forall k :: k in ToMap(MembersOf(m, ks)) ==> ToMap(MembersOf(m, ks))[k] == m[k]
  {
    if ks != [] {
      var init := ks[..|ks| - 1];
      var ms := MembersOf(m, ks);
      MembersOfRead(m, init);
      assert ms[..|ms| - 1] == MembersOf(m, init);
      assert forall k :: k in ks <==> k in init || k == ks[|ks| - 1];
    }
  }

  lemma SameMap(a: map<string, Json>, b: map<string, Json>)
    requires a.Keys == b.Keys && forall k :: k in a ==> a[k] == b[k]
    ensures a == b
  {
  }
}
