/** JavaScript's Map and Set as used in this project: iteration is in insertion order. */
module OrderedMaps {
  import opened Common

  /** Each value once, where it first appears. */
  function FirstSeen<T(==)>(s: seq<T>): (r: seq<T>)
    ensures forall x | x in r :: x in s
    ensures forall x | x in s :: x in r
    ensures forall i, j :: 0 <= i < j < |r| ==> r[i] != r[j]
    ensures |r| <= |s|
  {
    if s == [] then []
    else
      var r := FirstSeen(s[..|s| - 1]);
      if s[|s| - 1] in r then r else r + [s[|s| - 1]]
  }

  function Map<T, U>(s: seq<T>, f: T -> U): (r: seq<U>)
    ensures |r| == |s| && forall i :: 0 <= i < |s| ==> r[i] == f(s[i])
  {
    seq(|s|, i requires 0 <= i < |s| => f(s[i]))
  }

  function Other<T(==)>(x: T): T -> bool { y => y != x }

  /** A map together with the order in which its keys were first set. */
  datatype OrderedMap<K(==), V> = OrderedMap(keys: seq<K>, entries: map<K, V>) {
    ghost predicate Valid() {
      && Distinct(keys)
      && (forall k | k in keys :: k in entries)
      && (forall k | k in entries :: k in keys)
    }

    /** Setting an existing key keeps its place. */
    function Set(k: K, v: V): OrderedMap<K, V> {
      OrderedMap(if k in entries then keys else keys + [k], entries[k := v])
    }

    function Delete(k: K): OrderedMap<K, V> {
      OrderedMap(Filter(keys, Other(k)), entries - {k})
    }

    function Values(): (vs: seq<V>)
      requires Valid()
      ensures |vs| == |keys| && forall i :: 0 <= i < |keys| ==> vs[i] == entries[keys[i]]
    {
      seq(|keys|, i requires 0 <= i < |keys| => entries[keys[i]])
    }
  }

  lemma {:induction false} FilterDistinct<T>(s: seq<T>, p: T -> bool)
    requires Distinct(s)
    ensures Distinct(Filter(s, p))
  {
    if s != [] {
      var rest := Filter(s[1..], p);
      FilterDistinct(s[1..], p);
      forall i | 0 <= i < |rest| ensures rest[i] != s[0] { assert rest[i] in s[1..]; }
    }
  }

  lemma {:induction false} FilterOther<T>(s: seq<T>, x: T)
    requires x !in s
    ensures Filter(s, Other(x)) == s
  {
    if s != [] { FilterOther(s[1..], x); }
  }

  lemma IsOther<T>(s: seq<T>, x: T)
    ensures forall y | y in s :: y in Filter(s, Other(x)) <==> y != x
    ensures forall y | y in Filter(s, Other(x)) :: y in s && y != x
  {
    assert forall y | y in s :: Other(x)(y) <==> y != x;
  }

  lemma DeleteValid<K, V>(m: OrderedMap<K, V>, k: K)
    requires m.Valid()
    ensures m.Delete(k).Valid()
    ensures k !in m.entries ==> m.Delete(k) == m
  {
    FilterDistinct(m.keys, Other(k));
    IsOther(m.keys, k);
    if k !in m.entries { DeleteNone(m, k); }
  }

  lemma DeleteNone<K, V>(m: OrderedMap<K, V>, k: K)
    requires k !in m.entries && k !in m.keys
    ensures m.Delete(k) == m
  {
    FilterOther(m.keys, k);
    assert m.entries - {k} == m.entries;
  }

  /** The items of one group, in order. */
  function Members<T, K(==)>(items: seq<T>, key: T -> K, k: K): seq<T> {
    Filter(items, (x: T) => key(x) == k)
  }

  /** The groups of items, keyed and ordered as they first appear. */
  ghost predicate Grouped<T, K>(groups: OrderedMap<K, seq<T>>, items: seq<T>, key: T -> K) {
    && groups.Valid()
    && groups.keys == FirstSeen(Map(items, key))
    && (forall k :: k in groups.entries ==> groups.entries[k] == Members(items, key, k))
  }

  lemma MembersConcat<T, K>(a: seq<T>, b: seq<T>, key: T -> K, k: K)
    ensures Members(a + b, key, k) == Members(a, key, k) + Members(b, key, k)
  {
    FilterAppend(a, b, (x: T) => key(x) == k);
  }

  lemma MembersStep<T, K>(items: seq<T>, key: T -> K, k: K)
    requires items != []
    ensures Members(items, key, k) == (if key(items[0]) == k then [items[0]] else []) + Members(items[1..], key, k)
  {
  }

  lemma IsMember<T, K>(items: seq<T>, key: T -> K, k: K, x: T)
    ensures x in Members(items, key, k) <==> x in items && key(x) == k
  {
    var p := (y: T) => key(y) == k;
    assert Members(items, key, k) == Filter(items, p);
    assert p(x) == (key(x) == k);
  }

  lemma MembersAppend<T, K>(items: seq<T>, x: T, key: T -> K, k: K)
    ensures Members(items + [x], key, k) == Members(items, key, k) + if key(x) == k then [x] else []
  {
    MembersConcat(items, [x], key, k);
  }

  lemma {:induction false} NoMembers<T, K>(items: seq<T>, key: T -> K, k: K)
    requires k !in Map(items, key)
    ensures Members(items, key, k) == []
  {
    if items != [] {
      assert Map(items, key)[0] == key(items[0]) && Map(items, key)[1..] == Map(items[1..], key);
      NoMembers(items[1..], key, k);
    }
  }

  /** One pass over the items, appending each to the bucket of its key. */
  method GroupBy<T, K(==)>(items: seq<T>, key: T -> K) returns (groups: OrderedMap<K, seq<T>>)
    ensures Grouped(groups, items, key)
  {
    groups := OrderedMap([], map[]);
    for i := 0 to |items|
      invariant Grouped(groups, items[..i], key)
    {
      var x := items[i];
      var k := key(x);
      ghost var before := items[..i];
      assert items[..i + 1] == before + [x];
      assert Map(items[..i + 1], key)[..i] == Map(before, key);
      forall k' { MembersAppend(before, x, key, k'); }
      if k !in groups.entries {
        NoMembers(before, key, k);
        groups := groups.Set(k, [x]);
      } else {
        groups := groups.Set(k, groups.entries[k] + [x]);
      }
    }
    assert items[..|items|] == items;
  }
}
