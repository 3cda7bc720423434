/** Trees that differ only in what a typed decoder does not look at, at any depth. */
module Alike {
  import opened Octets
  import opened Cbor
  import opened Fields
  import opened Readers

  /** How a decoder looks at a value: as a whole, element by element, or by the keys it names. */
  datatype Shape = Exactly | Each(element: Shape) | Keyed(parts: seq<Part>)

  datatype Part = Part(key: Key, shape: Shape)

  /** The values stored under a text key, in order. */
  function Under(pairs: seq<Pair>, key: seq<Octet>): seq<Value>
  {
    if pairs == [] then []
    else (if pairs[0].key == Text(key) then [pairs[0].val] else []) + Under(pairs[1..], key)
  }

  /** Equal, or lists with alike elements, or maps that hold alike values under the keys named, each at most once,
      in any order and among any other pairs. */
  ghost predicate AreAlike(v: Value, w: Value, shape: Shape)
    decreases shape, 0
  {
    v == w ||
    match shape
    case Exactly => false
    case Each(s) =>
      && v.Array? && w.Array? && |v.items| == |w.items|
      && forall i :: 0 <= i < |v.items| ==> AreAlike(v.items[i], w.items[i], s)
    case Keyed(parts) =>
      && v.Map? && w.Map?
      && forall i :: 0 <= i < |parts| ==> AlikeUnder(v.pairs, w.pairs, parts[i])
  }

  ghost predicate AlikeUnder(p: seq<Pair>, q: seq<Pair>, part: Part)
    decreases part, 1
  {
    var v, w := Under(p, Name(part.key)), Under(q, Name(part.key));
    |v| == |w| <= 1 && (|v| == 1 ==> AreAlike(v[0], w[0], part.shape))
  }

  lemma {:induction false} LookupIsFirst(pairs: seq<Pair>, key: seq<Octet>)
    ensures Lookup(pairs, key) == if Under(pairs, key) == [] then None else Some(Under(pairs, key)[0])
  {
    if pairs != [] { LookupIsFirst(pairs[1..], key); }
  }

  /** What alike maps hold under a key they are compared by: nothing in both, or alike values. */
  lemma AlikeFinds(m: Value, n: Value, parts: seq<Part>, i: nat)
    requires AreAlike(m, n, Keyed(parts)) && i < |parts|
    ensures Find(m, parts[i].key).Some? <==> Find(n, parts[i].key).Some?
    ensures Find(m, parts[i].key).Some? ==>
              AreAlike(Find(m, parts[i].key).value, Find(n, parts[i].key).value, parts[i].shape)
  {
    hide Name, Under, Lookup;
    if m != n {
      assert AlikeUnder(m.pairs, n.pairs, parts[i]);
      LookupIsFirst(m.pairs, Name(parts[i].key));
      LookupIsFirst(n.pairs, Name(parts[i].key));
    } else if Find(m, parts[i].key).Some? {
      AlikeToItself(Find(m, parts[i].key).value, parts[i].shape);
    }
  }

  lemma AlikeMaps(m: Value, n: Value, parts: seq<Part>)
    requires AreAlike(m, n, Keyed(parts))
    ensures m.Map? <==> n.Map?
  {
  }

  lemma AlikeToItself(v: Value, shape: Shape)
    ensures AreAlike(v, v, shape)
  {
  }

  /** Under a key compared exactly, alike maps hold the same. */
  lemma SameFind(m: Value, n: Value, parts: seq<Part>, i: nat)
    requires AreAlike(m, n, Keyed(parts)) && i < |parts| && parts[i].shape == Exactly
    ensures Find(m, parts[i].key) == Find(n, parts[i].key)
  {
    hide Find;
    AlikeFinds(m, n, parts, i);
  }

  /** Lists of alike items read the same when alike items do. */
  lemma {:induction false} ReadAllAlike<T>(p: seq<Value>, q: seq<Value>, read: Value -> Option<T>)
    requires |p| == |q| && forall i :: 0 <= i < |p| ==> read(p[i]) == read(q[i])
    ensures ReadAll(p, read) == ReadAll(q, read)
  {
    if p != [] {
      assert forall i :: 0 <= i < |p[1..]| ==> p[1..][i] == p[i + 1] && q[1..][i] == q[i + 1];
      ReadAllAlike(p[1..], q[1..], read);
    }
  }

  /** A list field reads the same from alike maps when its alike elements do. */
  lemma SameList<T>(m: Value, n: Value, parts: seq<Part>, i: nat, read: Value -> Option<T>)
    requires AreAlike(m, n, Keyed(parts)) && i < |parts| && parts[i].shape.Each?
    requires forall v, w :: AreAlike(v, w, parts[i].shape.element) ==> read(v) == read(w)
    ensures ListOf(Find(m, parts[i].key), read) == ListOf(Find(n, parts[i].key), read)
  {
    hide Find;
    AlikeFinds(m, n, parts, i);
    var f, g := Find(m, parts[i].key), Find(n, parts[i].key);
    if f.Some? && f.value != g.value {
      ReadAllAlike(f.value.items, g.value.items, read);
    }
  }

  // ----- reordering and foreign pairs make no difference -----

  lemma {:induction false} UnderIsMember(pairs: seq<Pair>, key: seq<Octet>, x: Value)
    ensures x in Under(pairs, key) <==> Pair(Text(key), x) in pairs
  {
    if pairs != [] {
      UnderIsMember(pairs[1..], key, x);
      assert pairs == [pairs[0]] + pairs[1..];
    }
  }

  lemma NamedByItsKey(p: Pair, keys: set<Key>, k: Key)
    requires k in keys && p.key == Text(Name(k))
    ensures Named(p, keys)
  {
    hide Name;
  }

  lemma {:induction false} UnderKnown(pairs: seq<Pair>, keys: set<Key>, k: Key)
    requires k in keys
    ensures Under(Known(pairs, keys), Name(k)) == Under(pairs, Name(k))
  {
    hide Name, Named;
    if pairs != [] {
      UnderKnown(pairs[1..], keys, k);
      if pairs[0].key == Text(Name(k)) { NamedByItsKey(pairs[0], keys, k); }
      if Named(pairs[0], keys) {
        var rest := Known(pairs[1..], keys);
        assert Known(pairs, keys)[0] == pairs[0] && Known(pairs, keys)[1..] == rest;
      }
    }
  }

  lemma {:induction false} UnderDistinct(pairs: seq<Pair>, key: seq<Octet>)
    requires DistinctKeys(pairs)
    ensures |Under(pairs, key)| <= 1
  {
    if pairs != [] {
      var rest := pairs[1..];
      assert forall i :: 0 <= i < |rest| ==> rest[i] == pairs[i + 1];
      UnderDistinct(rest, key);
      if pairs[0].key == Text(key) && Under(rest, key) != [] {
        UnderIsMember(rest, key, Under(rest, key)[0]);
        assert false;
      }
    }
  }

  /** Distinct named pairs in any order, among any other pairs, make alike maps. */
  lemma ReorderedIsAlike(m: Value, n: Value, parts: seq<Part>, keys: set<Key>)
    requires SameNamedPairs(m, n, keys) && forall i :: 0 <= i < |parts| ==> parts[i].key in keys
    ensures AreAlike(m, n, Keyed(parts))
  {
    hide Name, Under, Known, DistinctKeys;
    forall i | 0 <= i < |parts| ensures AlikeUnder(m.pairs, n.pairs, parts[i]) {
      var name := Name(parts[i].key);
      var p, q := Known(m.pairs, keys), Known(n.pairs, keys);
      UnderKnown(m.pairs, keys, parts[i].key);
      UnderKnown(n.pairs, keys, parts[i].key);
      PermutedDistinct(p, q);
      UnderDistinct(p, name);
      UnderDistinct(q, name);
      SameUnder(p, q, name);
      if |Under(p, name)| == 1 { AlikeToItself(Under(p, name)[0], parts[i].shape); }
    }
  }

  lemma SameUnder(p: seq<Pair>, q: seq<Pair>, key: seq<Octet>)
    requires multiset(p) == multiset(q) && |Under(p, key)| <= 1 && |Under(q, key)| <= 1
    ensures Under(p, key) == Under(q, key)
  {
    hide Under;
    assert forall x :: x in p <==> x in multiset(p);
    assert forall x :: x in q <==> x in multiset(q);
    forall x ensures x in Under(p, key) <==> x in Under(q, key) {
      UnderIsMember(p, key, x);
      UnderIsMember(q, key, x);
    }
    var v, w := Under(p, key), Under(q, key);
    assert |v| == 1 ==> v[0] in w;
    assert |w| == 1 ==> w[0] in v;
  }

  /** A permutation of pairs with distinct keys has distinct keys. */
  lemma PermutedDistinct(p: seq<Pair>, q: seq<Pair>)
    requires multiset(p) == multiset(q) && DistinctKeys(p)
    ensures DistinctKeys(q)
  {
    forall i, j | 0 <= i < j < |q| ensures q[i].key != q[j].key {
      if q[i].key == q[j].key {
        assert q[i] in multiset(p) && q[j] in multiset(p);
        assert q[i] in p && q[j] in p;
        assert q[i] == q[j];
        TwiceInMultiset(q, i, j);
        OnceInMultiset(p, q[i]);
      }
    }
  }

  lemma TwiceInMultiset(q: seq<Pair>, i: nat, j: nat)
    requires i < j < |q| && q[i] == q[j]
    ensures multiset(q)[q[i]] >= 2
  {
    assert q == q[..i + 1] + q[i + 1..];
    assert q[i] in q[..i + 1] && q[j] in q[i + 1..];
  }

  lemma {:induction false} OnceInMultiset(p: seq<Pair>, x: Pair)
    requires DistinctKeys(p)
    ensures multiset(p)[x] <= 1
  {
    if p != [] {
      var rest := p[1..];
      assert forall i :: 0 <= i < |rest| ==> rest[i] == p[i + 1];
      OnceInMultiset(rest, x);
      assert p == [p[0]] + rest;
      if p[0] == x { assert x !in rest; }
    }
  }
}
