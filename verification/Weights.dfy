/** How many values a tree is made of; it is never more than the octets it was decoded from. */
module Weights {
  import opened Octets
  import opened Cbor
  import opened Decoding
  import opened Codec
  import opened Fields
  import opened Readers

  /** The values of a tree, itself, its keys and its tags included. */
  function Nodes(v: Value): (n: nat)
    ensures n > 0
    decreases v
  {
    match v
    case Array(items) => 1 + NodesIn(items)
    case Map(pairs) => 1 + NodesInPairs(pairs)
    case Tag(_, content) => 1 + Nodes(content)
    case _ => 1
  }

  function NodesIn(vs: seq<Value>): (n: nat)
    ensures n >= |vs|
    decreases vs
  {
    if vs == [] then 0 else Nodes(vs[0]) + NodesIn(vs[1..])
  }

  function NodesInPairs(pairs: seq<Pair>): nat
    decreases pairs
  {
    if pairs == [] then 0 else NodesInPair(pairs[0]) + NodesInPairs(pairs[1..])
  }

  function NodesInPair(pair: Pair): (n: nat)
    ensures n >= 2
    decreases pair
  {
    Nodes(pair.key) + Nodes(pair.val)
  }

  lemma {:induction false} NodesInFlat(pairs: seq<Pair>)
    ensures NodesIn(Flat(pairs)) == NodesInPairs(pairs)
  {
    if pairs != [] {
      NodesInFlat(pairs[1..]);
      var flat := Flat(pairs);
      assert flat[1..] == [pairs[0].val] + Flat(pairs[1..]);
      assert flat[1..][1..] == Flat(pairs[1..]);
    }
  }

  /** Every value takes at least an octet. */
  lemma {:induction false} NodesPaid(b: seq<Octet>, room: nat)
    requires Dec(b, room).Accepted?
    ensures Nodes(Dec(b, room).value) <= Dec(b, room).used
    decreases room, 0
  {
    hide DecSimple, DecItems, ReadArg, Flat, PairUp, NodesIn, NodesInPairs;
    var major, a := b[0] / 32, ReadArg(b).value;
    if major == 4 {
      ItemNodesPaid(b[a.size..], a.value, room - 1);
    } else if major == 5 {
      ItemNodesPaid(b[a.size..], 2 * a.value, room - 1);
      var vs := DecItems(b[a.size..], 2 * a.value, room - 1).value;
      FlatPairUp(vs);
      NodesInFlat(PairUp(vs));
    } else if major == 6 {
      NodesPaid(b[a.size..], room - 1);
    } else if major == 7 {
      SimpleIsOneNode(b[0] % 32, a);
    }
  }

  lemma SimpleIsOneNode(low: nat, a: Arg)
    requires DecSimple(low, a).Accepted?
    ensures Nodes(DecSimple(low, a).value) == 1
  {
  }

  lemma {:induction false} ItemNodesPaid(b: seq<Octet>, n: nat, room: nat)
    requires DecItems(b, n, room).Accepted?
    ensures NodesIn(DecItems(b, n, room).value) <= DecItems(b, n, room).used
    decreases room, 1, n
  {
    hide Dec, Nodes;
    if n > 0 {
      NodesPaid(b, room);
      ItemNodesPaid(b[Dec(b, room).used..], n - 1, room);
      assert DecItems(b, n, room).value[1..] == DecItems(b[Dec(b, room).used..], n - 1, room).value;
    }
  }

  /** The nodes under an optional field. */
  function Weight(f: Option<Value>): nat
  {
    if f.Some? then Nodes(f.value) else 0
  }

  lemma {:induction false} LookupWeight(pairs: seq<Pair>, key: seq<Octet>)
    ensures Lookup(pairs, key).Some? ==> Weight(Lookup(pairs, key)) < NodesInPairs(pairs)
  {
    hide Nodes;
    if pairs != [] { LookupWeight(pairs[1..], key); }
  }

  /** What stands under a key of a map is lighter than the map. */
  lemma FindWeight(m: Value, k: Key)
    ensures Weight(Find(m, k)) < Nodes(m)
  {
    hide Name;
    if m.Map? { LookupWeight(m.pairs, Name(k)); }
  }

  lemma {:induction false} NodesInAppend(p: seq<Value>, q: seq<Value>)
    ensures NodesIn(p + q) == NodesIn(p) + NodesIn(q)
  {
    hide Nodes;
    if p == [] {
      NothingBefore(q);
    } else {
      NodesInAppend(p[1..], q);
      Uncons(p, q);
    }
  }

  /** The nodes of the first i + 1 items. */
  lemma NodesStep(items: seq<Value>, i: nat)
    requires i < |items|
    ensures NodesIn(items[..i + 1]) == NodesIn(items[..i]) + Nodes(items[i])
    ensures NodesIn(items[..i + 1]) <= NodesIn(items)
  {
    hide Nodes, NodesIn;
    var done, rest := items[..i + 1], items[i + 1..];
    assert done == items[..i] + [items[i]];
    NodesInAppend(items[..i], [items[i]]);
    NodesInOne(items[i]);
    SplitAt(items, i + 1);
    NodesInAppend(done, rest);
  }

  lemma NodesInOne(v: Value)
    ensures NodesIn([v]) == Nodes(v)
  {
    hide Nodes;
    assert NodesIn([v]) == Nodes(v) + NodesIn([]);
  }

  lemma NoNodes()
    ensures NodesIn([]) == 0
  {
  }

  lemma MapWeight(pairs: seq<Pair>)
    ensures Nodes(Map(pairs)) == 1 + NodesInPairs(pairs) && NodesInPairs(pairs) >= 2 * |pairs|
  {
    PairsCounted(pairs);
  }

  lemma ArrayWeight(items: seq<Value>)
    ensures Nodes(Array(items)) == 1 + NodesIn(items) && NodesIn(items) >= |items|
  {
  }

  lemma ItemWeight(items: seq<Value>, i: nat)
    requires i < |items|
    ensures Nodes(items[i]) < Nodes(Array(items))
  {
    hide Nodes, NodesIn;
    NodesStep(items, i);
    ArrayWeight(items);
  }

  /** A decoded tree has no more nodes than the payload has octets. */
  lemma DecodedNodes(b: seq<Octet>, v: Value)
    requires Decode(b) == Some(v)
    ensures Nodes(v) <= |b|
  {
    hide Dec;
    NodesPaid(b, ROOT_ROOM);
  }

  lemma {:induction false} PairsCounted(pairs: seq<Pair>)
    ensures 2 * |pairs| <= NodesInPairs(pairs)
  {
    if pairs != [] { PairsCounted(pairs[1..]); }
  }
}
