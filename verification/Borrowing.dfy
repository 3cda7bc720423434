/** What a decoded tree borrows from the arena that holds it. */
module Borrowing {
  import opened Octets
  import opened Cbor

  /** Every string of the tree is stored in the arena, texts with the NUL that ends them. */
  ghost predicate Held(v: Value, contents: seq<seq<Octet>>)
    decreases v, 0
  {
    match v
    case Text(t) => t + [0] in contents
    case Bytes(t) => t in contents
    case Array(items) => forall i :: 0 <= i < |items| ==> Held(items[i], contents)
    case Map(pairs) => forall i :: 0 <= i < |pairs| ==> HeldPair(pairs[i], contents)
    case Tag(_, content) => Held(content, contents)
    case _ => true
  }

  ghost predicate HeldPair(pair: Pair, contents: seq<seq<Octet>>)
    decreases pair, 1
  {
    Held(pair.key, contents) && Held(pair.val, contents)
  }

  /** What has been stored stays stored while the arena only grows. */
  lemma {:induction false} HeldLater(v: Value, before: seq<seq<Octet>>, after: seq<seq<Octet>>)
    requires before <= after && Held(v, before)
    ensures Held(v, after)
    decreases v, 0
  {
    match v
    case Array(items) =>
      forall i | 0 <= i < |items| ensures Held(items[i], after) { HeldLater(items[i], before, after); }
    case Map(pairs) =>
      forall i | 0 <= i < |pairs| ensures HeldPair(pairs[i], after) { HeldPairLater(pairs[i], before, after); }
    case Tag(_, content) => HeldLater(content, before, after);
    case _ =>
  }

  lemma {:induction false} HeldPairLater(pair: Pair, before: seq<seq<Octet>>, after: seq<seq<Octet>>)
    requires before <= after && HeldPair(pair, before)
    ensures HeldPair(pair, after)
    decreases pair, 1
  {
    HeldLater(pair.key, before, after);
    HeldLater(pair.val, before, after);
  }

  /** Elements read before and one read since are all still stored. */
  lemma OneMoreHeld(items: seq<Value>, v: Value, before: seq<seq<Octet>>, after: seq<seq<Octet>>)
    requires before <= after && Held(Array(items), before) && Held(v, after)
    ensures Held(Array(items + [v]), after)
  {
    HeldLater(Array(items), before, after);
  }

  lemma OneMorePairHeld(pairs: seq<Pair>, pair: Pair, before: seq<seq<Octet>>, after: seq<seq<Octet>>)
    requires before <= after && Held(Map(pairs), before) && HeldPair(pair, after)
    ensures Held(Map(pairs + [pair]), after)
  {
    HeldLater(Map(pairs), before, after);
  }

  lemma NothingHeld(contents: seq<seq<Octet>>)
    ensures Held(Array([]), contents) && Held(Map([]), contents)
  {
  }

  lemma LeavesHeld(contents: seq<seq<Octet>>)
    ensures forall u: U64 :: Held(UInt(u), contents)
    ensures forall i: I64 :: Held(NInt(i), contents)
    ensures forall t: seq<Octet> :: t + [0] in contents ==> Held(Text(t), contents)
    ensures forall t: seq<Octet> :: t in contents ==> Held(Bytes(t), contents)
  {
  }

  lemma TagHeld(num: U64, content: Value, contents: seq<seq<Octet>>)
    requires Held(content, contents)
    ensures Held(Tag(num, content), contents)
  {
  }
}
