/**
 * The data items of the codec (a subset of RFC 8949): the decoded tree, the argument heads,
 * and the canonical encoding the writer produces.
 */
module Cbor {
  import opened Octets
  import opened Utf8

  /** A decoded value. Floats are carried as the 64 bits of the double. */
  datatype Value =
    | UInt(u: U64)
    | NInt(i: I64)
    | Text(text: seq<Octet>)
    | Bytes(bytes: seq<Octet>)
    | Array(items: seq<Value>)
    | Map(pairs: seq<Pair>)
    | Tag(num: U64, content: Value)
    | Float(bits: U64)
    | Bool(b: bool)
    | Null

  datatype Pair = Pair(key: Value, val: Value)

  const VALUE_SIZE: nat := 24  // sizeof(csilc_value) where pointers have 64 bits
  const PAIR_SIZE: nat := 16   // sizeof(csilc_pair)
  const MAX_DEPTH: nat := 64   // the deepest accepted nesting below the root
  const ROOT_ROOM: nat := MAX_DEPTH + 1

  /** The keys and values of a map in wire order. */
  function Flat(pairs: seq<Pair>): (vs: seq<Value>)
    ensures |vs| == 2 * |pairs|
  {
    if pairs == [] then [] else [pairs[0].key, pairs[0].val] + Flat(pairs[1..])
  }

  function PairUp(vs: seq<Value>): (pairs: seq<Pair>)
    requires |vs| % 2 == 0
    ensures |vs| == 2 * |pairs|
  {
    if vs == [] then [] else [Pair(vs[0], vs[1])] + PairUp(vs[2..])
  }

  lemma {:induction false} PairUpFlat(pairs: seq<Pair>)
    ensures PairUp(Flat(pairs)) == pairs
  {
    if pairs != [] {
      PairUpFlat(pairs[1..]);
      assert Flat(pairs)[2..] == Flat(pairs[1..]);
    }
  }

  lemma {:induction false} FlatPairUp(vs: seq<Value>)
    requires |vs| % 2 == 0
    ensures Flat(PairUp(vs)) == vs
  {
    if vs != [] {
      FlatPairUp(vs[2..]);
      assert PairUp(vs)[1..] == PairUp(vs[2..]);
      assert vs == [vs[0], vs[1]] + vs[2..];
    }
  }

  // ----- argument heads (RFC 8949, section 3) -----

  /** How many octets may follow the initial octet to carry its argument. */
  const WIDTHS: set<nat> := {0, 1, 2, 4, 8}

  /** The arguments below this fit a head of the given width. */
  function Capacity(w: nat): nat
  {
    if w == 0 then 24
    else if w == 1 then 0x100
    else if w == 2 then 0x1_0000
    else if w == 4 then 0x1_0000_0000
    else 0x1_0000_0000_0000_0000
  }

  lemma CapacityIsLimit(w: nat)
    requires w in WIDTHS && w > 0
    ensures Capacity(w) == Limit(w)
  {
    assert Limit(2) == 256 * Limit(1);
    assert Limit(3) == 256 * Limit(2);
    assert Limit(4) == 256 * Limit(3);
    assert Limit(5) == 256 * Limit(4);
    assert Limit(6) == 256 * Limit(5);
    assert Limit(7) == 256 * Limit(6);
    assert Limit(8) == 256 * Limit(7);
  }

  /** The five low bits of the initial octet. */
  function LowBits(n: nat, w: nat): nat
  {
    if w == 0 then Min(n, 23) else if w == 1 then 24 else if w == 2 then 25 else if w == 4 then 26 else 27
  }

  function InitialOctet(major: nat, low: nat): Octet
    requires major < 8 && low < 32
  {
    32 * major + low
  }

  /** The head of major type and argument n written with w argument octets. */
  function Head(major: nat, n: nat, w: nat): (s: seq<Octet>)
    requires major < 8
    ensures |s| == 1 + w
  {
    [InitialOctet(major, LowBits(n, w))] + BigEndian(n, w)
  }

  function ShortestWidth(n: nat): nat
  {
    if n < 24 then 0 else if n < 0x100 then 1 else if n < 0x1_0000 then 2 else if n < 0x1_0000_0000 then 4 else 8
  }

  /** The head deterministic encoding demands (RFC 8949, section 4.2.1). */
  function ShortHead(major: nat, n: nat): (s: seq<Octet>)
    requires major < 8
    ensures |s| == 1 + ShortestWidth(n)
  {
    Head(major, n, ShortestWidth(n))
  }

  // ----- the canonical encoding -----

  function Enc(v: Value): (s: seq<Octet>)
    ensures |s| >= 1
    decreases v, 0
  {
    match v
    case UInt(u) => ShortHead(0, u)
    case NInt(i) => if i >= 0 then ShortHead(0, i) else ShortHead(1, -1 - i)
    case Text(t) => ShortHead(3, |t|) + t
    case Bytes(t) => ShortHead(2, |t|) + t
    case Array(items) => ShortHead(4, |items|) + EncItems(items)
    case Map(pairs) => ShortHead(5, |pairs|) + EncPairs(pairs)
    case Tag(num, content) => ShortHead(6, num) + Enc(content)
    case Float(bits) => [0xFB] + BigEndian(bits, 8)
    case Bool(b) => if b then [0xF5] else [0xF4]
    case Null => [0xF6]
  }

  function EncItems(vs: seq<Value>): (s: seq<Octet>)
    decreases vs, 1
  {
    if vs == [] then [] else Enc(vs[0]) + EncItems(vs[1..])
  }

  function EncPairs(pairs: seq<Pair>): (s: seq<Octet>)
    decreases pairs, 1
  {
    if pairs == [] then [] else EncPair(pairs[0]) + EncPairs(pairs[1..])
  }

  function EncPair(pair: Pair): (s: seq<Octet>)
    decreases pair, 1
  {
    Enc(pair.key) + Enc(pair.val)
  }

  lemma {:induction false} EncPairsIsEncFlat(pairs: seq<Pair>)
    ensures EncPairs(pairs) == EncItems(Flat(pairs))
  {
    hide Enc;
    if pairs != [] {
      EncPairsIsEncFlat(pairs[1..]);
      var flat := Flat(pairs);
      assert flat[1..] == [pairs[0].val] + Flat(pairs[1..]);
      assert flat[1..][1..] == Flat(pairs[1..]);
    }
  }

  lemma {:induction false} EncItemsAppend(a: seq<Value>, b: seq<Value>)
    ensures EncItems(a + b) == EncItems(a) + EncItems(b)
  {
    hide Enc;
    if a == [] {
      NothingBefore(b);
      NothingBefore(EncItems(b));
    } else {
      EncItemsAppend(a[1..], b);
      Uncons(a, b);
      Associates(Enc(a[0]), EncItems(a[1..]), EncItems(b));
    }
  }

  lemma {:induction false} EncPairsAppend(a: seq<Pair>, b: seq<Pair>)
    ensures EncPairs(a + b) == EncPairs(a) + EncPairs(b)
  {
    hide Enc, EncPair;
    if a == [] {
      NothingBefore(b);
      NothingBefore(EncPairs(b));
    } else {
      EncPairsAppend(a[1..], b);
      Uncons(a, b);
      Associates(EncPair(a[0]), EncPairs(a[1..]), EncPairs(b));
    }
  }

  /** Values the decoder can produce with the given number of nesting levels, the value's own included. */
  ghost predicate WellFormed(v: Value, room: nat)
    decreases room
  {
    && room > 0
    && match v
       case NInt(i) => i < 0
       case Text(t) => IsUtf8(t) && |t| <= SIZE_MAX
       case Bytes(t) => |t| <= SIZE_MAX
       case Array(items) =>
         |items| <= SIZE_MAX / VALUE_SIZE && forall i :: 0 <= i < |items| ==> WellFormed(items[i], room - 1)
       case Map(pairs) =>
         && |pairs| <= SIZE_MAX / PAIR_SIZE
         && forall i :: 0 <= i < |pairs| ==> WellFormed(pairs[i].key, room - 1) && WellFormed(pairs[i].val, room - 1)
       case Tag(_, content) => WellFormed(content, room - 1)
       case _ => true
  }

  ghost predicate AllWellFormed(vs: seq<Value>, room: nat)
  {
    forall i :: 0 <= i < |vs| ==> WellFormed(vs[i], room)
  }

  lemma {:induction false} FlatWellFormed(pairs: seq<Pair>, room: nat)
    ensures AllWellFormed(Flat(pairs), room) <==>
            forall i :: 0 <= i < |pairs| ==> WellFormed(pairs[i].key, room) && WellFormed(pairs[i].val, room)
  {
    if pairs != [] {
      var rest := pairs[1..];
      FlatWellFormed(rest, room);
      var flat := Flat(pairs);
      assert flat == [pairs[0].key, pairs[0].val] + Flat(rest);
      assert flat[0] == pairs[0].key && flat[1] == pairs[0].val;
      assert forall i :: 0 <= i < |Flat(rest)| ==> Flat(rest)[i] == flat[i + 2];
      assert forall i :: 0 <= i < |rest| ==> rest[i] == pairs[i + 1];
      if AllWellFormed(flat, room) {
        forall i | 0 <= i < |Flat(rest)| ensures WellFormed(Flat(rest)[i], room) {
          assert WellFormed(flat[i + 2], room);
        }
        forall i | 0 <= i < |pairs| ensures WellFormed(pairs[i].key, room) && WellFormed(pairs[i].val, room) {
          if i > 0 { assert pairs[i] == rest[i - 1]; }
        }
      }
      if forall i :: 0 <= i < |pairs| ==> WellFormed(pairs[i].key, room) && WellFormed(pairs[i].val, room) {
        forall i | 0 <= i < |flat| ensures WellFormed(flat[i], room) {
          if i > 1 { assert flat[i] == Flat(rest)[i - 2]; }
        }
      }
    }
  }
}
