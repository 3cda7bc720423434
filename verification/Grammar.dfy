/**
 * Which octet strings are data items, stated as a relation between an octet string and a value:
 * RFC 8949, section 3, cut down to definite lengths, the simple values false, true, null and undefined,
 * UTF-8 text, and negative integers that fit 64 bits.
 */
module Grammar {
  import opened Octets
  import opened Utf8
  import opened Cbor
  import Floats

  /** Optional freedoms of the grammar. */
  datatype Dialect = Dialect(
    longHeads: bool,     // heads may be longer than their argument needs
    undefined: bool,     // undefined (0xF7) may stand for null
    narrowFloats: bool)  // floats may be written in 16 or 32 bits

  /** Everything the decoder accepts. */
  const ACCEPTED := Dialect(true, true, true)

  /** One spelling per float and per null; heads still free. */
  const STRICT := Dialect(true, false, false)

  /** The deterministic form the encoder writes. */
  const CANONICAL := Dialect(false, false, false)

  predicate FitsWidth(n: nat, w: nat)
  {
    w in WIDTHS && n < Capacity(w)
  }

  /** b begins with a head for major type and argument n that has w argument octets. */
  predicate HasHead(b: seq<Octet>, major: nat, n: nat, w: nat, d: Dialect): (has: bool)
    requires major < 8
    ensures has ==> |b| >= 1 + w
  {
    && FitsWidth(n, w)
    && (d.longHeads || w == ShortestWidth(n))
    && |b| >= 1 + w
    && b[..1 + w] == Head(major, n, w)
  }

  /** b is a head and nothing more. */
  ghost predicate JustHead(b: seq<Octet>, major: nat, n: nat, d: Dialect)
    requires major < 8
  {
    exists w: nat :: HasHead(b, major, n, w, d) && |b| == 1 + w
  }

  /** b is exactly one data item for v, and nests at most room levels including its own. */
  ghost predicate Item(b: seq<Octet>, v: Value, room: nat, d: Dialect)
    decreases room, 0
  {
    && room > 0
    && match v
       case UInt(u) => JustHead(b, 0, u, d)
       case NInt(i) => i < 0 && JustHead(b, 1, -1 - i, d)
       case Text(t) => IsUtf8(t) && exists w: nat :: HasHead(b, 3, |t|, w, d) && b[1 + w..] == t
       case Bytes(t) => exists w: nat :: HasHead(b, 2, |t|, w, d) && b[1 + w..] == t
       case Array(items) =>
         && |items| <= SIZE_MAX / VALUE_SIZE
         && exists w: nat :: HasHead(b, 4, |items|, w, d) && Items(b[1 + w..], items, room - 1, d)
       case Map(pairs) =>
         && |pairs| <= SIZE_MAX / PAIR_SIZE
         && exists w: nat :: HasHead(b, 5, |pairs|, w, d) && Items(b[1 + w..], Flat(pairs), room - 1, d)
       case Tag(num, content) => exists w: nat :: HasHead(b, 6, num, w, d) && Item(b[1 + w..], content, room - 1, d)
       case Float(bits) => IsFloat(b, bits, d)
       case Bool(x) => b == [if x then 0xF5 else 0xF4]
       case Null => b == [0xF6] || (d.undefined && b == [0xF7])
  }

  /** A double as it is, or a narrower float with the same sign and number, an infinity for an infinity, a NaN for a
      quiet NaN with its payload. */
  predicate IsFloat(b: seq<Octet>, bits: U64, d: Dialect)
  {
    || (|b| == 9 && b[0] == 0xFB && FromBigEndian(b[1..]) == bits)
    || (d.narrowFloats && |b| == 5 && b[0] == 0xFA && Floats.IsWidened(FromBigEndian(b[1..]), bits))
    || (d.narrowFloats && |b| == 3 && b[0] == 0xF9 && Floats.IsWidenedHalf(FromBigEndian(b[1..]), bits))
  }

  /** b is the concatenation of one data item for each of vs. */
  ghost predicate Items(b: seq<Octet>, vs: seq<Value>, room: nat, d: Dialect)
    decreases room, 1, |vs|
  {
    if vs == [] then b == []
    else exists k: nat :: FirstItem(b, k, vs, room, d)
  }

  /** The first k octets of b are an item for vs[0], the others are items for the rest. */
  ghost predicate FirstItem(b: seq<Octet>, k: nat, vs: seq<Value>, room: nat, d: Dialect)
    requires vs != []
    decreases room, 1, |vs|, 0
  {
    k <= |b| && Item(b[..k], vs[0], room, d) && Items(b[k..], vs[1..], room, d)
  }
}
