/** The codec as a whole: encoder, decoder and grammar agree. */
module Codec {
  import opened Octets
  import opened Utf8
  import opened Cbor
  import opened Grammar
  import opened Decoding
  import Floats

  /** A payload is one self-contained item with nothing after it. */
  ghost function Decode(b: seq<Octet>): Option<Value>
  {
    match Dec(b, ROOT_ROOM)
    case Rejected => None
    case Accepted(v, used) => if used == |b| then Some(v) else None
  }

  // ----- the encoder against the grammar -----

  lemma ShortestHead(b: seq<Octet>, major: nat, n: nat, w: nat, d: Dialect)
    requires major < 8 && HasHead(b, major, n, w, d)
    ensures ShortestWidth(n) <= w
    ensures ShortestWidth(n) == w ==> b[..1 + w] == ShortHead(major, n)
    ensures !d.longHeads ==> ShortestWidth(n) == w
  {
  }

  lemma ShortHeadIsHead(major: nat, n: nat, rest: seq<Octet>)
    requires major < 8 && n <= UINT64_MAX
    ensures HasHead(ShortHead(major, n) + rest, major, n, ShortestWidth(n), CANONICAL)
    ensures (ShortHead(major, n) + rest)[1 + ShortestWidth(n)..] == rest
  {
    assert (ShortHead(major, n) + rest)[..1 + ShortestWidth(n)] == ShortHead(major, n);
  }

  /** The encoding of a well-formed value is an item for it, in the canonical dialect. */
  lemma {:induction false} EncIsItem(v: Value, room: nat)
    requires WellFormed(v, room)
    ensures Item(Enc(v), v, room, CANONICAL)
    decreases room, 0
  {
    hide HasHead, IsUtf8, Items, EncItems, EncPairs, ShortHead, ShortestWidth, BigEndian, FromBigEndian;
    match v {
      case UInt(u) => IntegerIsItem(0, u);
      case NInt(i) => IntegerIsItem(1, -1 - i);
      case Text(t) => ShortHeadIsHead(3, |t|, t);
      case Bytes(t) => ShortHeadIsHead(2, |t|, t);
      case Array(items) =>
        ShortHeadIsHead(4, |items|, EncItems(items));
        EncIsItems(items, room - 1);
      case Map(pairs) =>
        ShortHeadIsHead(5, |pairs|, EncPairs(pairs));
        EncPairsIsEncFlat(pairs);
        FlatWellFormed(pairs, room - 1);
        EncIsItems(Flat(pairs), room - 1);
      case Tag(num, content) =>
        ShortHeadIsHead(6, num, Enc(content));
        EncIsItem(content, room - 1);
      case Float(bits) =>
        DoubleIsFloat(bits);
      case Bool(_) =>
      case Null =>
    }
  }

  lemma IntegerIsItem(major: nat, n: nat)
    requires major < 8 && n <= UINT64_MAX
    ensures JustHead(ShortHead(major, n), major, n, CANONICAL)
  {
    ShortHeadIsHead(major, n, []);
    assert ShortHead(major, n) + [] == ShortHead(major, n);
  }

  lemma DoubleIsFloat(bits: U64)
    ensures IsFloat([0xFB] + BigEndian(bits, 8), bits, CANONICAL)
  {
    CapacityIsLimit(8);
    BigEndianRoundTrip(bits, 8);
    assert ([0xFB] + BigEndian(bits, 8))[1..] == BigEndian(bits, 8);
  }

  lemma {:induction false} EncIsItems(vs: seq<Value>, room: nat)
    requires AllWellFormed(vs, room)
    ensures Items(EncItems(vs), vs, room, CANONICAL)
    decreases room, 1, |vs|
  {
    hide Enc, Item, WellFormed;
    if vs != [] {
      var k := |Enc(vs[0])|;
      assert WellFormed(vs[0], room);
      EncIsItem(vs[0], room);
      assert AllWellFormed(vs[1..], room) by {
        forall i | 0 <= i < |vs[1..]| ensures WellFormed(vs[1..][i], room) {
          assert vs[1..][i] == vs[i + 1];
        }
      }
      EncIsItems(vs[1..], room);
      assert EncItems(vs)[..k] == Enc(vs[0]) && EncItems(vs)[k..] == EncItems(vs[1..]);
      assert FirstItem(EncItems(vs), k, vs, room, CANONICAL);
    }
  }

  /**
   * The encoding is never longer than any other item for the value that writes its floats in 64 bits,
   * and when the lengths agree, or the item's heads are all shortest, the two are the same octets
   * unless the item spells null as undefined.
   */
  lemma {:induction false} EncIsShortest(b: seq<Octet>, v: Value, room: nat, d: Dialect)
    requires Item(b, v, room, d) && !d.narrowFloats
    ensures |Enc(v)| <= |b|
    ensures !d.undefined && (|b| == |Enc(v)| || !d.longHeads) ==> b == Enc(v)
    decreases room, 0
  {
    hide HasHead, IsUtf8, Items, EncItems, EncPairs, ShortHead, ShortestWidth, BigEndian, FromBigEndian;
    match v {
      case UInt(u) => IntegerShortest(b, 0, u, d);
      case NInt(i) => IntegerShortest(b, 1, -1 - i, d);
      case Text(t) =>
        var w: nat :| HasHead(b, 3, |t|, w, d) && b[1 + w..] == t;
        HeadAndTail(b, 3, |t|, w, d, t);
      case Bytes(t) =>
        var w: nat :| HasHead(b, 2, |t|, w, d) && b[1 + w..] == t;
        HeadAndTail(b, 2, |t|, w, d, t);
      case Array(items) =>
        var w: nat :| HasHead(b, 4, |items|, w, d) && Items(b[1 + w..], items, room - 1, d);
        EncItemsIsShortest(b[1 + w..], items, room - 1, d);
        HeadAndTail(b, 4, |items|, w, d, EncItems(items));
      case Map(pairs) =>
        var w: nat :| HasHead(b, 5, |pairs|, w, d) && Items(b[1 + w..], Flat(pairs), room - 1, d);
        EncPairsIsEncFlat(pairs);
        EncItemsIsShortest(b[1 + w..], Flat(pairs), room - 1, d);
        HeadAndTail(b, 5, |pairs|, w, d, EncPairs(pairs));
      case Tag(num, content) =>
        var w: nat :| HasHead(b, 6, num, w, d) && Item(b[1 + w..], content, room - 1, d);
        EncIsShortest(b[1 + w..], content, room - 1, d);
        HeadAndTail(b, 6, num, w, d, Enc(content));
      case Float(bits) =>
        FromBigEndianRoundTrip(b[1..]);
        assert b == [b[0]] + b[1..];
      case Bool(_) =>
      case Null =>
    }
  }

  /** The shortest head followed by a tail no longer than the one in b. */
  lemma HeadAndTail(b: seq<Octet>, major: nat, n: nat, w: nat, d: Dialect, tail: seq<Octet>)
    requires major < 8 && HasHead(b, major, n, w, d)
    requires |tail| <= |b[1 + w..]|
    requires !d.undefined && (|b[1 + w..]| == |tail| || !d.longHeads) ==> b[1 + w..] == tail
    ensures |ShortHead(major, n) + tail| <= |b|
    ensures !d.undefined && (|b| == |ShortHead(major, n) + tail| || !d.longHeads) ==> b == ShortHead(major, n) + tail
  {
    hide HasHead, ShortHead, ShortestWidth;
    ShortestHead(b, major, n, w, d);
    assert b == b[..1 + w] + b[1 + w..];
  }

  lemma IntegerShortest(b: seq<Octet>, major: nat, n: nat, d: Dialect)
    requires major < 8 && JustHead(b, major, n, d)
    ensures |ShortHead(major, n)| <= |b|
    ensures |b| == |ShortHead(major, n)| || !d.longHeads ==> b == ShortHead(major, n)
  {
    hide HasHead, ShortHead, ShortestWidth;
    var w: nat :| HasHead(b, major, n, w, d) && |b| == 1 + w;
    ShortestHead(b, major, n, w, d);
    assert b[..1 + w] == b;
  }

  lemma {:induction false} EncItemsIsShortest(b: seq<Octet>, vs: seq<Value>, room: nat, d: Dialect)
    requires Items(b, vs, room, d) && !d.narrowFloats
    ensures |EncItems(vs)| <= |b|
    ensures !d.undefined && (|b| == |EncItems(vs)| || !d.longHeads) ==> b == EncItems(vs)
    decreases room, 1, |vs|
  {
    hide Enc, Item;
    if vs != [] {
      var k: nat :| FirstItem(b, k, vs, room, d);
      EncIsShortest(b[..k], vs[0], room, d);
      EncItemsIsShortest(b[k..], vs[1..], room, d);
      assert b == b[..k] + b[k..];
    }
  }

  /** Only well-formed values have items. */
  lemma {:induction false} ItemWellFormed(b: seq<Octet>, v: Value, room: nat, d: Dialect)
    requires Item(b, v, room, d)
    ensures WellFormed(v, room)
    decreases room, 0
  {
    hide HasHead, IsUtf8, Items, IsFloat;
    match v {
      case Text(t) =>
        var w: nat :| HasHead(b, 3, |t|, w, d) && b[1 + w..] == t;
        HeadFits(b, 3, |t|, w, d);
      case Bytes(t) =>
        var w: nat :| HasHead(b, 2, |t|, w, d) && b[1 + w..] == t;
        HeadFits(b, 2, |t|, w, d);
      case Array(items) =>
        var w: nat :| HasHead(b, 4, |items|, w, d) && Items(b[1 + w..], items, room - 1, d);
        ItemsWellFormed(b[1 + w..], items, room - 1, d);
        assert AllWellFormed(items, room - 1);
      case Map(pairs) =>
        var w: nat :| HasHead(b, 5, |pairs|, w, d) && Items(b[1 + w..], Flat(pairs), room - 1, d);
        ItemsWellFormed(b[1 + w..], Flat(pairs), room - 1, d);
        FlatWellFormed(pairs, room - 1);
      case Tag(num, content) =>
        var w: nat :| HasHead(b, 6, num, w, d) && Item(b[1 + w..], content, room - 1, d);
        ItemWellFormed(b[1 + w..], content, room - 1, d);
      case _ =>
    }
  }

  lemma HeadFits(b: seq<Octet>, major: nat, n: nat, w: nat, d: Dialect)
    requires major < 8 && HasHead(b, major, n, w, d)
    ensures n <= UINT64_MAX
  {
  }

  lemma {:induction false} ItemsWellFormed(b: seq<Octet>, vs: seq<Value>, room: nat, d: Dialect)
    requires Items(b, vs, room, d)
    ensures AllWellFormed(vs, room)
    decreases room, 1, |vs|
  {
    hide Item, WellFormed;
    if vs != [] {
      var k: nat :| FirstItem(b, k, vs, room, d);
      ItemWellFormed(b[..k], vs[0], room, d);
      ItemsWellFormed(b[k..], vs[1..], room, d);
      forall i | 0 <= i < |vs| ensures WellFormed(vs[i], room) {
        if i > 0 { assert vs[i] == vs[1..][i - 1]; }
      }
    }
  }

  /**
   * Values a C program can hold: lengths fit size_t. When strict, NInt also holds a negative, so that the
   * encoding can only be read back as the value itself.
   */
  ghost predicate Plain(v: Value, strict: bool)
    decreases v, 0
  {
    match v
    case NInt(i) => strict ==> i < 0
    case Text(t) => |t| <= SIZE_MAX
    case Bytes(t) => |t| <= SIZE_MAX
    case Array(items) => |items| <= SIZE_MAX && forall i :: 0 <= i < |items| ==> Plain(items[i], strict)
    case Map(pairs) => |pairs| <= SIZE_MAX && forall i :: 0 <= i < |pairs| ==> PlainPair(pairs[i], strict)
    case Tag(_, content) => Plain(content, strict)
    case _ => true
  }

  ghost predicate PlainPair(pair: Pair, strict: bool)
    decreases pair, 1
  {
    Plain(pair.key, strict) && Plain(pair.val, strict)
  }

  ghost predicate AllPlain(vs: seq<Value>, strict: bool)
  {
    forall i :: 0 <= i < |vs| ==> Plain(vs[i], strict)
  }

  lemma {:induction false} FlatPlain(pairs: seq<Pair>, strict: bool)
    requires forall i :: 0 <= i < |pairs| ==> PlainPair(pairs[i], strict)
    ensures AllPlain(Flat(pairs), strict)
  {
    hide Plain;
    if pairs != [] {
      var rest := pairs[1..];
      assert forall i :: 0 <= i < |rest| ==> rest[i] == pairs[i + 1];
      FlatPlain(rest, strict);
      assert PlainPair(pairs[0], strict);
      forall i | 0 <= i < |Flat(pairs)| ensures Plain(Flat(pairs)[i], strict) {
        if i > 1 { assert Flat(pairs)[i] == Flat(rest)[i - 2]; }
      }
    }
  }

  /** If the octets of a plain value are accepted at all, they are read as that value. */
  lemma {:induction false} ReadsBackAsItself(v: Value, room: nat, suffix: seq<Octet>)
    requires Plain(v, true) && Dec(Enc(v) + suffix, room).Accepted?
    ensures Dec(Enc(v) + suffix, room) == Accepted(v, |Enc(v)|)
    decreases room, 2
  {
    hide Dec, ReadArg, IsUtf8, EncItems, EncPairs, ShortHead, BigEndian, Flat, Plain;
    RoomNeeded(Enc(v) + suffix, room);
    match v {
      case UInt(u) =>
        ReadsBackInteger(v, room, suffix);
      case NInt(i) =>
        ReadsBackInteger(v, room, suffix);
      case Text(t) =>
        ReadsBackString(v, t, room, suffix);
      case Bytes(t) =>
        ReadsBackString(v, t, room, suffix);
      case Array(items) =>
        PlainArray(items, true);
        ReadsBackList(v, 4, |items|, items, room, suffix);
      case Map(pairs) =>
        PlainMap(pairs, true);
        EncPairsIsEncFlat(pairs);
        ReadsBackList(v, 5, |pairs|, Flat(pairs), room, suffix);
      case Tag(num, content) =>
        PlainTag(v, true);
        ReadsBackTag(num, content, room, suffix);
      case Float(bits) =>
        DoubleIsFloat(bits);
        CompleteFloat(Enc(v), bits, room, CANONICAL, suffix);
      case Bool(_) =>
        CompleteSimple(Enc(v), room, suffix);
      case Null =>
        CompleteSimple(Enc(v), room, suffix);
    }
  }

  lemma ReadsBackInteger(v: Value, room: nat, suffix: seq<Octet>)
    requires Plain(v, true) && (v.UInt? || v.NInt?) && Dec(Enc(v) + suffix, room).Accepted?
    ensures Dec(Enc(v) + suffix, room) == Accepted(v, |Enc(v)|)
  {
    hide DecItems, DecSimple, IsUtf8, ShortHead, ReadArg;
    PlainNegative(v);
    if v.UInt? {
      ShortHeadRead(0, v.u, suffix);
    } else {
      ShortHeadRead(1, -1 - v.i, suffix);
    }
  }

  lemma ReadsBackString(v: Value, t: seq<Octet>, room: nat, suffix: seq<Octet>)
    requires Plain(v, true) && (v == Text(t) || v == Bytes(t)) && Dec(Enc(v) + suffix, room).Accepted?
    ensures Dec(Enc(v) + suffix, room) == Accepted(v, |Enc(v)|)
  {
    hide DecItems, DecSimple, IsUtf8, ShortHead, ReadArg;
    PlainString(v, t, true);
    var major := if v.Text? then 3 else 2;
    var h := ShortHead(major, |t|);
    var s := Enc(v) + suffix;
    assert s == h + (t + suffix);
    ShortHeadRead(major, |t|, t + suffix);
    assert s[|h|..|h| + |t|] == t;
  }

  lemma {:induction false} ReadsBackList(v: Value, major: nat, n: nat, vs: seq<Value>, room: nat, suffix: seq<Octet>)
    requires AllPlain(vs, true) && n <= SIZE_MAX
    requires (v == Array(vs) && major == 4 && n == |vs|)
             || (v.Map? && vs == Flat(v.pairs) && major == 5 && 2 * n == |vs|)
    requires Enc(v) == ShortHead(major, n) + EncItems(vs) && Dec(Enc(v) + suffix, room).Accepted?
    ensures Dec(Enc(v) + suffix, room) == Accepted(v, |Enc(v)|)
    decreases room, 1
  {
    hide DecItems, DecSimple, IsUtf8, ShortHead, ReadArg, Enc, Flat, PairUp, AllPlain;
    var s := Enc(v) + suffix;
    assert s == ShortHead(major, n) + (EncItems(vs) + suffix);
    ShortHeadRead(major, n, EncItems(vs) + suffix);
    ReadBackAsThemselves(vs, room - 1, suffix);
    if v.Map? { PairUpFlat(v.pairs); }
  }

  lemma {:induction false} ReadsBackTag(num: U64, content: Value, room: nat, suffix: seq<Octet>)
    requires Plain(content, true) && Dec(Enc(Tag(num, content)) + suffix, room).Accepted?
    ensures Dec(Enc(Tag(num, content)) + suffix, room) == Accepted(Tag(num, content), |Enc(Tag(num, content))|)
    decreases room, 1
  {
    hide DecItems, DecSimple, IsUtf8, ShortHead, ReadArg, Plain;
    var s := Enc(Tag(num, content)) + suffix;
    assert s == ShortHead(6, num) + (Enc(content) + suffix);
    ShortHeadRead(6, num, Enc(content) + suffix);
    ReadsBackAsItself(content, room - 1, suffix);
  }

  lemma PlainNegative(v: Value)
    requires Plain(v, true)
    ensures v.NInt? ==> v.i < 0
  {
  }

  lemma PlainString(v: Value, t: seq<Octet>, strict: bool)
    requires Plain(v, strict) && (v == Text(t) || v == Bytes(t))
    ensures |t| <= SIZE_MAX
  {
  }

  lemma PlainArray(items: seq<Value>, strict: bool)
    requires Plain(Array(items), strict)
    ensures |items| <= SIZE_MAX && AllPlain(items, strict)
  {
  }

  lemma PlainMap(pairs: seq<Pair>, strict: bool)
    requires Plain(Map(pairs), strict)
    ensures |pairs| <= SIZE_MAX && AllPlain(Flat(pairs), strict)
  {
    FlatPlain(pairs, strict);
  }

  lemma PlainTag(v: Value, strict: bool)
    requires Plain(v, strict)
    ensures v.Tag? ==> Plain(v.content, strict)
  {
  }

  /** Reading the head the encoder wrote. */
  lemma ShortHeadRead(major: nat, n: nat, rest: seq<Octet>)
    requires major < 8 && n <= UINT64_MAX
    ensures var s := ShortHead(major, n) + rest;
            && s[0] / 32 == major
            && ReadArg(s) == Some(Arg(n, |ShortHead(major, n)|))
            && s[|ShortHead(major, n)|..] == rest
  {
    hide HasHead;
    ShortHeadIsHead(major, n, rest);
    ReadHead(ShortHead(major, n) + rest, major, n, ShortestWidth(n), CANONICAL);
  }

  lemma {:induction false} ReadBackAsThemselves(vs: seq<Value>, room: nat, suffix: seq<Octet>)
    requires AllPlain(vs, true) && DecItems(EncItems(vs) + suffix, |vs|, room).Accepted?
    ensures DecItems(EncItems(vs) + suffix, |vs|, room) == Accepted(vs, |EncItems(vs)|)
    decreases room, 3, |vs|
  {
    hide Dec, Enc, Plain;
    if vs != [] {
      var rest := EncItems(vs[1..]) + suffix;
      assert EncItems(vs) + suffix == Enc(vs[0]) + rest;
      assert Plain(vs[0], true);
      ReadsBackAsItself(vs[0], room, rest);
      assert (EncItems(vs) + suffix)[|Enc(vs[0])|..] == rest;
      forall i | 0 <= i < |vs[1..]| ensures Plain(vs[1..][i], true) {
        assert vs[1..][i] == vs[i + 1];
      }
      ReadBackAsThemselves(vs[1..], room, suffix);
      assert [vs[0]] + vs[1..] == vs;
    }
  }

  // ----- main results -----

  /** The encoding of a plain value is accepted exactly when the value is well formed. */
  lemma EncodingAccepted(v: Value, suffix: seq<Octet>)
    requires Plain(v, true)
    ensures Dec(Enc(v) + suffix, ROOT_ROOM).Accepted? <==> WellFormed(v, ROOT_ROOM)
  {
    hide Dec, Enc, Plain, WellFormed;
    RoundTrip(v, suffix);
    if Dec(Enc(v) + suffix, ROOT_ROOM).Accepted? {
      ReadsBackAsItself(v, ROOT_ROOM, suffix);
    }
  }

  /** Exact acceptance: a payload decodes to v if and only if the grammar makes it an item for v. */
  lemma ExactAcceptance(b: seq<Octet>, v: Value)
    ensures Decode(b) == Some(v) <==> Item(b, v, ROOT_ROOM, ACCEPTED)
  {
    hide Dec, Item;
    if Decode(b) == Some(v) {
      Sound(b, ROOT_ROOM);
      assert b[..|b|] == b;
    }
    if Item(b, v, ROOT_ROOM, ACCEPTED) {
      Complete(b, v, ROOT_ROOM, ACCEPTED, []);
      assert b + [] == b;
    }
  }

  /** Full round trip: decoding an encoding gives the value back, whatever follows, exactly when it is well formed. */
  lemma RoundTrip(v: Value, suffix: seq<Octet>)
    ensures Dec(Enc(v) + suffix, ROOT_ROOM) == Accepted(v, |Enc(v)|) <==> WellFormed(v, ROOT_ROOM)
  {
    hide Dec, Item, Enc, WellFormed;
    if WellFormed(v, ROOT_ROOM) {
      EncIsItem(v, ROOT_ROOM);
      Complete(Enc(v), v, ROOT_ROOM, CANONICAL, suffix);
    }
    if Dec(Enc(v) + suffix, ROOT_ROOM) == Accepted(v, |Enc(v)|) {
      Sound(Enc(v) + suffix, ROOT_ROOM);
      ItemWellFormed((Enc(v) + suffix)[..|Enc(v)|], v, ROOT_ROOM, ACCEPTED);
    }
  }

  /** A plain value survives the wire exactly when it is well formed; otherwise its encoding is refused. */
  lemma WireRoundTrip(v: Value)
    requires Plain(v, true)
    ensures Decode(Enc(v)) == if WellFormed(v, ROOT_ROOM) then Some(v) else None
  {
    hide Dec, Enc, Plain, WellFormed;
    assert Enc(v) + [] == Enc(v);
    RoundTrip(v, []);
    EncodingAccepted(v, []);
  }

  /** Among the payloads for v that write floats in 64 bits and null as null, the encoding is the one shortest. */
  lemma UniqueShortest(b: seq<Octet>, v: Value)
    requires Item(b, v, ROOT_ROOM, STRICT)
    ensures Decode(b) == Some(v) && Decode(Enc(v)) == Some(v)
    ensures |Enc(v)| < |b| || Enc(v) == b
  {
    hide Dec, Item, Enc, WellFormed;
    Complete(b, v, ROOT_ROOM, STRICT, []);
    assert b + [] == b;
    EncIsShortest(b, v, ROOT_ROOM, STRICT);
    ItemWellFormed(b, v, ROOT_ROOM, STRICT);
    RoundTrip(v, []);
    assert Enc(v) + [] == Enc(v);
  }

  /** A payload re-encodes to its own octets exactly when it is in the canonical dialect. */
  lemma ReencodeExact(b: seq<Octet>, v: Value)
    requires Decode(b) == Some(v)
    ensures Enc(v) == b <==> Item(b, v, ROOT_ROOM, CANONICAL)
  {
    hide Dec, Item, Enc, WellFormed;
    ExactAcceptance(b, v);
    ItemWellFormed(b, v, ROOT_ROOM, ACCEPTED);
    EncIsItem(v, ROOT_ROOM);
    if Item(b, v, ROOT_ROOM, CANONICAL) {
      EncIsShortest(b, v, ROOT_ROOM, CANONICAL);
    }
  }

  lemma HalfOneOctets()
    ensures FromBigEndian([0x3C, 0x00]) == 0x3C00
  {
    assert FromBigEndian([0x3C]) == 0x3C by { assert [0x3C][..0] == []; }
    assert [0x3C, 0x00][..1] == [0x3C];
  }

  lemma HalfOneDecodes()
    ensures Decode([0xF9, 0x3C, 0x00]) == Some(Float(0x3FF0_0000_0000_0000))
  {
    hide Floats.HalfToDouble, Floats.IsWidened, Floats.IsWidenedHalf, Dec, FromBigEndian;
    var b: seq<Octet> := [0xF9, 0x3C, 0x00];
    assert b[1..] == [0x3C, 0x00];
    HalfOneOctets();
    Floats.HalfOne();
    Floats.HalfWidened(0x3C00, 0x3FF0_0000_0000_0000);
    CompleteFloat(b, 0x3FF0_0000_0000_0000, ROOT_ROOM, ACCEPTED, []);
    NothingBefore(b);
  }

  lemma UndefinedDecodes()
    ensures Decode([0xF7]) == Some(Null)
  {
    hide Dec;
    var b: seq<Octet> := [0xF7];
    CompleteSimple(b, ROOT_ROOM, []);
    NothingBefore(b);
  }

  lemma CounterexampleEncodings()
    ensures |Enc(Float(0x3FF0_0000_0000_0000))| == 9 && Enc(Null) == [0xF6]
  {
    hide BigEndian;
  }

  /**
   * RFC 8949 makes the half-precision 1.0 the deterministic form; it is accepted here, but re-encodes to
   * nine octets. Likewise undefined comes back as null.
   */
  lemma ReencodeCounterexample()
    ensures Decode([0xF9, 0x3C, 0x00]) == Some(Float(0x3FF0_0000_0000_0000))
    ensures Enc(Float(0x3FF0_0000_0000_0000)) != [0xF9, 0x3C, 0x00]
    ensures Decode([0xF7]) == Some(Null) && Enc(Null) == [0xF6]
  {
    hide Decode, Enc;
    HalfOneDecodes();
    UndefinedDecodes();
    CounterexampleEncodings();
  }

  /** What follows an item does not change what is read. */
  lemma SuffixIrrelevant(b: seq<Octet>, room: nat, suffix: seq<Octet>)
    requires Dec(b, room).Accepted?
    ensures Dec(b + suffix, room) == Dec(b, room)
    ensures Dec(b[..Dec(b, room).used], room) == Dec(b, room)
  {
    hide Dec, Item;
    var r := Dec(b, room);
    Sound(b, room);
    Complete(b[..r.used], r.value, room, ACCEPTED, b[r.used..] + suffix);
    assert b + suffix == b[..r.used] + (b[r.used..] + suffix);
    Complete(b[..r.used], r.value, room, ACCEPTED, []);
    assert b[..r.used] + [] == b[..r.used];
  }

  /** No payload is a proper prefix of another. */
  lemma PrefixFree(p: seq<Octet>, b: seq<Octet>)
    requires p <= b && Decode(p).Some? && Decode(b).Some?
    ensures p == b
  {
    hide Dec;
    SuffixIrrelevant(p, ROOT_ROOM, b[|p|..]);
    assert p + b[|p|..] == b;
  }

  function Concat(parts: seq<seq<Octet>>): seq<Octet>
  {
    if parts == [] then [] else parts[0] + Concat(parts[1..])
  }

  ghost predicate AllPayloads(parts: seq<seq<Octet>>)
  {
    forall i :: 0 <= i < |parts| ==> Decode(parts[i]).Some?
  }

  /** A concatenation of payloads splits into payloads in one way only. */
  lemma {:induction false} UniqueSplit(xs: seq<seq<Octet>>, ys: seq<seq<Octet>>)
    requires AllPayloads(xs) && AllPayloads(ys) && Concat(xs) == Concat(ys)
    ensures xs == ys
  {
    hide Decode;
    if xs != [] { FirstNotEmpty(xs); }
    if ys != [] { FirstNotEmpty(ys); }
    if xs != [] && ys != [] {
      var whole := Concat(xs);
      assert xs[0] <= whole && ys[0] <= whole;
      if |xs[0]| <= |ys[0]| {
        assert xs[0] <= ys[0];
        PrefixFree(xs[0], ys[0]);
      } else {
        assert ys[0] <= xs[0];
        PrefixFree(ys[0], xs[0]);
      }
      assert Concat(xs[1..]) == whole[|xs[0]|..] == Concat(ys[1..]);
      PayloadsTail(xs);
      PayloadsTail(ys);
      UniqueSplit(xs[1..], ys[1..]);
      assert xs == [xs[0]] + xs[1..] && ys == [ys[0]] + ys[1..];
    }
  }

  lemma FirstNotEmpty(xs: seq<seq<Octet>>)
    requires AllPayloads(xs) && xs != []
    ensures xs[0] != [] && Decode(xs[0]).Some?
  {
  }

  lemma PayloadsTail(xs: seq<seq<Octet>>)
    requires AllPayloads(xs) && xs != []
    ensures AllPayloads(xs[1..])
  {
    forall i | 0 <= i < |xs[1..]| ensures Decode(xs[1..][i]).Some? {
      assert xs[1..][i] == xs[i + 1];
    }
  }
}
