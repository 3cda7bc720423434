/** What the decoder computes, and its agreement with the grammar in both directions. */
module Decoding {
  import opened Octets
  import opened Utf8
  import opened Cbor
  import opened Grammar
  import Floats

  datatype Parse<+T> = Rejected | Accepted(value: T, used: nat)

  datatype Arg = Arg(value: U64, size: nat)

  /** The number of argument octets the five low bits announce. */
  function ArgWidth(low: nat): Option<nat>
  {
    if low < 24 then Some(0)
    else if low == 24 then Some(1)
    else if low == 25 then Some(2)
    else if low == 26 then Some(4)
    else if low == 27 then Some(8)
    else None
  }

  /** Read a head: its argument and its size. Reserved and indefinite lengths are refused. */
  function ReadArg(b: seq<Octet>): (r: Option<Arg>)
    requires b != []
    ensures r.Some? ==> 1 <= r.value.size <= |b|
  {
    var low := b[0] % 32;
    match ArgWidth(low)
    case None => None
    case Some(w) =>
      if w == 0 then Some(Arg(low, 1))
      else if |b| < 1 + w then None
      else
        var n := FromBigEndian(b[1..1 + w]);
        assert n < Capacity(w) by { CapacityIsLimit(w); }
        Some(Arg(n, 1 + w))
  }

  lemma SplitInitial(major: nat, low: nat)
    requires major < 8 && low < 32
    ensures InitialOctet(major, low) / 32 == major && InitialOctet(major, low) % 32 == low
  {
  }

  lemma WidthFromLow(n: nat, w: nat)
    requires FitsWidth(n, w)
    ensures ArgWidth(LowBits(n, w)) == Some(w) && LowBits(n, w) < 32 && (w == 0 ==> LowBits(n, w) == n)
  {
  }

  lemma ReadHead(b: seq<Octet>, major: nat, n: nat, w: nat, d: Dialect)
    requires major < 8 && HasHead(b, major, n, w, d)
    ensures b[0] / 32 == major && n <= UINT64_MAX && ReadArg(b) == Some(Arg(n, 1 + w))
  {
    hide ArgWidth, LowBits, InitialOctet, FromBigEndian, BigEndian;
    WidthFromLow(n, w);
    SplitInitial(major, LowBits(n, w));
    assert b[0] == Head(major, n, w)[0];
    if w > 0 {
      CapacityIsLimit(w);
      assert b[1..1 + w] == b[..1 + w][1..] == BigEndian(n, w);
      BigEndianRoundTrip(n, w);
    }
  }

  lemma HeadRead(b: seq<Octet>)
    requires b != [] && ReadArg(b).Some?
    ensures var a := ReadArg(b).value; HasHead(b, b[0] / 32, a.value, a.size - 1, ACCEPTED)
  {
    var a := ReadArg(b).value;
    var w := a.size - 1;
    assert b[0] == 32 * (b[0] / 32) + b[0] % 32;
    if w > 0 {
      CapacityIsLimit(w);
      FromBigEndianRoundTrip(b[1..1 + w]);
      assert b[..1 + w] == [b[0]] + b[1..1 + w];
    } else {
      assert b[..1] == [b[0]] + BigEndian(a.value, 0);
    }
  }

  /** Major type 7: the simple values and the floats. */
  function DecSimple(low: nat, a: Arg): (r: Parse<Value>)
    ensures r.Accepted? ==> r.used == a.size
  {
    if low == 20 then Accepted(Bool(false), a.size)
    else if low == 21 then Accepted(Bool(true), a.size)
    else if low == 22 || low == 23 then Accepted(Null, a.size)
    else if low == 25 then Accepted(Float(Floats.HalfToDouble(a.value % 0x1_0000)), a.size)
    else if low == 26 then Accepted(Float(Floats.SingleToDouble(a.value % 0x1_0000_0000)), a.size)
    else if low == 27 then Accepted(Float(a.value), a.size)
    else Rejected
  }

  /** The value at the start of b and the octets it takes; room is the nesting levels still allowed. */
  ghost function Dec(b: seq<Octet>, room: nat): (r: Parse<Value>)
    ensures r.Accepted? ==> 1 <= r.used <= |b|
    decreases room, 0
  {
    if room == 0 || b == [] || ReadArg(b).None? then Rejected
    else
      var major, low, a := b[0] / 32, b[0] % 32, ReadArg(b).value;
      if major == 0 then Accepted(UInt(a.value), a.size)
      else if major == 1 then
        if a.value > INT64_MAX then Rejected else Accepted(NInt(-1 - a.value), a.size)
      else if major == 2 || major == 3 then
        if a.value > |b| - a.size then Rejected
        else
          var t := b[a.size..a.size + a.value];
          if major == 2 then Accepted(Bytes(t), a.size + a.value)
          else if IsUtf8(t) then Accepted(Text(t), a.size + a.value)
          else Rejected
      else if major == 4 then
        if a.value > |b| - a.size || a.value > SIZE_MAX / VALUE_SIZE then Rejected
        else
          match DecItems(b[a.size..], a.value, room - 1)
          case Rejected => Rejected
          case Accepted(vs, m) => Accepted(Array(vs), a.size + m)
      else if major == 5 then
        if a.value > |b| - a.size || a.value > SIZE_MAX / PAIR_SIZE then Rejected
        else
          match DecItems(b[a.size..], 2 * a.value, room - 1)
          case Rejected => Rejected
          case Accepted(vs, m) => Accepted(Map(PairUp(vs)), a.size + m)
      else if major == 6 then
        match Dec(b[a.size..], room - 1)
        case Rejected => Rejected
        case Accepted(v, m) => Accepted(Tag(a.value, v), a.size + m)
      else DecSimple(low, a)
  }

  /** n values one after the other. */
  ghost function DecItems(b: seq<Octet>, n: nat, room: nat): (r: Parse<seq<Value>>)
    ensures r.Accepted? ==> n <= r.used <= |b| && |r.value| == n
    decreases room, 1, n
  {
    if n == 0 then Accepted([], 0)
    else
      match Dec(b, room)
      case Rejected => Rejected
      case Accepted(v, m) =>
        match DecItems(b[m..], n - 1, room)
        case Rejected => Rejected
        case Accepted(vs, k) => Accepted([v] + vs, m + k)
  }

  // ----- soundness -----

  lemma {:induction false} Sound(b: seq<Octet>, room: nat)
    requires Dec(b, room).Accepted?
    ensures var r := Dec(b, room); Item(b[..r.used], r.value, room, ACCEPTED)
    decreases room, 0
  {
    hide DecSimple, DecItems, ReadArg, HasHead, Items, JustHead, IsFloat, IsUtf8, Flat, PairUp;
    var major := b[0] / 32;
    if major < 2 {
      SoundInteger(b, room);
    } else if major < 4 {
      SoundString(b, room);
    } else if major == 7 {
      SoundSimple(b, room);
    } else {
      var r, a := Dec(b, room), ReadArg(b).value;
      var own := b[..r.used];
      OwnHead(b, r.used);
      assert own[a.size..] == b[a.size..][..r.used - a.size];
      if major == 4 {
        SoundItems(b[a.size..], a.value, room - 1);
      } else if major == 5 {
        SoundItems(b[a.size..], 2 * a.value, room - 1);
        FlatPairUp(DecItems(b[a.size..], 2 * a.value, room - 1).value);
      } else {
        Sound(b[a.size..], room - 1);
      }
    }
  }

  /** The head read from b is a head of every prefix of b that contains it. */
  lemma OwnHead(b: seq<Octet>, used: nat)
    requires b != [] && ReadArg(b).Some? && ReadArg(b).value.size <= used <= |b|
    ensures var a := ReadArg(b).value; HasHead(b[..used], b[0] / 32, a.value, a.size - 1, ACCEPTED)
  {
    HeadRead(b);
    assert b[..used][..ReadArg(b).value.size] == b[..ReadArg(b).value.size];
  }

  lemma SoundInteger(b: seq<Octet>, room: nat)
    requires b != [] && b[0] / 32 < 2 && Dec(b, room).Accepted?
    ensures var r := Dec(b, room); Item(b[..r.used], r.value, room, ACCEPTED)
  {
    OwnHead(b, Dec(b, room).used);
  }

  lemma SoundString(b: seq<Octet>, room: nat)
    requires b != [] && 2 <= b[0] / 32 < 4 && Dec(b, room).Accepted?
    ensures var r := Dec(b, room); Item(b[..r.used], r.value, room, ACCEPTED)
  {
    var r, a := Dec(b, room), ReadArg(b).value;
    var own, w, t := b[..r.used], a.size - 1, b[a.size..r.used];
    OwnHead(b, r.used);
    hide IsUtf8, HasHead, ReadArg;
    assert own[1 + w..] == t;
    assert |t| == a.value && HasHead(own, b[0] / 32, |t|, w, ACCEPTED);
  }

  lemma SoundSimple(b: seq<Octet>, room: nat)
    requires b != [] && b[0] / 32 == 7 && Dec(b, room).Accepted?
    ensures var r := Dec(b, room); Item(b[..r.used], r.value, room, ACCEPTED)
  {
    hide Floats.HalfToDouble, Floats.SingleToDouble, Floats.IsWidened, Floats.IsWidenedHalf, IsUtf8, FromBigEndian,
         DecItems, Dec, HasHead;
    assert room > 0 by { RoomNeeded(b, room); }
    DecMajor7(b, room);
    var low, a := b[0] % 32, ReadArg(b).value;
    var own := b[..a.size];
    assert own[1..] == b[1..a.size];
    if low < 24 {
      assert own == [b[0]];
    } else {
      CapacityIsLimit(a.size - 1);
      assert a.value == FromBigEndian(own[1..]) < Capacity(a.size - 1);
      if low == 25 { Floats.HalfWidened(a.value, Floats.HalfToDouble(a.value)); }
      if low == 26 { Floats.SingleWidened(a.value, Floats.SingleToDouble(a.value)); }
    }
  }

  lemma RoomNeeded(b: seq<Octet>, room: nat)
    ensures Dec(b, room).Accepted? ==> room > 0
  {
  }

  lemma DecMajor7(b: seq<Octet>, room: nat)
    requires room > 0 && b != [] && b[0] / 32 == 7
    ensures Dec(b, room) == if ReadArg(b).None? then Rejected else DecSimple(b[0] % 32, ReadArg(b).value)
  {
    hide ReadArg, DecSimple;
  }

  lemma {:induction false} SoundItems(b: seq<Octet>, n: nat, room: nat)
    requires DecItems(b, n, room).Accepted?
    ensures var r := DecItems(b, n, room); Items(b[..r.used], r.value, room, ACCEPTED)
    decreases room, 1, n
  {
    hide Dec, Item;
    if n > 0 {
      var m := Dec(b, room).used;
      var r := DecItems(b, n, room);
      Sound(b, room);
      SoundItems(b[m..], n - 1, room);
      var own := b[..r.used];
      assert own[..m] == b[..m];
      assert own[m..] == b[m..][..r.used - m];
      assert r.value[1..] == DecItems(b[m..], n - 1, room).value;
      assert FirstItem(own, m, r.value, room, ACCEPTED);
    }
  }

  // ----- completeness -----

  lemma {:induction false} Complete(b: seq<Octet>, v: Value, room: nat, d: Dialect, suffix: seq<Octet>)
    requires Item(b, v, room, d)
    ensures Dec(b + suffix, room) == Accepted(v, |b|)
    decreases room, 0
  {
    hide Dec, DecItems, HasHead, Items, IsFloat, IsUtf8, Flat;
    match v {
      case UInt(u) =>
        CompleteInteger(b, v, 0, u, room, d, suffix);
      case NInt(i) =>
        CompleteInteger(b, v, 1, -1 - i, room, d, suffix);
      case Text(t) =>
        var w: nat :| HasHead(b, 3, |t|, w, d) && b[1 + w..] == t;
        CompleteString(b, 3, t, room, w, d, suffix);
      case Bytes(t) =>
        var w: nat :| HasHead(b, 2, |t|, w, d) && b[1 + w..] == t;
        CompleteString(b, 2, t, room, w, d, suffix);
      case Array(items) =>
        var w: nat :| HasHead(b, 4, |items|, w, d) && Items(b[1 + w..], items, room - 1, d);
        CompleteItems(b[1 + w..], items, room - 1, d, suffix);
        CompleteList(b, v, 4, |items|, items, room, w, d, suffix);
      case Map(pairs) =>
        var w: nat :| HasHead(b, 5, |pairs|, w, d) && Items(b[1 + w..], Flat(pairs), room - 1, d);
        CompleteItems(b[1 + w..], Flat(pairs), room - 1, d, suffix);
        CompleteList(b, v, 5, |pairs|, Flat(pairs), room, w, d, suffix);
      case Tag(num, content) =>
        var w: nat :| HasHead(b, 6, num, w, d) && Item(b[1 + w..], content, room - 1, d);
        Complete(b[1 + w..], content, room - 1, d, suffix);
        CompleteTag(b, num, content, room, w, d, suffix);
      case Float(bits) =>
        CompleteFloat(b, bits, room, d, suffix);
      case Bool(_) =>
        CompleteSimple(b, room, suffix);
      case Null =>
        CompleteSimple(b, room, suffix);
    }
  }

  lemma CompleteInteger(b: seq<Octet>, v: Value, major: nat, n: nat, room: nat, d: Dialect, suffix: seq<Octet>)
    requires room > 0 && n <= UINT64_MAX
    requires (v == UInt(n) && major == 0) || (n <= INT64_MAX && v == NInt(-1 - n) && major == 1)
    requires JustHead(b, major, n, d)
    ensures Dec(b + suffix, room) == Accepted(v, |b|)
  {
    hide DecSimple, DecItems, ReadArg, HasHead;
    var w: nat :| HasHead(b, major, n, w, d) && |b| == 1 + w;
    CompleteHead(b, major, n, w, d, suffix);
  }

  /** A head and the items it announces. */
  lemma CompleteList(b: seq<Octet>, v: Value, major: nat, n: nat, vs: seq<Value>, room: nat, w: nat, d: Dialect,
                     suffix: seq<Octet>)
    requires room > 0 && major < 8 && HasHead(b, major, n, w, d)
    requires (v == Array(vs) && major == 4 && n == |vs| <= SIZE_MAX / VALUE_SIZE)
             || (v.Map? && vs == Flat(v.pairs) && major == 5 && 2 * n == |vs| && n <= SIZE_MAX / PAIR_SIZE)
    requires DecItems(b[1 + w..] + suffix, |vs|, room - 1) == Accepted(vs, |b| - 1 - w)
    ensures Dec(b + suffix, room) == Accepted(v, |b|)
  {
    hide DecSimple, DecItems, ReadArg, HasHead, IsUtf8, Flat, PairUp;
    CompleteHead(b, major, n, w, d, suffix);
    DropInFirst(b, suffix, 1 + w);
    if v.Map? { PairUpFlat(v.pairs); }
  }

  lemma CompleteTag(b: seq<Octet>, num: U64, content: Value, room: nat, w: nat, d: Dialect, suffix: seq<Octet>)
    requires room > 0 && HasHead(b, 6, num, w, d)
    requires Dec(b[1 + w..] + suffix, room - 1) == Accepted(content, |b| - 1 - w)
    ensures Dec(b + suffix, room) == Accepted(Tag(num, content), |b|)
  {
    hide DecSimple, DecItems, ReadArg, HasHead, IsUtf8;
    CompleteHead(b, 6, num, w, d, suffix);
    DropInFirst(b, suffix, 1 + w);
  }

  lemma CompleteString(b: seq<Octet>, major: nat, t: seq<Octet>, room: nat, w: nat, d: Dialect, suffix: seq<Octet>)
    requires (major == 2 || (major == 3 && IsUtf8(t))) && room > 0
    requires HasHead(b, major, |t|, w, d) && b[1 + w..] == t
    ensures Dec(b + suffix, room) == Accepted(if major == 3 then Text(t) else Bytes(t), |b|)
  {
    hide DecSimple, DecItems, ReadArg, HasHead, IsUtf8;
    var s := b + suffix;
    CompleteHead(b, major, |t|, w, d, suffix);
    assert s[1 + w..1 + w + |t|] == t;
  }

  lemma CompleteHead(b: seq<Octet>, major: nat, n: nat, w: nat, d: Dialect, suffix: seq<Octet>)
    requires major < 8 && HasHead(b, major, n, w, d)
    ensures var s := b + suffix; s[0] / 32 == major && n <= UINT64_MAX && ReadArg(s) == Some(Arg(n, 1 + w))
  {
    assert (b + suffix)[..1 + w] == b[..1 + w];
    ReadHead(b + suffix, major, n, w, d);
  }

  lemma CompleteFloat(b: seq<Octet>, bits: U64, room: nat, d: Dialect, suffix: seq<Octet>)
    requires room > 0 && IsFloat(b, bits, d)
    ensures Dec(b + suffix, room) == Accepted(Float(bits), |b|)
  {
    hide Floats.HalfToDouble, Floats.SingleToDouble, Floats.IsWidened, Floats.IsWidenedHalf, FromBigEndian, Dec;
    Floats.HalfWidened(FromBigEndian(b[1..]), bits);
    Floats.SingleWidened(FromBigEndian(b[1..]), bits);
    var s := b + suffix;
    assert s[1..|b|] == b[1..];
    assert s[0] == b[0];
    DecMajor7(s, room);
  }

  lemma CompleteSimple(b: seq<Octet>, room: nat, suffix: seq<Octet>)
    requires room > 0 && |b| == 1 && 0xF4 <= b[0] <= 0xF7
    ensures Dec(b + suffix, room) ==
            Accepted(if b[0] == 0xF4 then Bool(false) else if b[0] == 0xF5 then Bool(true) else Null, 1)
  {
    hide Dec;
    DecMajor7(b + suffix, room);
  }

  lemma {:induction false} CompleteItems(b: seq<Octet>, vs: seq<Value>, room: nat, d: Dialect, suffix: seq<Octet>)
    requires Items(b, vs, room, d)
    ensures DecItems(b + suffix, |vs|, room) == Accepted(vs, |b|)
    decreases room, 1, |vs|
  {
    hide Dec, Item;
    if vs != [] {
      var k: nat :| FirstItem(b, k, vs, room, d);
      Complete(b[..k], vs[0], room, d, b[k..] + suffix);
      CompleteItems(b[k..], vs[1..], room, d, suffix);
      SplitAt(b, k);
      Associates(b[..k], b[k..], suffix);
      DropInFirst(b, suffix, k);
      SplitAt(vs, 1);
      assert vs[..1] == [vs[0]];
    }
  }
}
