/** The limits of the decoder, on octets. */
module Limits {
  import opened Octets
  import opened Cbor
  import opened Grammar
  import opened Decoding
  import opened Codec

  /** The ways to nest: an array of one item, a map whose only key is 0, and a tag. */
  datatype Level = ListOfOne | UnderZero | Tagged

  function Opening(level: Level): seq<Octet>
  {
    match level
    case ListOfOne => [0x81]
    case UnderZero => [0xA1, 0x00]
    case Tagged => [0xC1]
  }

  /** The integer 0 inside the given levels, the outermost first. */
  function Nested(levels: seq<Level>): (s: seq<Octet>)
    ensures |s| > |levels|
  {
    if levels == [] then [0x00] else Opening(levels[0]) + Nested(levels[1..])
  }

  lemma ZeroDecodes(rest: seq<Octet>, room: nat)
    ensures Dec([0x00] + rest, room) == if room > 0 then Accepted(UInt(0), 1) else Rejected
  {
    assert ([0x00] + rest)[0] == 0;
  }

  /** One item, and nothing after it. */
  lemma OneItem(b: seq<Octet>, room: nat)
    ensures DecItems(b, 1, room) == match Dec(b, room)
                                    case Rejected => Rejected
                                    case Accepted(v, m) => Accepted([v], m)
  {
    hide Dec;
    if Dec(b, room).Accepted? {
      var m := Dec(b, room).used;
      assert DecItems(b[m..], 0, room) == Accepted([], 0);
      assert [Dec(b, room).value] + [] == [Dec(b, room).value];
    }
  }

  lemma ZeroAndItem(b: seq<Octet>, room: nat)
    requires room > 0
    ensures DecItems([0x00] + b, 2, room) == match Dec(b, room)
                                             case Rejected => Rejected
                                             case Accepted(v, m) => Accepted([UInt(0), v], m + 1)
  {
    hide Dec;
    var s := [0x00] + b;
    ZeroDecodes(b, room);
    assert s[1..] == b;
    OneItem(b, room);
    if Dec(b, room).Accepted? { assert [UInt(0)] + [Dec(b, room).value] == [UInt(0), Dec(b, room).value]; }
  }

  lemma ListDecodes(b: seq<Octet>, room: nat)
    requires b != [] && room > 0
    ensures Dec([0x81] + b, room) == match Dec(b, room - 1)
                                     case Rejected => Rejected
                                     case Accepted(v, m) => Accepted(Array([v]), m + 1)
  {
    hide DecItems;
    var s := [0x81] + b;
    assert s[0] == 0x81 && s[1..] == b && ReadArg(s) == Some(Arg(1, 1));
    OneItem(b, room - 1);
  }

  lemma MapDecodes(b: seq<Octet>, room: nat)
    requires b != [] && room > 0
    ensures Dec([0xA1, 0x00] + b, room) == match Dec(b, room - 1)
                                           case Rejected => Rejected
                                           case Accepted(v, m) => Accepted(Map([Pair(UInt(0), v)]), m + 2)
  {
    hide DecItems, PairUp;
    var s := [0xA1, 0x00] + b;
    assert s[0] == 0xA1 && s[1..] == [0x00] + b && ReadArg(s) == Some(Arg(1, 1));
    if room == 1 {
      assert DecItems(s[1..], 2, 0) == Rejected by { NoRoom(s[1..]); }
    } else {
      ZeroAndItem(b, room - 1);
      if Dec(b, room - 1).Accepted? { OnePair(UInt(0), Dec(b, room - 1).value); }
    }
  }

  lemma NoRoom(b: seq<Octet>)
    ensures DecItems(b, 2, 0) == Rejected
  {
    assert Dec(b, 0) == Rejected;
  }

  lemma OnePair(key: Value, val: Value)
    ensures PairUp([key, val]) == [Pair(key, val)]
  {
    assert [key, val][2..] == [];
  }

  lemma TagDecodes(b: seq<Octet>, room: nat)
    requires b != [] && room > 0
    ensures Dec([0xC1] + b, room) == match Dec(b, room - 1)
                                     case Rejected => Rejected
                                     case Accepted(v, m) => Accepted(Tag(1, v), m + 1)
  {
    hide DecItems;
    var s := [0xC1] + b;
    assert s[0] == 0xC1 && s[1..] == b && ReadArg(s) == Some(Arg(1, 1));
  }

  lemma {:induction false} NestedDecodes(levels: seq<Level>, room: nat)
    ensures Dec(Nested(levels), room).Accepted? <==> |levels| < room
    ensures |levels| < room ==> Dec(Nested(levels), room).used == |Nested(levels)|
  {
    hide Dec;
    if levels == [] {
      ZeroDecodes([], room);
      assert [0x00] + [] == [0x00];
    } else if room == 0 {
      NothingWithoutRoom(Nested(levels));
    } else {
      var inner := Nested(levels[1..]);
      NestedDecodes(levels[1..], room - 1);
      match levels[0] {
        case ListOfOne => ListDecodes(inner, room);
        case UnderZero => MapDecodes(inner, room);
        case Tagged => TagDecodes(inner, room);
      }
    }
  }

  lemma NothingWithoutRoom(b: seq<Octet>)
    ensures Dec(b, 0) == Rejected
  {
  }

  /** Arrays, maps and tags may nest 64 levels deep in any mixture, and no deeper. */
  lemma DepthLimit(levels: seq<Level>)
    ensures Decode(Nested(levels)).Some? <==> |levels| <= 64
  {
    hide Dec, Nested;
    NestedDecodes(levels, ROOT_ROOM);
  }

  /** A negative integer is accepted exactly down to -2^63. */
  lemma IntegerLimit(n: U64)
    ensures Decode([0x3B] + BigEndian(n, 8)) ==
            if n < 0x8000_0000_0000_0000 then Some(NInt(-1 - n)) else None
  {
    hide BigEndian, FromBigEndian, ReadArg;
    var b := [0x3B] + BigEndian(n, 8);
    assert b == Head(1, n, 8);
    assert b[..9] == b;
    ReadHead(b, 1, n, 8, ACCEPTED);
  }
}
