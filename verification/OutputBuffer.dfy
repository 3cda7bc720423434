/** The growable output buffer and the writers that fill it. */
module OutputBuffer {
  import opened Octets
  import opened Cbor
  import opened Codec

  const FIRST_BLOCK: nat := 64

  class Buf {
    var data: array<Octet>
    var len: nat
    ghost var moved: nat      // octets moved by all reallocations so far
    ghost var saturated: bool // some reservation had to give up doubling

    /** While doubling has not saturated, all moving so far is paid for by the present capacity. */
    ghost predicate Valid()
      reads this
    {
      len <= data.Length <= SIZE_MAX && (!saturated ==> moved <= data.Length)
    }

    ghost function Contents(): (s: seq<Octet>)
      reads this, data
      requires Valid()
      ensures |s| == len
    {
      data[..len]
    }

    /** The outcome of writing s after before: all of it exactly when it fits the address space, else a part of it. */
    ghost predicate Wrote(before: seq<Octet>, s: seq<Octet>, ok: bool)
      reads this, data
      requires Valid()
    {
      && (ok <==> |before| + |s| <= SIZE_MAX)
      && (ok ==> Contents() == before + s)
      && before <= Contents() <= before + s
    }

    constructor ()
      ensures Valid() && fresh(data) && Contents() == [] && moved == 0 && !saturated
    {
      data := new Octet[0];
      len := 0;
      moved := 0;
      saturated := false;
    }

    /** Make room for extra more octets; fails only when the total would overflow. */
    method Reserve(extra: nat) returns (ok: bool)
      requires Valid()
      modifies this
      ensures Valid() && len == old(len) && Contents() == old(Contents())
      ensures data == old(data) || fresh(data)
      ensures ok <==> old(len) + extra <= SIZE_MAX
      ensures ok ==> len + extra <= data.Length
      ensures saturated ==> old(saturated) || old(len) + extra > SIZE_MAX / 2
    {
      if extra > SIZE_MAX - len {
        return false;
      }
      var need := len + extra;
      if need <= data.Length {
        return true;
      }
      var cap := if data.Length > 0 then data.Length else FIRST_BLOCK;
      ghost var stopped := false;
      while cap < need
        invariant 0 < cap <= SIZE_MAX
        invariant !stopped ==> cap == data.Length || cap >= 2 * data.Length
        invariant stopped ==> cap == need && need > SIZE_MAX / 2
        decreases need - cap
      {
        if cap > SIZE_MAX / 2 {
          cap := need;
          stopped := true;
          break;
        }
        cap := 2 * cap;
      }
      var p := new Octet[cap];
      forall i | 0 <= i < data.Length {
        p[i] := data[i];
      }
      assert p[..len] == data[..len];
      moved := moved + data.Length;
      saturated := saturated || stopped;
      data := p;
      return true;
    }

    method Push(octet: Octet) returns (ok: bool)
      requires Valid()
      modifies this, data
      ensures Valid() && (data == old(data) || fresh(data))
      ensures Wrote(old(Contents()), [octet], ok)
    {
      ok := Reserve(1);
      if !ok {
        return;
      }
      data[len] := octet;
      len := len + 1;
      assert data[..len] == old(Contents()) + [octet];
    }

    method Append(p: seq<Octet>) returns (ok: bool)
      requires Valid()
      modifies this, data
      ensures Valid() && (data == old(data) || fresh(data))
      ensures Wrote(old(Contents()), p, ok)
    {
      if |p| == 0 {
        assert old(Contents()) + p == Contents();
        return true;
      }
      ok := Reserve(|p|);
      if !ok {
        return;
      }
      forall i | 0 <= i < |p| {
        data[len + i] := p[i];
      }
      len := len + |p|;
      assert data[..len] == old(Contents()) + p;
    }

    /** The initial octet and the shortest argument for n. */
    method WriteHead(major: nat, n: U64) returns (ok: bool)
      requires Valid() && major < 8
      modifies this, data
      ensures Valid() && (data == old(data) || fresh(data))
      ensures Wrote(old(Contents()), ShortHead(major, n), ok)
    {
      var mt := 32 * major;
      if n < 24 {
        assert ShortHead(major, n) == [InitialOctet(major, n)];
        ok := Push(mt + n);
      } else if n < 0x100 {
        BigEndian1(n);
        ok := Append([mt + 24, n]);
      } else if n < 0x1_0000 {
        BigEndian2(n);
        ok := Append([mt + 25, n / 0x100, n % 0x100]);
      } else if n < 0x1_0000_0000 {
        BigEndian4(n);
        ok := Append([mt + 26, n / 0x100_0000, n / 0x1_0000 % 0x100, n / 0x100 % 0x100, n % 0x100]);
      } else {
        BigEndian8(n);
        ok := Append([mt + 27] + Octets8(n));
      }
    }

    /** Two writes in a row are one write of the concatenation. */
    lemma Compose(before: seq<Octet>, s: seq<Octet>, t: seq<Octet>, ok: bool)
      requires Valid() && Wrote(before + s, t, ok)
      ensures Wrote(before, s + t, ok)
    {
      assert before + s + t == before + (s + t);
      assert before <= before + s;
    }

    /** A write that fails stays a failure when more was to follow. */
    lemma GiveUp(before: seq<Octet>, s: seq<Octet>, t: seq<Octet>)
      requires Valid() && Wrote(before, s, false)
      ensures Wrote(before, s + t, false)
    {
      assert before + s + t == before + (s + t);
      assert before + s <= before + s + t;
    }

    /** A head and the first i elements that do not fit leave no room for all of them. */
    lemma ItemsStopped(before: seq<Octet>, h: seq<Octet>, items: seq<Value>, i: nat)
      requires Valid() && i <= |items| && Wrote(before, h + EncItems(items[..i]), false)
      ensures Wrote(before, h + EncItems(items), false)
    {
      hide Wrote, EncItems;
      var done, rest := EncItems(items[..i]), EncItems(items[i..]);
      GiveUp(before, h + done, rest);
      SplitAt(items, i);
      EncItemsAppend(items[..i], items[i..]);
      Associates(h, done, rest);
    }

    lemma PairsStopped(before: seq<Octet>, h: seq<Octet>, pairs: seq<Pair>, i: nat)
      requires Valid() && i <= |pairs| && Wrote(before, h + EncPairs(pairs[..i]), false)
      ensures Wrote(before, h + EncPairs(pairs), false)
    {
      hide Wrote, EncPairs;
      var done, rest := EncPairs(pairs[..i]), EncPairs(pairs[i..]);
      GiveUp(before, h + done, rest);
      SplitAt(pairs, i);
      EncPairsAppend(pairs[..i], pairs[i..]);
      Associates(h, done, rest);
    }

    method WriteInt(x: I64) returns (ok: bool)
      requires Valid()
      modifies this, data
      ensures Valid() && (data == old(data) || fresh(data))
      ensures Wrote(old(Contents()), Enc(NInt(x)), ok)
    {
      hide ShortHead;
      if x >= 0 {
        ok := WriteHead(0, x);
      } else {
        ok := WriteHead(1, -(x + 1));
      }
    }

    /** A head for the length of s, then s itself. */
    method WriteString(major: nat, s: seq<Octet>) returns (ok: bool)
      requires Valid() && major < 8 && |s| <= SIZE_MAX
      modifies this, data
      ensures Valid() && (data == old(data) || fresh(data))
      ensures Wrote(old(Contents()), ShortHead(major, |s|) + s, ok)
    {
      hide ShortHead;
      ghost var before := Contents();
      ok := WriteHead(major, |s|);
      if !ok {
        GiveUp(before, ShortHead(major, |s|), s);
        return;
      }
      ok := Append(s);
      Compose(before, ShortHead(major, |s|), s, ok);
    }

    method WriteFloat(bits: U64) returns (ok: bool)
      requires Valid()
      modifies this, data
      ensures Valid() && (data == old(data) || fresh(data))
      ensures Wrote(old(Contents()), Enc(Float(bits)), ok)
    {
      BigEndian8(bits);
      ok := Append([0xFB] + Octets8(bits));
    }

    /** Write a decoded tree back out; an absent value is written as null. */
    method WriteValue(v: Option<Value>) returns (ok: bool)
      requires Valid() && (v.Some? ==> Plain(v.value, false))
      modifies this, data
      ensures Valid() && (data == old(data) || fresh(data))
      ensures Wrote(old(Contents()), Enc(Tree(v)), ok)
      decreases Tree(v), 1
    {
      hide ShortHead, Plain, Wrote, EncItems, EncPairs;
      if v.None? {
        ok := Push(0xF6);
        return;
      }
      match v.value {
        case UInt(u) =>
          ok := WriteHead(0, u);
        case NInt(i) =>
          ok := WriteInt(i);
        case Text(t) =>
          PlainString(v.value, t, false);
          ok := WriteString(3, t);
        case Bytes(t) =>
          PlainString(v.value, t, false);
          ok := WriteString(2, t);
        case Bool(x) =>
          ok := Push(if x then 0xF5 else 0xF4);
        case Null =>
          ok := Push(0xF6);
        case Float(bits) =>
          ok := WriteFloat(bits);
        case Array(items) =>
          PlainArray(items, false);
          ok := WriteItems(items);
        case Map(pairs) =>
          PlainMap(pairs, false);
          ok := WritePairs(pairs);
        case Tag(num, content) =>
          PlainTag(v.value, false);
          ghost var before := Contents();
          ok := WriteHead(6, num);
          if !ok {
            GiveUp(before, ShortHead(6, num), Enc(content));
            return;
          }
          StartedFits(before, ShortHead(6, num));
          ok := WriteValue(Some(content));
          Compose(before, ShortHead(6, num), Enc(content), ok);
      }
    }

    lemma StartedFits(before: seq<Octet>, s: seq<Octet>)
      requires Valid() && Wrote(before, s, true)
      ensures Contents() == before + s
    {
    }

    /** The array branch: the head, then each element in turn. */
    method WriteItems(items: seq<Value>) returns (ok: bool)
      requires Valid() && |items| <= SIZE_MAX && AllPlain(items, false)
      modifies this, data
      ensures Valid() && (data == old(data) || fresh(data))
      ensures Wrote(old(Contents()), ShortHead(4, |items|) + EncItems(items), ok)
      decreases items, 0
    {
      hide ShortHead, Plain, Wrote, Enc;
      ghost var before, h := Contents(), ShortHead(4, |items|);
      ok := WriteHead(4, |items|);
      if !ok {
        GiveUp(before, h, EncItems(items));
        return;
      }
      StartedFits(before, h);
      var i := 0;
      assert h + EncItems(items[..0]) == h;
      while i < |items|
        invariant i <= |items| && Valid() && (data == old(data) || fresh(data))
        invariant Wrote(before, h + EncItems(items[..i]), true)
      {
        ghost var done := EncItems(items[..i]);
        StartedFits(before, h + done);
        assert Plain(items[i], false);
        ok := WriteValue(Some(items[i]));
        Compose(before, h + done, Enc(items[i]), ok);
        EncItemsSnoc(items, i);
        Associates(h, done, Enc(items[i]));
        if !ok {
          ItemsStopped(before, h, items, i + 1);
          return;
        }
        i := i + 1;
      }
      assert items[..i] == items;
      return true;
    }

    /** The map branch: the head, then each key followed by its value. */
    method WritePairs(pairs: seq<Pair>) returns (ok: bool)
      requires Valid() && |pairs| <= SIZE_MAX && AllPlain(Flat(pairs), false)
      modifies this, data
      ensures Valid() && (data == old(data) || fresh(data))
      ensures Wrote(old(Contents()), ShortHead(5, |pairs|) + EncPairs(pairs), ok)
      decreases pairs, 0
    {
      hide ShortHead, Plain, Wrote, Enc;
      ghost var before, h := Contents(), ShortHead(5, |pairs|);
      ok := WriteHead(5, |pairs|);
      if !ok {
        GiveUp(before, h, EncPairs(pairs));
        return;
      }
      StartedFits(before, h);
      var i := 0;
      assert h + EncPairs(pairs[..0]) == h;
      while i < |pairs|
        invariant i <= |pairs| && Valid() && (data == old(data) || fresh(data))
        invariant Wrote(before, h + EncPairs(pairs[..i]), true)
      {
        StartedFits(before, h + EncPairs(pairs[..i]));
        FlatPlainAt(pairs, i);
        ok := WritePair(pairs[i]);
        Compose(before, h + EncPairs(pairs[..i]), EncPair(pairs[i]), ok);
        EncPairsSnoc(pairs, i);
        Associates(h, EncPairs(pairs[..i]), EncPair(pairs[i]));
        if !ok {
          PairsStopped(before, h, pairs, i + 1);
          return;
        }
        i := i + 1;
      }
      assert pairs[..i] == pairs;
      return true;
    }

    method WritePair(pair: Pair) returns (ok: bool)
      requires Valid() && PlainPair(pair, false)
      modifies this, data
      ensures Valid() && (data == old(data) || fresh(data))
      ensures Wrote(old(Contents()), EncPair(pair), ok)
      decreases pair, 2
    {
      hide Wrote, Enc, Plain;
      ghost var before := Contents();
      ok := WriteValue(Some(pair.key));
      if !ok {
        GiveUp(before, Enc(pair.key), Enc(pair.val));
        return;
      }
      StartedFits(before, Enc(pair.key));
      ok := WriteValue(Some(pair.val));
      Compose(before, Enc(pair.key), Enc(pair.val), ok);
    }
  }

  lemma EncItemsSnoc(items: seq<Value>, i: nat)
    requires i < |items|
    ensures EncItems(items[..i + 1]) == EncItems(items[..i]) + Enc(items[i])
  {
    hide Enc;
    assert items[..i + 1] == items[..i] + [items[i]];
    EncItemsAppend(items[..i], [items[i]]);
    assert EncItems([items[i]]) == Enc(items[i]) + EncItems([]);
  }

  lemma EncPairsSnoc(pairs: seq<Pair>, i: nat)
    requires i < |pairs|
    ensures EncPairs(pairs[..i + 1]) == EncPairs(pairs[..i]) + EncPair(pairs[i])
  {
    hide Enc, EncPair;
    assert pairs[..i + 1] == pairs[..i] + [pairs[i]];
    EncPairsAppend(pairs[..i], [pairs[i]]);
    assert EncPairs([pairs[i]]) == EncPair(pairs[i]) + EncPairs([]);
  }

  lemma {:induction false} FlatPlainAt(pairs: seq<Pair>, i: nat)
    requires AllPlain(Flat(pairs), false) && i < |pairs|
    ensures PlainPair(pairs[i], false)
  {
    hide Plain;
    var flat := Flat(pairs);
    assert Plain(flat[0], false) && Plain(flat[1], false);
    if i > 0 {
      var rest := Flat(pairs[1..]);
      forall k | 0 <= k < |rest| ensures Plain(rest[k], false) {
        assert rest[k] == flat[k + 2] && Plain(flat[k + 2], false);
      }
      FlatPlainAt(pairs[1..], i - 1);
    }
  }

  /** The tree a possibly absent value stands for. */
  function Tree(v: Option<Value>): Value
  {
    if v.None? then Null else v.value
  }

  /** The eight octets of a 64-bit word, most significant first. */
  function Octets8(n: U64): (s: seq<Octet>)
    ensures |s| == 8
  {
    [n / 0x100_0000_0000_0000, n / 0x1_0000_0000_0000 % 0x100, n / 0x100_0000_0000 % 0x100,
     n / 0x1_0000_0000 % 0x100, n / 0x100_0000 % 0x100, n / 0x1_0000 % 0x100, n / 0x100 % 0x100, n % 0x100]
  }

  lemma BigEndian1(n: nat)
    requires n < 0x100
    ensures BigEndian(n, 1) == [n]
  {
    assert BigEndian(n / 0x100, 0) == [];
  }

  lemma BigEndian2(n: nat)
    requires n < 0x1_0000
    ensures BigEndian(n, 2) == [n / 0x100, n % 0x100]
  {
    BigEndian1(n / 0x100);
  }

  lemma BigEndian3(n: nat)
    requires n < 0x100_0000
    ensures BigEndian(n, 3) == [n / 0x1_0000, n / 0x100 % 0x100, n % 0x100]
  {
    BigEndian2(n / 0x100);
  }

  lemma BigEndian4(n: nat)
    requires n < 0x1_0000_0000
    ensures BigEndian(n, 4) == [n / 0x100_0000, n / 0x1_0000 % 0x100, n / 0x100 % 0x100, n % 0x100]
  {
    BigEndian3(n / 0x100);
  }

  lemma ShiftAgain(n: nat)
    ensures n / 0x1_0000 == n / 0x100 / 0x100
    ensures n / 0x100_0000 == n / 0x1_0000 / 0x100
    ensures n / 0x1_0000_0000 == n / 0x100_0000 / 0x100
    ensures n / 0x100_0000_0000 == n / 0x1_0000_0000 / 0x100
    ensures n / 0x1_0000_0000_0000 == n / 0x100_0000_0000 / 0x100
    ensures n / 0x100_0000_0000_0000 == n / 0x1_0000_0000_0000 / 0x100
  {
  }

  lemma BigEndian8(n: U64)
    ensures BigEndian(n, 8) == Octets8(n)
  {
    ShiftAgain(n);
    var q1, q2, q3, q4 := n / 0x100, n / 0x1_0000, n / 0x100_0000, n / 0x1_0000_0000;
    BigEndian4(q4);
    assert BigEndian(q3, 5) == BigEndian(q4, 4) + [q3 % 0x100];
    assert BigEndian(q2, 6) == BigEndian(q3, 5) + [q2 % 0x100];
    assert BigEndian(q1, 7) == BigEndian(q2, 6) + [q1 % 0x100];
    assert BigEndian(n, 8) == BigEndian(q1, 7) + [n % 0x100];
    ShiftAgain(q4);
    assert q4 / 0x100_0000 == n / 0x100_0000_0000_0000;
    assert q4 / 0x1_0000 == n / 0x1_0000_0000_0000;
    assert q4 / 0x100 == n / 0x100_0000_0000;
    hide BigEndian;
  }
}
