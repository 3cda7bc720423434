/** The order of map keys that deterministic encoding demands (RFC 8949, section 4.2.1). */
module KeyOrder {
  import opened Octets
  import opened Cbor

  /** Shorter text keys come first, keys of one length in bytewise order. */
  predicate KeyLess(a: seq<Octet>, b: seq<Octet>)
  {
    |a| < |b| || (|a| == |b| && LexLess(a, b))
  }

  /** A head for a smaller argument precedes one for a larger argument, whatever follows either. */
  lemma HeadMonotone(major: nat, m: nat, n: nat, x: seq<Octet>, y: seq<Octet>)
    requires major < 8 && m < n <= UINT64_MAX
    ensures LexLess(ShortHead(major, m) + x, ShortHead(major, n) + y)
  {
    hide BigEndian;
    var v, w := ShortestWidth(m), ShortestWidth(n);
    var p, q := ShortHead(major, m), ShortHead(major, n);
    if v == w && w > 0 {
      CapacityIsLimit(w);
      BigEndianMonotone(m, n, w);
      var first := [InitialOctet(major, LowBits(m, w))];
      LexLessAppendRight(BigEndian(m, w), BigEndian(n, w), x, y);
      LexLessAppendLeft(first, BigEndian(m, w) + x, BigEndian(n, w) + y);
      assert p + x == first + (BigEndian(m, w) + x);
      assert q + y == first + (BigEndian(n, w) + y);
    } else {
      assert LowBits(m, v) < LowBits(n, w);
      assert (p + x)[0] == p[0] < q[0] == (q + y)[0];
    }
  }

  /** The bytewise order of encoded text keys is length first, then bytewise. */
  lemma EncodedKeyOrder(a: seq<Octet>, b: seq<Octet>)
    requires |a| <= SIZE_MAX && |b| <= SIZE_MAX
    ensures LexLess(Enc(Text(a)), Enc(Text(b))) <==> KeyLess(a, b)
  {
    hide LexLess, ShortHead;
    if |a| < |b| {
      HeadMonotone(3, |a|, |b|, a, b);
    } else if |b| < |a| {
      HeadMonotone(3, |b|, |a|, b, a);
    } else {
      LexLessAppendLeft(ShortHead(3, |a|), a, b);
    }
    LexLessTotal(Enc(Text(a)), Enc(Text(b)));
  }

  lemma KeyLessTransitive(a: seq<Octet>, b: seq<Octet>, c: seq<Octet>)
    requires KeyLess(a, b) && KeyLess(b, c)
    ensures KeyLess(a, c)
  {
    if |a| == |b| == |c| {
      LexLessTransitive(a, b, c);
    }
  }

  lemma KeyLessIrreflexive(a: seq<Octet>)
    ensures !KeyLess(a, a)
  {
    LexLessTotal(a, a);
  }

  /** The keys of a map ascend strictly in the bytewise order of their encodings. */
  ghost predicate Ascending(pairs: seq<Pair>)
  {
    forall i, j :: 0 <= i < j < |pairs| ==> LexLess(Enc(pairs[i].key), Enc(pairs[j].key))
  }
}
