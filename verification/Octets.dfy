/** Octets, big-endian integers and the size limits the codec is compiled against. */
module Octets {

  datatype Option<+T> = None | Some(value: T) {
    predicate IsFailure() { None? }

    function PropagateFailure<U>(): Option<U>
      requires None?
    {
      None
    }

    function Extract(): T
      requires Some?
    {
      value
    }
  }

  type Octet = x: int | 0 <= x < 256

  /** A C string: the octets before the terminating NUL, which fits the address space with them. */
  type CString = s: seq<Octet> | 0 !in s && |s| < SIZE_MAX

  const SIZE_MAX: nat := 0xFFFF_FFFF_FFFF_FFFF
  const UINT64_MAX: nat := 0xFFFF_FFFF_FFFF_FFFF
  const INT64_MAX: nat := 0x7FFF_FFFF_FFFF_FFFF
  const INT64_MIN: int := -0x8000_0000_0000_0000

  type U64 = n: int | 0 <= n <= UINT64_MAX
  type I64 = n: int | INT64_MIN <= n <= INT64_MAX

  function Min(a: nat, b: nat): nat { if a < b then a else b }

  function Max(a: nat, b: nat): nat { if a < b then b else a }

  lemma Associates<T>(a: seq<T>, b: seq<T>, c: seq<T>)
    ensures a + b + c == a + (b + c)
  {
  }

  /** Taking the first element off a concatenation takes it off its first part. */
  lemma Uncons<T>(a: seq<T>, b: seq<T>)
    requires a != []
    ensures (a + b)[0] == a[0] && (a + b)[1..] == a[1..] + b
  {
  }

  lemma DropInFirst<T>(a: seq<T>, b: seq<T>, k: nat)
    requires k <= |a|
    ensures (a + b)[k..] == a[k..] + b
  {
  }

  /** An update beyond a prefix leaves the prefix. */
  lemma UpdateBeyond<T>(p: seq<T>, s: seq<T>, i: nat, x: T)
    requires p <= s && |p| <= i < |s|
    ensures p <= s[i := x]
  {
  }

  lemma NothingBefore<T>(a: seq<T>)
    ensures [] + a == a && a + [] == a
  {
  }

  lemma SplitAt<T>(s: seq<T>, i: nat)
    requires i <= |s|
    ensures s[..i] + s[i..] == s
  {
  }

  /** The first value that does not fit k octets, for the widths the wire format uses. */
  function Limit(k: nat): nat
  {
    if k == 0 then 1 else 256 * Limit(k - 1)
  }

  function BigEndian(n: nat, k: nat): (s: seq<Octet>)
    ensures |s| == k
  {
    if k == 0 then [] else BigEndian(n / 256, k - 1) + [n % 256]
  }

  function FromBigEndian(s: seq<Octet>): (n: nat)
    ensures n < Limit(|s|)
  {
    if s == [] then 0 else 256 * FromBigEndian(s[..|s| - 1]) + s[|s| - 1]
  }

  lemma {:induction false} BigEndianRoundTrip(n: nat, k: nat)
    requires n < Limit(k)
    ensures FromBigEndian(BigEndian(n, k)) == n
  {
    if k > 0 {
      BigEndianRoundTrip(n / 256, k - 1);
      assert BigEndian(n, k)[..k - 1] == BigEndian(n / 256, k - 1);
    }
  }

  lemma SplitLast(q: nat, r: Octet)
    ensures (256 * q + r) / 256 == q && (256 * q + r) % 256 == r
  {
  }

  lemma {:induction false} FromBigEndianRoundTrip(s: seq<Octet>)
    ensures BigEndian(FromBigEndian(s), |s|) == s
  {
    if s != [] {
      var init, last := s[..|s| - 1], s[|s| - 1];
      FromBigEndianRoundTrip(init);
      SplitLast(FromBigEndian(init), last);
      assert s == init + [last];
    }
  }

  /** Lexicographic order on octet strings; a proper prefix comes first. */
  predicate LexLess(a: seq<Octet>, b: seq<Octet>)
  {
    b != [] && (a == [] || a[0] < b[0] || (a[0] == b[0] && LexLess(a[1..], b[1..])))
  }

  lemma {:induction false} LexLessAppendLeft(p: seq<Octet>, a: seq<Octet>, b: seq<Octet>)
    ensures LexLess(p + a, p + b) <==> LexLess(a, b)
  {
    if p == [] {
      assert p + a == a && p + b == b;
    } else {
      LexLessAppendLeft(p[1..], a, b);
      assert (p + a)[1..] == p[1..] + a && (p + b)[1..] == p[1..] + b;
    }
  }

  /** Strings of equal length that already differ keep their order whatever follows. */
  lemma {:induction false} LexLessAppendRight(a: seq<Octet>, b: seq<Octet>, x: seq<Octet>, y: seq<Octet>)
    requires |a| == |b| && LexLess(a, b)
    ensures LexLess(a + x, b + y)
  {
    if a[0] == b[0] {
      LexLessAppendRight(a[1..], b[1..], x, y);
      assert (a + x)[1..] == a[1..] + x && (b + y)[1..] == b[1..] + y;
    }
  }

  lemma {:induction false} LexLessTotal(a: seq<Octet>, b: seq<Octet>)
    ensures LexLess(a, b) || LexLess(b, a) || a == b
    ensures !(LexLess(a, b) && LexLess(b, a))
    ensures !LexLess(a, a)
  {
    if a != [] && b != [] {
      LexLessTotal(a[1..], b[1..]);
      LexLessTotal(a[1..], a[1..]);
      assert a == [a[0]] + a[1..] && b == [b[0]] + b[1..];
    } else if a != [] {
      LexLessTotal(a[1..], a[1..]);
    }
  }

  lemma {:induction false} LexLessTransitive(a: seq<Octet>, b: seq<Octet>, c: seq<Octet>)
    requires LexLess(a, b) && LexLess(b, c)
    ensures LexLess(a, c)
  {
    if a != [] && a[0] == b[0] && b[0] == c[0] {
      LexLessTransitive(a[1..], b[1..], c[1..]);
    }
  }

  /** Big-endian integers of one width are ordered as their values are. */
  lemma {:induction false} BigEndianMonotone(m: nat, n: nat, k: nat)
    requires m < n < Limit(k)
    ensures LexLess(BigEndian(m, k), BigEndian(n, k))
  {
    if m / 256 < n / 256 {
      BigEndianMonotone(m / 256, n / 256, k - 1);
      LexLessAppendRight(BigEndian(m / 256, k - 1), BigEndian(n / 256, k - 1), [m % 256], [n % 256]);
    } else {
      assert m / 256 == n / 256;
      LexLessAppendLeft(BigEndian(m / 256, k - 1), [m % 256], [n % 256]);
    }
  }
}
