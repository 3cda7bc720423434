/** The UTF-8 check on decoded text, against section 4 of RFC 3629. */
module Utf8 {
  import opened Octets

  /** Unicode scalar values: every code point except the surrogates. */
  predicate IsScalar(cp: int)
  {
    0 <= cp <= 0x10FFFF && !(0xD800 <= cp <= 0xDFFF)
  }

  function EncodeScalar(cp: int): (s: seq<Octet>)
    requires IsScalar(cp)
    ensures 1 <= |s| <= 4
  {
    if cp < 0x80 then [cp]
    else if cp < 0x800 then [0xC0 + cp / 64, 0x80 + cp % 64]
    else if cp < 0x10000 then [0xE0 + cp / 64 / 64, 0x80 + cp / 64 % 64, 0x80 + cp % 64]
    else [0xF0 + cp / 64 / 64 / 64, 0x80 + cp / 64 / 64 % 64, 0x80 + cp / 64 % 64, 0x80 + cp % 64]
  }

  /** s is the concatenation of the encodings of some sequence of scalar values. */
  ghost predicate IsUtf8(s: seq<Octet>)
  {
    exists cps: seq<int> :: Spells(cps, s)
  }

  ghost predicate Spells(cps: seq<int>, s: seq<Octet>)
  {
    if cps == [] then s == []
    else
      && IsScalar(cps[0])
      && EncodeScalar(cps[0]) <= s
      && Spells(cps[1..], s[|EncodeScalar(cps[0])|..])
  }

  /** The number of continuation octets a lead octet announces; 4 stands for an octet that cannot lead. */
  function Continuations(c: Octet): nat
  {
    if c < 0x80 then 0
    else if 0xC2 <= c <= 0xDF then 1
    else if 0xE0 <= c <= 0xEF then 2
    else if 0xF0 <= c <= 0xF4 then 3
    else 4
  }

  /** The payload bits of a lead octet. */
  function LeadBits(c: Octet): nat
  {
    match Continuations(c)
    case 0 => c
    case 1 => c % 32
    case 2 => c % 16
    case _ => c % 8
  }

  /** The two high bits of the octet are 10. */
  predicate IsContinuation(c: Octet)
  {
    c / 64 == 2
  }

  /** The six payload bits of a continuation octet. */
  function Low6(c: Octet): nat
  {
    c % 64
  }

  /** The code point accumulated from a lead octet and the continuation octets after it. */
  function Accumulate(lead: nat, tail: seq<Octet>): nat
  {
    if tail == [] then lead else 64 * Accumulate(lead, tail[..|tail| - 1]) + Low6(tail[|tail| - 1])
  }

  predicate InRange(need: nat, cp: nat)
  {
    !((need == 2 && cp < 0x800) || (need == 3 && cp < 0x10000) || 0xD800 <= cp <= 0xDFFF || cp > 0x10FFFF)
  }

  /** One encoded scalar as the decoder reads it: lead octet, continuation octets, range test. */
  predicate WellFormedChar(s: seq<Octet>)
  {
    && s != []
    && Continuations(s[0]) == |s| - 1 < 4
    && (forall j :: 1 <= j < |s| ==> IsContinuation(s[j]))
    && (|s| > 1 ==> InRange(|s| - 1, Accumulate(LeadBits(s[0]), s[1..])))
  }

  lemma Accumulate1(lead: nat, a: Octet)
    ensures Accumulate(lead, [a]) == 64 * lead + Low6(a)
  {
    assert [a][..0] == [];
    assert Accumulate(lead, []) == lead;
  }

  lemma Accumulate2(lead: nat, a: Octet, b: Octet)
    ensures Accumulate(lead, [a, b]) == 4096 * lead + 64 * Low6(a) + Low6(b)
  {
    Accumulate1(lead, a);
    assert [a, b][..1] == [a];
  }

  lemma Accumulate3(lead: nat, a: Octet, b: Octet, c: Octet)
    ensures Accumulate(lead, [a, b, c]) == 262144 * lead + 4096 * Low6(a) + 64 * Low6(b) + Low6(c)
  {
    Accumulate2(lead, a, b);
    assert [a, b, c][..2] == [a, b];
  }

  /** Reading back the characters of two, three and four octets that EncodeScalar writes. */
  lemma TwoOctets(cp: int)
    requires 0x80 <= cp < 0x800
    ensures var s := EncodeScalar(cp); |s| == 2 && WellFormedChar(s)
  {
    var s := EncodeScalar(cp);
    assert s[1..] == [s[1]];
    Accumulate1(LeadBits(s[0]), s[1]);
    assert Accumulate(LeadBits(s[0]), s[1..]) == cp;
  }

  lemma Payloads(a: nat, b: nat)
    requires b < 64
    ensures Low6(0x80 + b) == b && IsContinuation(0x80 + b)
    ensures a < 16 ==> Continuations(0xE0 + a) == 2 && LeadBits(0xE0 + a) == a
    ensures a < 5 ==> Continuations(0xF0 + a) == 3 && LeadBits(0xF0 + a) == a
  {
  }

  lemma ThreeOctets(cp: int)
    requires IsScalar(cp) && 0x800 <= cp < 0x10000
    ensures var s := EncodeScalar(cp); |s| == 3 && WellFormedChar(s)
  {
    hide LeadBits, Continuations, Low6, IsContinuation, Accumulate;
    var s := EncodeScalar(cp);
    var q := cp / 64;
    Payloads(q / 64, q % 64);
    Payloads(q / 64, cp % 64);
    assert s[1..] == [s[1], s[2]];
    Accumulate2(LeadBits(s[0]), s[1], s[2]);
    assert Accumulate(LeadBits(s[0]), s[1..]) == cp;
  }

  lemma FourOctets(cp: int)
    requires IsScalar(cp) && 0x10000 <= cp
    ensures var s := EncodeScalar(cp); |s| == 4 && WellFormedChar(s)
  {
    hide LeadBits, Continuations, Low6, IsContinuation, Accumulate;
    var s := EncodeScalar(cp);
    var q := cp / 64;
    var p := q / 64;
    Payloads(p / 64, p % 64);
    Payloads(p / 64, q % 64);
    Payloads(p / 64, cp % 64);
    assert s[1..] == [s[1], s[2], s[3]];
    Accumulate3(LeadBits(s[0]), s[1], s[2], s[3]);
    assert Accumulate(LeadBits(s[0]), s[1..]) == cp;
  }

  /** The encoding of a scalar value passes the decoder's test. */
  lemma CharFromScalar(cp: int)
    requires IsScalar(cp)
    ensures WellFormedChar(EncodeScalar(cp))
  {
    if cp < 0x80 {
    } else if cp < 0x800 {
      TwoOctets(cp);
    } else if cp < 0x10000 {
      ThreeOctets(cp);
    } else {
      FourOctets(cp);
    }
  }

  function ScalarOf(s: seq<Octet>): nat
    requires WellFormedChar(s)
  {
    Accumulate(LeadBits(s[0]), s[1..])
  }

  lemma TwoDigits(q: nat, r: nat)
    requires r < 64
    ensures (64 * q + r) / 64 == q && (64 * q + r) % 64 == r
  {
  }

  lemma TwoOctetScalar(s: seq<Octet>)
    requires |s| == 2 && WellFormedChar(s)
    ensures IsScalar(ScalarOf(s)) && EncodeScalar(ScalarOf(s)) == s
  {
    assert s[1..] == [s[1]];
    Accumulate1(LeadBits(s[0]), s[1]);
    TwoDigits(LeadBits(s[0]), Low6(s[1]));
    assert EncodeScalar(ScalarOf(s)) == [s[0], s[1]] == s;
  }

  lemma ThreeOctetScalar(s: seq<Octet>)
    requires |s| == 3 && WellFormedChar(s)
    ensures IsScalar(ScalarOf(s)) && EncodeScalar(ScalarOf(s)) == s
  {
    assert s[1..] == [s[1], s[2]];
    Accumulate2(LeadBits(s[0]), s[1], s[2]);
    var q := 64 * LeadBits(s[0]) + Low6(s[1]);
    TwoDigits(LeadBits(s[0]), Low6(s[1]));
    TwoDigits(q, Low6(s[2]));
    var cp := ScalarOf(s);
    assert cp / 64 == q && cp % 64 == Low6(s[2]);
    assert EncodeScalar(cp) == [s[0], s[1], s[2]] == s;
  }

  lemma FourDigits(l: nat, x: nat, y: nat, z: nat)
    requires x < 64 && y < 64 && z < 64
    ensures var n := 64 * (64 * (64 * l + x) + y) + z;
            n / 64 / 64 / 64 == l && n / 64 / 64 % 64 == x && n / 64 % 64 == y && n % 64 == z
  {
    TwoDigits(64 * (64 * l + x) + y, z);
    TwoDigits(64 * l + x, y);
    TwoDigits(l, x);
  }

  lemma FourOctetParts(s: seq<Octet>)
    requires |s| == 4 && WellFormedChar(s)
    ensures s[0] == 0xF0 + LeadBits(s[0]) && s[1] == 0x80 + Low6(s[1])
    ensures s[2] == 0x80 + Low6(s[2]) && s[3] == 0x80 + Low6(s[3])
    ensures Low6(s[1]) < 64 && Low6(s[2]) < 64 && Low6(s[3]) < 64
  {
    hide Accumulate;
    assert IsContinuation(s[1]) && IsContinuation(s[2]) && IsContinuation(s[3]);
  }

  lemma FourOctetScalar(s: seq<Octet>)
    requires |s| == 4 && WellFormedChar(s)
    ensures IsScalar(ScalarOf(s)) && EncodeScalar(ScalarOf(s)) == s
  {
    assert InRange(3, ScalarOf(s));
    hide WellFormedChar, LeadBits, Low6, Accumulate;
    FourOctetParts(s);
    assert s[1..] == [s[1], s[2], s[3]];
    Accumulate3(LeadBits(s[0]), s[1], s[2], s[3]);
    FourDigits(LeadBits(s[0]), Low6(s[1]), Low6(s[2]), Low6(s[3]));
    assert s == [s[0], s[1], s[2], s[3]];
  }

  /** A character that passes the decoder's test is the encoding of the scalar value it carries. */
  lemma ScalarFromChar(s: seq<Octet>)
    requires WellFormedChar(s)
    ensures IsScalar(ScalarOf(s)) && EncodeScalar(ScalarOf(s)) == s
  {
    if |s| == 2 {
      TwoOctetScalar(s);
    } else if |s| == 3 {
      ThreeOctetScalar(s);
    } else if |s| == 4 {
      FourOctetScalar(s);
    }
  }

  lemma Prepend(cp: int, cps: seq<int>, s: seq<Octet>)
    requires IsScalar(cp) && Spells(cps, s)
    ensures IsUtf8(EncodeScalar(cp) + s)
  {
    var all := [cp] + cps;
    assert all[1..] == cps;
    assert (EncodeScalar(cp) + s)[|EncodeScalar(cp)|..] == s;
    assert Spells(all, EncodeScalar(cp) + s);
  }

  /** Removing a leading well-formed character does not change whether the text is UTF-8. */
  lemma SkipChar(s: seq<Octet>, k: nat)
    requires k <= |s| && WellFormedChar(s[..k])
    ensures IsUtf8(s) <==> IsUtf8(s[k..])
  {
    ScalarFromChar(s[..k]);
    var rest := s[k..];
    assert s == s[..k] + rest;
    if IsUtf8(rest) {
      var cps :| Spells(cps, rest);
      Prepend(ScalarOf(s[..k]), cps, rest);
    }
    if IsUtf8(s) {
      var cps :| Spells(cps, s);
      CharFromScalar(cps[0]);
      assert EncodeScalar(cps[0])[0] == s[0] == s[..k][0];
      assert Spells(cps[1..], rest);
    }
  }

  /** Does s begin with a well-formed character of the length its first octet announces? */
  predicate StartsWell(s: seq<Octet>)
    requires s != []
  {
    Continuations(s[0]) < |s| && WellFormedChar(s[..Continuations(s[0]) + 1])
  }

  /** Text is UTF-8 exactly when it begins with a well-formed character and the rest is UTF-8. */
  lemma FirstChar(s: seq<Octet>)
    requires s != []
    ensures IsUtf8(s) <==> StartsWell(s) && IsUtf8(s[Continuations(s[0]) + 1..])
  {
    if IsUtf8(s) {
      var cps :| Spells(cps, s);
      var e := EncodeScalar(cps[0]);
      CharFromScalar(cps[0]);
      assert e[0] == s[0];
      assert s[..|e|] == e;
    }
    if StartsWell(s) {
      SkipChar(s, Continuations(s[0]) + 1);
    }
  }

  lemma EmptyIsUtf8()
    ensures IsUtf8([])
  {
    assert Spells([], []);
  }

  /** ASCII text is UTF-8. */
  lemma {:induction false} AsciiIsUtf8(s: seq<Octet>)
    requires forall i :: 0 <= i < |s| ==> s[i] < 0x80
    ensures IsUtf8(s)
  {
    if s == [] {
      EmptyIsUtf8();
    } else {
      AsciiIsUtf8(s[1..]);
      SkipChar(s, 1);
    }
  }

  lemma DropDrop(s: seq<Octet>, i: nat, k: nat)
    requires i + k <= |s|
    ensures s[i..][k..] == s[i + k..]
  {
  }

  lemma AccumulateNone(lead: nat, rest: seq<Octet>)
    requires rest != []
    ensures Accumulate(lead, rest[1..1]) == lead
  {
  }

  lemma AccumulateNext(lead: nat, rest: seq<Octet>, j: nat)
    requires 1 <= j < |rest|
    ensures Accumulate(lead, rest[1..j + 1]) == 64 * Accumulate(lead, rest[1..j]) + Low6(rest[j])
  {
    var tail := rest[1..j + 1];
    assert tail[..|tail| - 1] == rest[1..j] && tail[|tail| - 1] == rest[j];
  }

  /** A first character with its range test pending is well formed exactly when the test succeeds. */
  lemma RangeDecides(rest: seq<Octet>, need: nat, cp: nat)
    requires rest != [] && Continuations(rest[0]) == need && 1 <= need <= 3 && need < |rest|
    requires forall x :: 1 <= x <= need ==> IsContinuation(rest[x])
    requires cp == Accumulate(LeadBits(rest[0]), rest[1..need + 1])
    ensures StartsWell(rest) <==> InRange(need, cp)
  {
    assert rest[..need + 1][1..] == rest[1..need + 1];
  }

  lemma ContinuationNeeded(rest: seq<Octet>, j: nat)
    requires rest != [] && 1 <= j <= Continuations(rest[0]) < |rest| && !IsContinuation(rest[j])
    ensures !StartsWell(rest)
  {
    assert rest[..Continuations(rest[0]) + 1][j] == rest[j];
  }

  lemma TooShort(rest: seq<Octet>)
    requires rest != [] && Continuations(rest[0]) >= Min(4, |rest|)
    ensures !StartsWell(rest)
  {
  }

  lemma AsciiFirst(rest: seq<Octet>)
    requires rest != [] && rest[0] < 0x80
    ensures StartsWell(rest) && Continuations(rest[0]) == 0
  {
  }

  /** The check the decoder runs over text: exact on every octet string. */
  method Valid(s: seq<Octet>) returns (valid: bool)
    ensures valid <==> IsUtf8(s)
  {
    hide IsUtf8, StartsWell, WellFormedChar, IsContinuation, Low6, Accumulate;
    var n := |s|;
    var i := 0;
    while i < n
      invariant i <= n
      invariant IsUtf8(s) <==> IsUtf8(s[i..])
      decreases n - i
    {
      ghost var start, rest := i, s[i..];
      FirstChar(rest);
      DropDrop(s, start, Min(Continuations(rest[0]) + 1, |rest|));
      var c := s[i];
      assert rest[0] == c && |rest| == n - i;
      i := i + 1;
      if c < 0x80 {
        AsciiFirst(rest);
        continue;
      }
      var need, cp;
      if 0xC2 <= c <= 0xDF {
        need, cp := 1, c % 32;
      } else if 0xE0 <= c <= 0xEF {
        need, cp := 2, c % 16;
      } else if 0xF0 <= c <= 0xF4 {
        need, cp := 3, c % 8;
      } else {
        TooShort(rest);
        return false;
      }
      if need > n - i {
        TooShort(rest);
        return false;
      }
      AccumulateNone(LeadBits(c), rest);
      for j := 0 to need
        invariant i == start + 1 + j
        invariant cp == Accumulate(LeadBits(c), rest[1..j + 1])
        invariant forall x :: 1 <= x <= j ==> IsContinuation(rest[x])
      {
        var d := s[i];
        assert rest[j + 1] == d;
        i := i + 1;
        if !IsContinuation(d) {
          ContinuationNeeded(rest, j + 1);
          return false;
        }
        AccumulateNext(LeadBits(c), rest, j + 1);
        cp := 64 * cp + Low6(d);
      }
      RangeDecides(rest, need, cp);
      if (need == 2 && cp < 0x800) || (need == 3 && cp < 0x10000) || 0xD800 <= cp <= 0xDFFF || cp > 0x10FFFF {
        return false;
      }
    }
    assert s[n..] == [];
    EmptyIsUtf8();
    return true;
  }
}
