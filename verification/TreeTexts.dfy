/** What holds of every text of a decoded tree holds of every string a typed record takes from it. */
module TreeTexts {
  import opened Octets
  import opened Utf8
  import opened Cbor
  import opened Codec
  import opened Grammar
  import opened Borrowing
  import opened Fields
  import opened Readers

  /** Every text of the tree, at any depth, passes the test. */
  ghost predicate TextsPass(v: Value, good: seq<Octet> -> bool)
    decreases v, 0
  {
    match v
    case Text(t) => good(t)
    case Array(items) => forall i :: 0 <= i < |items| ==> TextsPass(items[i], good)
    case Map(pairs) => forall i :: 0 <= i < |pairs| ==> PairPasses(pairs[i], good)
    case Tag(_, content) => TextsPass(content, good)
    case _ => true
  }

  ghost predicate PairPasses(pair: Pair, good: seq<Octet> -> bool)
    decreases pair, 1
  {
    TextsPass(pair.key, good) && TextsPass(pair.val, good)
  }

  /** The string stands in the arena, followed by its NUL, at the start of something stored there. */
  ghost predicate Borrowed(s: seq<Octet>, contents: seq<seq<Octet>>)
  {
    exists i :: 0 <= i < |contents| && s + [0] <= contents[i]
  }

  // ----- the two tests: stored in the arena, and UTF-8 -----

  lemma {:induction false} HeldTextsPass(v: Value, contents: seq<seq<Octet>>)
    requires Held(v, contents)
    ensures TextsPass(v, t => t + [0] in contents)
    decreases v, 0
  {
    match v
    case Array(items) =>
      forall i | 0 <= i < |items| ensures TextsPass(items[i], t => t + [0] in contents) {
        HeldTextsPass(items[i], contents);
      }
    case Map(pairs) =>
      forall i | 0 <= i < |pairs| ensures PairPasses(pairs[i], t => t + [0] in contents) {
        HeldPairPasses(pairs[i], contents);
      }
    case Tag(_, content) => HeldTextsPass(content, contents);
    case _ =>
  }

  lemma {:induction false} HeldPairPasses(pair: Pair, contents: seq<seq<Octet>>)
    requires HeldPair(pair, contents)
    ensures PairPasses(pair, t => t + [0] in contents)
    decreases pair, 1
  {
    HeldTextsPass(pair.key, contents);
    HeldTextsPass(pair.val, contents);
  }

  lemma {:induction false} WellFormedTextsPass(v: Value, room: nat)
    requires WellFormed(v, room)
    ensures TextsPass(v, t => IsUtf8(t))
    decreases room
  {
    hide IsUtf8;
    match v
    case Array(items) =>
      forall i | 0 <= i < |items| ensures TextsPass(items[i], t => IsUtf8(t)) {
        WellFormedTextsPass(items[i], room - 1);
      }
    case Map(pairs) =>
      forall i | 0 <= i < |pairs| ensures PairPasses(pairs[i], t => IsUtf8(t)) {
        WellFormedTextsPass(pairs[i].key, room - 1);
        WellFormedTextsPass(pairs[i].val, room - 1);
      }
    case Tag(_, content) => WellFormedTextsPass(content, room - 1);
    case _ =>
  }

  // ----- what the cut at the first NUL keeps -----

  /** Strings cut from good texts at their first NUL are ok. */
  ghost predicate SurvivesCut(good: seq<Octet> -> bool, ok: seq<Octet> -> bool)
  {
    forall t :: good(t) ==> ok(CStr(t))
  }

  lemma {:induction false} CutEndsAtNul(t: seq<Octet>)
    ensures UpToNul(t) + [0] <= t + [0]
  {
    if t != [] && t[0] != 0 {
      CutEndsAtNul(t[1..]);
      var cut := UpToNul(t[1..]);
      assert [t[0]] + cut + [0] == [t[0]] + (cut + [0]);
      assert t + [0] == [t[0]] + (t[1..] + [0]);
    }
  }

  /** A C string is what stands in the text before the first NUL, its terminator included. */
  lemma CStringOfText(t: seq<Octet>, s: seq<Octet>)
    requires |t| < SIZE_MAX
    ensures CStr(t) == s <==> 0 !in s && s + [0] <= t + [0]
  {
    CutEndsAtNul(t);
    var cut := UpToNul(t);
    if 0 !in s && s + [0] <= t + [0] {
      assert (t + [0])[|s|] == (s + [0])[|s|] == 0 && (t + [0])[|cut|] == (cut + [0])[|cut|] == 0;
      assert forall i :: 0 <= i < |s| ==> (t + [0])[i] == s[i] != 0;
      assert forall i :: 0 <= i < |cut| ==> (t + [0])[i] == cut[i] != 0;
      assert |s| == |cut|;
    }
  }

  /** A C string seen in a text that the arena stores stands there with a NUL of its own. */
  lemma CutBorrowed(contents: seq<seq<Octet>>)
    requires forall c :: c in contents ==> |c| <= SIZE_MAX
    ensures SurvivesCut(t => t + [0] in contents, s => Borrowed(s, contents))
  {
    forall t: seq<Octet> | t + [0] in contents ensures Borrowed(CStr(t), contents) {
      CutEndsAtNul(t);
      var i :| 0 <= i < |contents| && contents[i] == t + [0];
      assert |contents[i]| == |t| + 1;
      assert CStr(t) + [0] <= contents[i];
    }
  }

  /** A UTF-8 text cut at its first NUL is UTF-8. */
  lemma {:induction false} CutIsUtf8(t: seq<Octet>)
    requires IsUtf8(t)
    ensures IsUtf8(UpToNul(t))
    decreases |t|
  {
    hide IsUtf8, StartsWell;
    if t == [] || t[0] == 0 {
      EmptyIsUtf8();
    } else {
      FirstChar(t);
      var k := Continuations(t[0]) + 1;
      FirstCharHasNoNul(t);
      CutIsUtf8(t[k..]);
      CutPast(t, k);
      SkipSame(t, UpToNul(t), k);
    }
  }

  lemma FirstCharHasNoNul(t: seq<Octet>)
    requires t != [] && t[0] != 0 && StartsWell(t)
    ensures var k := Continuations(t[0]) + 1; k <= |t| && forall i :: 0 <= i < k ==> t[i] != 0
  {
    hide Accumulate, InRange, LeadBits;
    var k := Continuations(t[0]) + 1;
    forall i | 0 <= i < k ensures t[i] != 0 {
      if i > 0 { assert IsContinuation(t[..k][i]); }
    }
  }

  lemma ConsTake(t: seq<Octet>, k: nat)
    requires 0 < k <= |t|
    ensures t[..k] == [t[0]] + t[1..][..k - 1]
  {
  }

  lemma NoNulInRest(t: seq<Octet>, k: nat)
    requires 0 < k <= |t| && forall i :: 0 <= i < k ==> t[i] != 0
    ensures forall i :: 0 <= i < k - 1 ==> t[1..][i] != 0
  {
  }

  lemma CutStep(t: seq<Octet>)
    requires t != [] && t[0] != 0
    ensures UpToNul(t) == [t[0]] + UpToNul(t[1..])
  {
  }

  lemma {:induction false} CutPast(t: seq<Octet>, k: nat)
    requires k <= |t| && forall i :: 0 <= i < k ==> t[i] != 0
    ensures UpToNul(t) == t[..k] + UpToNul(t[k..])
  {
    hide UpToNul;
    if k == 0 {
      assert t[0..] == t;
      NothingBefore(UpToNul(t));
    } else {
      CutStep(t);
      var rest := t[1..];
      NoNulInRest(t, k);
      CutPast(rest, k - 1);
      DropDrop(t, 1, k - 1);
      ConsTake(t, k);
      Associates([t[0]], rest[..k - 1], UpToNul(t[k..]));
    }
  }

  /** Two strings that begin with the same character are UTF-8 when what follows it is. */
  lemma SkipSame(t: seq<Octet>, u: seq<Octet>, k: nat)
    requires t != [] && StartsWell(t) && k == Continuations(t[0]) + 1
    requires k <= |u| && u[..k] == t[..k] && IsUtf8(u[k..])
    ensures IsUtf8(u)
  {
    hide IsUtf8, WellFormedChar;
    assert u[0] == u[..k][0] == t[..k][0] == t[0];
    FirstChar(u);
  }

  lemma CutKeepsUtf8()
    ensures SurvivesCut(t => IsUtf8(t), s => IsUtf8(s))
  {
    hide IsUtf8, UpToNul;
    forall t: seq<Octet> | IsUtf8(t) ensures IsUtf8(CStr(t)) {
      CutIsUtf8(t);
      EmptyIsUtf8();
    }
  }

  // ----- from a tree to the fields of a record -----

  /** What a map holds under a key has no other texts than the map. */
  lemma {:induction false} LookupPasses(pairs: seq<Pair>, key: seq<Octet>, good: seq<Octet> -> bool)
    requires forall i :: 0 <= i < |pairs| ==> PairPasses(pairs[i], good)
    requires Lookup(pairs, key).Some?
    ensures TextsPass(Lookup(pairs, key).value, good)
  {
    if pairs[0].key == Text(key) {
      assert PairPasses(pairs[0], good);
    } else {
      assert forall i :: 0 <= i < |pairs[1..]| ==> pairs[1..][i] == pairs[i + 1];
      LookupPasses(pairs[1..], key, good);
    }
  }

  lemma FindPasses(m: Value, k: Key, good: seq<Octet> -> bool)
    requires TextsPass(m, good) && Find(m, k).Some?
    ensures TextsPass(Find(m, k).value, good)
  {
    hide Name;
    LookupPasses(m.pairs, Name(k), good);
  }

  /** The string read under a key, if any, is ok. */
  lemma TextPasses(m: Value, k: Key, good: seq<Octet> -> bool, ok: seq<Octet> -> bool)
    requires TextsPass(m, good) && SurvivesCut(good, ok)
    ensures GetText(Find(m, k)).Some? ==> ok(GetText(Find(m, k)).value)
  {
    hide Find, CStr;
    if Find(m, k).Some? { FindPasses(m, k, good); }
  }

  ghost predicate OptPasses(s: Option<CString>, ok: seq<Octet> -> bool)
  {
    s.Some? ==> ok(s.value)
  }

  /** The elements of a list that reads are what its items read as. */
  lemma {:induction false} ReadAllAt<T>(items: seq<Value>, read: Value -> Option<T>, i: nat)
    requires ReadAll(items, read).Some? && i < |items|
    ensures read(items[i]) == Some(ReadAll(items, read).value[i])
  {
    if i > 0 { ReadAllAt(items[1..], read, i - 1); }
  }

  lemma FindWellFormed(m: Value, k: Key, room: nat)
    requires WellFormed(m, room) && Find(m, k).Some?
    ensures room > 0 && WellFormed(Find(m, k).value, room - 1)
  {
    hide Name, WellFormed;
    assert m.Map?;
    PairsOfWellFormed(m, room);
    LookupIsMember(m.pairs, Name(k));
  }

  lemma PairsOfWellFormed(m: Value, room: nat)
    requires WellFormed(m, room) && m.Map?
    ensures room > 0 && forall p :: p in m.pairs ==> WellFormed(p.val, room - 1)
  {
  }

  lemma ItemsOfWellFormed(v: Value, room: nat)
    requires WellFormed(v, room) && v.Array?
    ensures room > 0 && |v.items| <= SIZE_MAX / VALUE_SIZE
    ensures forall i :: 0 <= i < |v.items| ==> WellFormed(v.items[i], room - 1)
  {
  }

  /** Whatever decodes is well formed. */
  lemma DecodedWellFormed(b: seq<Octet>, v: Value)
    requires Decode(b) == Some(v)
    ensures WellFormed(v, ROOT_ROOM)
  {
    hide Decode, WellFormed, Item;
    ExactAcceptance(b, v);
    ItemWellFormed(b, v, ROOT_ROOM, ACCEPTED);
  }
}
