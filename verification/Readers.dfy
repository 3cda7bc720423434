/** Reading typed fields out of a decoded tree. */
module Readers {
  import opened Octets
  import opened Utf8
  import opened Cbor
  import opened Codec
  import opened Fields

  /** The octets before the first NUL. */
  function UpToNul(s: seq<Octet>): (c: seq<Octet>)
    ensures c <= s && 0 !in c
    ensures 0 !in s ==> c == s
  {
    if s == [] || s[0] == 0 then [] else [s[0]] + UpToNul(s[1..])
  }

  /** What a C program sees of a decoded text. Only a text that fits memory can have been decoded. */
  function CStr(s: seq<Octet>): (c: CString)
    ensures 0 !in s && |s| < SIZE_MAX ==> c == s
  {
    var c := UpToNul(s);
    if |c| < SIZE_MAX then c else []
  }

  function AsU64(v: Option<Value>): Option<U64>
  {
    match v
    case Some(UInt(u)) => Some(u)
    case Some(NInt(i)) => if i >= 0 then Some(i) else None
    case _ => None
  }

  function AsBool(v: Option<Value>): Option<bool>
  {
    match v
    case Some(Bool(b)) => Some(b)
    case _ => None
  }

  function GetText(v: Option<Value>): Option<CString>
  {
    match v
    case Some(Text(t)) => Some(CStr(t))
    case _ => None
  }

  /** An optional field: absent is fine, present must read. */
  function Optional<T>(v: Option<Value>, read: Option<Value> -> Option<T>): Option<Option<T>>
  {
    if v.None? then Some(None)
    else
      var t :- read(v);
      Some(Some(t))
  }

  /** A list field: every element must read. */
  function ReadAll<T>(vs: seq<Value>, read: Value -> Option<T>): (r: Option<seq<T>>)
    ensures r.Some? ==> |r.value| == |vs|
  {
    if vs == [] then Some([])
    else
      var first :- read(vs[0]);
      var rest :- ReadAll(vs[1..], read);
      Some([first] + rest)
  }

  function ListOf<T>(v: Option<Value>, read: Value -> Option<T>): Option<seq<T>>
  {
    match v
    case Some(Array(items)) => ReadAll(items, read)
    case _ => None
  }

  /** One more element of a list: with it the list reads so far, or it never does. */
  lemma ReadStep<T>(items: seq<Value>, i: nat, out: seq<T>, read: Value -> Option<T>)
    requires i < |items| && ReadAll(items[..i], read) == Some(out)
    ensures read(items[i]).Some? ==> ReadAll(items[..i + 1], read) == Some(out + [read(items[i]).value])
    ensures read(items[i]).None? ==> ReadAll(items, read) == None
  {
    hide ReadAll;
    var done, rest := items[..i + 1], items[i + 1..];
    assert done == items[..i] + [items[i]];
    assert items == done + rest;
    ReadAllAppend(items[..i], [items[i]], read);
    ReadOne(items[i], read);
    ReadAllAppend(done, rest, read);
  }

  lemma ReadOne<T>(v: Value, read: Value -> Option<T>)
    ensures ReadAll([v], read) == if read(v).Some? then Some([read(v).value]) else None
  {
    assert [v][1..] == [];
    if read(v).Some? { assert [read(v).value] + [] == [read(v).value]; }
  }

  /** The values a list is written as. */
  function WriteAll<T>(ts: seq<T>, write: T -> Value): (vs: seq<Value>)
    ensures |vs| == |ts|
    ensures forall i :: 0 <= i < |ts| ==> vs[i] == write(ts[i])
  {
    seq(|ts|, i requires 0 <= i < |ts| => write(ts[i]))
  }

  lemma {:induction false} ReadWritten<T(!new)>(ts: seq<T>, write: T -> Value, read: Value -> Option<T>)
    requires forall t :: read(write(t)) == Some(t)
    ensures ReadAll(WriteAll(ts, write), read) == Some(ts)
  {
    if ts != [] {
      ReadWritten(ts[1..], write, read);
      assert WriteAll(ts, write)[1..] == WriteAll(ts[1..], write);
      assert [ts[0]] + ts[1..] == ts;
    }
  }

  lemma {:induction false} ReadAllAppend<T>(a: seq<Value>, b: seq<Value>, read: Value -> Option<T>)
    ensures ReadAll(a + b, read) ==
            if ReadAll(a, read).Some? && ReadAll(b, read).Some?
            then Some(ReadAll(a, read).value + ReadAll(b, read).value)
            else None
  {
    if a == [] {
      assert a + b == b;
      if ReadAll(b, read).Some? { assert [] + ReadAll(b, read).value == ReadAll(b, read).value; }
    } else {
      ReadAllAppend(a[1..], b, read);
      assert (a + b)[1..] == a[1..] + b;
      if ReadAll(a, read).Some? && ReadAll(b, read).Some? {
        var x, y, z := [read(a[0]).value], ReadAll(a[1..], read).value, ReadAll(b, read).value;
        assert x + (y + z) == (x + y) + z;
      }
    }
  }

  // ----- enumerations -----

  datatype EnumType = PlayerStatuses | RepeatModes | NodeEvents | Libraries

  type PlayerStatus = e: nat | e < 3
  type RepeatMode = e: nat | e < 3
  type NodeEvent = e: nat | e < 4
  type Library = e: nat | e < 2

  function Constants(t: EnumType): nat
  {
    match t
    case PlayerStatuses => 3
    case RepeatModes => 3
    case NodeEvents => 4
    case Libraries => 2
  }

  /** The wire texts of an enumeration, indexed by its constants. */
  function Texts(t: EnumType): (names: seq<string>)
    ensures |names| == Constants(t)
    ensures forall i :: 0 <= i < |names| ==> |names[i]| <= 32
  {
    match t
    case PlayerStatuses => ["stopped", "playing", "paused"]
    case RepeatModes => ["off", "all", "one"]
    case NodeEvents => ["ready", "state", "completed", "failed"]
    case Libraries => ["music", "audiobook"]
  }

  function EnumValue(t: EnumType, e: nat): Value
    requires e < Constants(t)
  {
    Text(Ascii(Texts(t)[e]))
  }

  /** The first constant, from the given one on, whose wire text is exactly s. */
  function FindText(t: EnumType, s: seq<Octet>, from: nat): (r: Option<nat>)
    requires from <= Constants(t)
    ensures r.Some? ==> from <= r.value < Constants(t) && Ascii(Texts(t)[r.value]) == s
    decreases Constants(t) - from
  {
    if from == Constants(t) then None
    else if Ascii(Texts(t)[from]) == s then Some(from)
    else FindText(t, s, from + 1)
  }

  function ReadEnum(t: EnumType, v: Option<Value>): (r: Option<nat>)
    ensures r.Some? ==> r.value < Constants(t)
  {
    match v
    case Some(Text(s)) => FindText(t, s, 0)
    case _ => None
  }

  function ReadLibrary(v: Option<Value>): Option<Library>
  {
    match ReadEnum(Libraries, v)
    case Some(e) => Some(e)
    case None => None
  }

  function ReadPlayerStatus(v: Option<Value>): Option<PlayerStatus>
  {
    match ReadEnum(PlayerStatuses, v)
    case Some(e) => Some(e)
    case None => None
  }

  function ReadRepeatMode(v: Option<Value>): Option<RepeatMode>
  {
    match ReadEnum(RepeatModes, v)
    case Some(e) => Some(e)
    case None => None
  }

  function ReadNodeEvent(v: Option<Value>): Option<NodeEvent>
  {
    match ReadEnum(NodeEvents, v)
    case Some(e) => Some(e)
    case None => None
  }

  /** The wire texts of one enumeration differ. */
  lemma TextsDistinct(t: EnumType, i: nat, j: nat)
    requires i < j < Constants(t)
    ensures Ascii(Texts(t)[i]) != Ascii(Texts(t)[j])
  {
    assert Ascii("stopped")[0] != Ascii("playing")[0] && |"paused"| == 6;
    assert Ascii("off")[1] != Ascii("one")[1] && Ascii("off")[0] != Ascii("all")[0];
    assert Ascii("all")[0] != Ascii("one")[0];
    assert Ascii("ready")[0] != Ascii("state")[0];
  }

  lemma {:induction false} FindOwnText(t: EnumType, e: nat, from: nat)
    requires from <= e < Constants(t)
    ensures FindText(t, Ascii(Texts(t)[e]), from) == Some(e)
    decreases e - from
  {
    hide Ascii, Texts;
    if from < e {
      TextsDistinct(t, from, e);
      FindOwnText(t, e, from + 1);
    }
  }

  /** An enumeration constant survives being written and read, and its text can always be encoded. */
  lemma EnumRoundTrip(t: EnumType, e: nat)
    requires e < Constants(t)
    ensures ReadEnum(t, Some(EnumValue(t, e))) == Some(e)
    ensures forall room: nat :: room > 0 ==> WellFormed(EnumValue(t, e), room)
    ensures Plain(EnumValue(t, e), true)
  {
    hide Texts;
    FindOwnText(t, e, 0);
    AsciiIsUtf8(Ascii(Texts(t)[e]));
  }

  /** The name scan of the enum decoders. */
  method MatchName(t: EnumType, src: Option<Value>) returns (r: Option<nat>)
    ensures r == ReadEnum(t, src)
  {
    hide Texts;
    if !(src.Some? && src.value.Text?) {
      return None;
    }
    var s := src.value.text;
    var i := 0;
    while i < Constants(t)
      invariant i <= Constants(t)
      invariant FindText(t, s, 0) == FindText(t, s, i)
    {
      if |Texts(t)[i]| == |s| && Ascii(Texts(t)[i]) == s {
        return Some(i);
      }
      i := i + 1;
    }
    return None;
  }

  // ----- fields as the encoders write them -----

  function TextField(k: Key, s: CString): Field
  {
    Field(k, Some(Text(s)))
  }

  function OptTextField(k: Key, s: Option<CString>): Field
  {
    Field(k, if s.Some? then Some(Text(s.value)) else None)
  }

  function UIntField(k: Key, u: U64): Field
  {
    Field(k, Some(UInt(u)))
  }

  function OptUIntField(k: Key, u: Option<U64>): Field
  {
    Field(k, if u.Some? then Some(UInt(u.value)) else None)
  }

  function BoolField(k: Key, b: bool): Field
  {
    Field(k, Some(Bool(b)))
  }

  function OptBoolField(k: Key, b: Option<bool>): Field
  {
    Field(k, if b.Some? then Some(Bool(b.value)) else None)
  }

  function EnumField(k: Key, t: EnumType, e: nat): Field
    requires e < Constants(t)
  {
    Field(k, Some(EnumValue(t, e)))
  }

  function OptEnumField(k: Key, t: EnumType, e: Option<nat>): Field
    requires e.Some? ==> e.value < Constants(t)
  {
    Field(k, if e.Some? then Some(EnumValue(t, e.value)) else None)
  }

  function ListField(k: Key, vs: seq<Value>): Field
  {
    Field(k, Some(Array(vs)))
  }

  ghost predicate OptUtf8(s: Option<CString>)
  {
    s.Some? ==> IsUtf8(s.value)
  }

  /** Reading a field kind undoes writing it. */
  lemma FieldsReadBack()
    ensures forall s: CString :: GetText(Some(Text(s))) == Some(s)
    ensures forall k, s: Option<CString> :: GetText(OptTextField(k, s).value) == s
    ensures forall k, u: Option<U64> :: Optional(OptUIntField(k, u).value, AsU64) == Some(u)
    ensures forall k, b: Option<bool> :: Optional(OptBoolField(k, b).value, AsBool) == Some(b)
  {
  }

  lemma EnumsReadBack()
    ensures forall e: PlayerStatus :: ReadPlayerStatus(Some(EnumValue(PlayerStatuses, e))) == Some(e)
    ensures forall e: RepeatMode :: ReadRepeatMode(Some(EnumValue(RepeatModes, e))) == Some(e)
    ensures forall k, e: Option<Library> :: Optional(OptEnumField(k, Libraries, e).value, ReadLibrary) == Some(e)
    ensures forall k, e: Option<NodeEvent> :: Optional(OptEnumField(k, NodeEvents, e).value, ReadNodeEvent) == Some(e)
  {
    hide EnumValue, ReadEnum;
    forall t: EnumType, e: nat | e < Constants(t) ensures ReadEnum(t, Some(EnumValue(t, e))) == Some(e) {
      EnumRoundTrip(t, e);
    }
  }

  /** Which values of each kind of field can be encoded: only texts can fail, by not being UTF-8. */
  lemma FieldKinds(room: nat)
    requires room > 0
    ensures forall k, s: CString :: FieldWellFormed(TextField(k, s), room) <==> IsUtf8(s)
    ensures forall k, s: Option<CString> :: FieldWellFormed(OptTextField(k, s), room) <==> OptUtf8(s)
    ensures forall k, u: U64 :: FieldWellFormed(UIntField(k, u), room)
    ensures forall k, u: Option<U64> :: FieldWellFormed(OptUIntField(k, u), room)
    ensures forall k, b :: FieldWellFormed(BoolField(k, b), room)
    ensures forall k, b :: FieldWellFormed(OptBoolField(k, b), room)
    ensures forall k, t, e: nat :: e < Constants(t) ==> FieldWellFormed(EnumField(k, t, e), room)
  {
    hide IsUtf8, EnumValue;
    forall t: EnumType, e: nat | e < Constants(t) ensures WellFormed(EnumValue(t, e), room) {
      EnumRoundTrip(t, e);
    }
  }

  /** An optional enumeration field can always be encoded. */
  lemma OptEnumKind(k: Key, t: EnumType, e: Option<nat>, room: nat)
    requires room > 0 && (e.Some? ==> e.value < Constants(t))
    ensures FieldWellFormed(OptEnumField(k, t, e), room) && FieldPlain(OptEnumField(k, t, e))
  {
    hide EnumValue, Constants;
    if e.Some? { EnumRoundTrip(t, e.value); }
  }

  lemma FieldKindsPlain()
    ensures forall k, s: CString :: FieldPlain(TextField(k, s))
    ensures forall k, s: Option<CString> :: FieldPlain(OptTextField(k, s))
    ensures forall k, u: U64 :: FieldPlain(UIntField(k, u))
    ensures forall k, u: Option<U64> :: FieldPlain(OptUIntField(k, u))
    ensures forall k, b :: FieldPlain(BoolField(k, b))
    ensures forall k, b :: FieldPlain(OptBoolField(k, b))
    ensures forall k, t, e: nat :: e < Constants(t) ==> FieldPlain(EnumField(k, t, e))
  {
    hide EnumValue;
    forall t: EnumType, e: nat | e < Constants(t) ensures Plain(EnumValue(t, e), true) {
      EnumRoundTrip(t, e);
    }
  }

  /** The linear scan of csilc_map_get. */
  method ScanMap(v: Option<Value>, key: seq<Octet>) returns (r: Option<Value>)
    ensures r == if v.Some? then MapGet(v.value, key) else None
    ensures v.Some? && v.value.Map? ==>
              match r
              case None => forall i :: 0 <= i < |v.value.pairs| ==> v.value.pairs[i].key != Text(key)
              case Some(x) =>
                exists i ::
                  && 0 <= i < |v.value.pairs|
                  && v.value.pairs[i] == Pair(Text(key), x)
                  && forall j :: 0 <= j < i ==> v.value.pairs[j].key != Text(key)
  {
    if v.None? || !v.value.Map? {
      return None;
    }
    var pairs := v.value.pairs;
    var i := 0;
    while i < |pairs|
      invariant i <= |pairs|
      invariant Lookup(pairs, key) == Lookup(pairs[i..], key)
      invariant forall j :: 0 <= j < i ==> pairs[j].key != Text(key)
    {
      var k := pairs[i].key;
      if k.Text? && |k.text| == |key| && k.text == key {
        assert pairs[i] == Pair(Text(key), pairs[i].val);
        return Some(pairs[i].val);
      }
      i := i + 1;
    }
    return None;
  }

  /** The value stored under a key of the schema. */
  function Find(m: Value, k: Key): Option<Value>
  {
    MapGet(m, Name(k))
  }

  method Get(m: Value, k: Key) returns (f: Option<Value>)
    ensures f == Find(m, k)
  {
    hide Name;
    f := ScanMap(Some(m), Name(k));
  }

  lemma FindField(fs: seq<Field>, i: nat)
    requires Schema(fs) && i < |fs|
    ensures Find(Record(fs), fs[i].key) == fs[i].value
  {
    hide Schema, Name;
    LookupField(fs, i);
  }

  // ----- order and unknown keys -----

  ghost predicate DistinctKeys(pairs: seq<Pair>)
  {
    forall i, j :: 0 <= i < j < |pairs| ==> pairs[i].key != pairs[j].key
  }

  /** The pair's key is the text of one of the keys. */
  predicate Named(p: Pair, keys: set<Key>)
  {
    exists k :: k in keys && p.key == Text(Name(k))
  }

  /** The pairs whose key is one of the keys. */
  function Known(pairs: seq<Pair>, keys: set<Key>): seq<Pair>
  {
    if pairs == [] then []
    else
      var rest := Known(pairs[1..], keys);
      if Named(pairs[0], keys) then [pairs[0]] + rest else rest
  }

  lemma {:induction false} LookupKnown(pairs: seq<Pair>, keys: set<Key>, k: Key)
    requires k in keys
    ensures Lookup(Known(pairs, keys), Name(k)) == Lookup(pairs, Name(k))
  {
    hide Name;
    if pairs != [] {
      LookupKnown(pairs[1..], keys, k);
      if pairs[0].key == Text(Name(k)) {
        assert Named(pairs[0], keys);
      }
    }
  }

  lemma {:induction false} LookupIsMember(pairs: seq<Pair>, key: seq<Octet>)
    ensures match Lookup(pairs, key)
            case Some(x) => Pair(Text(key), x) in pairs
            case None => forall p :: p in pairs ==> p.key != Text(key)
  {
    if pairs != [] {
      LookupIsMember(pairs[1..], key);
      assert pairs == [pairs[0]] + pairs[1..];
    }
  }

  lemma LookupPermuted(p: seq<Pair>, q: seq<Pair>, key: seq<Octet>)
    requires multiset(p) == multiset(q) && DistinctKeys(p)
    ensures Lookup(p, key) == Lookup(q, key)
  {
    LookupIsMember(p, key);
    LookupIsMember(q, key);
    assert forall x :: x in p <==> x in multiset(p);
    assert forall x :: x in q <==> x in multiset(q);
  }

  /** Two maps hold the same pairs under the given keys, each key at most once, in any order. */
  ghost predicate SameNamedPairs(m: Value, n: Value, keys: set<Key>)
  {
    && m.Map? && n.Map?
    && DistinctKeys(Known(m.pairs, keys))
    && multiset(Known(m.pairs, keys)) == multiset(Known(n.pairs, keys))
  }

  /** Neither the order of the pairs nor pairs under other keys affect what is found under a key. */
  lemma SameNamedLookups(m: Value, n: Value, keys: set<Key>)
    requires SameNamedPairs(m, n, keys)
    ensures forall k :: k in keys ==> Find(m, k) == Find(n, k)
  {
    hide Name;
    forall k | k in keys ensures Find(m, k) == Find(n, k) {
      LookupKnown(m.pairs, keys, k);
      LookupKnown(n.pairs, keys, k);
      LookupPermuted(Known(m.pairs, keys), Known(n.pairs, keys), Name(k));
    }
  }
}
