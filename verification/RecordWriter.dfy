/** The steps by which a record encoder fills the output buffer: a map head with the number of fields present, then
    each field that is present, stopping at the first write that fails. */
module RecordWriter {
  import opened Octets
  import opened Cbor
  import opened Fields
  import opened Readers
  import opened OutputBuffer

  /** What has been written once the first j fields are out. */
  ghost function Upto(fs: seq<Field>, j: nat): seq<Octet>
    requires j <= |fs| <= 24
  {
    PresentCount(fs);
    ShortHead(5, CountPresent(fs)) + EncPairs(Present(fs[..j]))
  }

  lemma UptoAll(fs: seq<Field>)
    requires |fs| <= 24
    ensures Upto(fs, |fs|) == Enc(Record(fs))
  {
    hide EncPairs, ShortHead;
    PresentCount(fs);
    assert fs[..|fs|] == fs;
  }

  lemma UptoStep(fs: seq<Field>, j: nat)
    requires j < |fs| <= 24
    ensures Upto(fs, j + 1) == Upto(fs, j) + EncPairs(PairOf(fs[j]))
  {
    hide EncPairs, ShortHead, PairOf;
    assert fs[..j + 1] == fs[..j] + [fs[j]];
    PresentAppend(fs[..j], [fs[j]]);
    assert Present([fs[j]]) == PairOf(fs[j]) by { assert [fs[j]][1..] == []; }
    EncPairsAppend(Present(fs[..j]), PairOf(fs[j]));
  }

  lemma FieldOctets(f: Field)
    ensures f.value.None? ==> EncPairs(PairOf(f)) == []
    ensures f.value.Some? ==> EncPairs(PairOf(f)) == Enc(Text(Name(f.key))) + Enc(f.value.value)
  {
    hide Enc, Name;
    if f.value.Some? {
      var p := Pair(Text(Name(f.key)), f.value.value);
      assert PairOf(f) == [p];
      assert EncPairs([p]) == EncPair(p) + EncPairs([]);
    }
  }

  /** Once a prefix of the record does not fit, the record does not. */
  lemma Stopped(b: Buf, before: seq<Octet>, fs: seq<Field>, j: nat)
    requires b.Valid() && j <= |fs| <= 24 && b.Wrote(before, Upto(fs, j), false)
    ensures b.Wrote(before, Enc(Record(fs)), false)
    decreases |fs| - j
  {
    hide Upto, Enc;
    if j == |fs| {
      UptoAll(fs);
    } else {
      UptoStep(fs, j);
      b.GiveUp(before, Upto(fs, j), EncPairs(PairOf(fs[j])));
      Stopped(b, before, fs, j + 1);
    }
  }

  /** The state of an encoder after j fields: still writing, or stopped because the record does not fit. */
  ghost predicate At(b: Buf, before: seq<Octet>, fs: seq<Field>, j: nat, ok: bool)
    requires j <= |fs| <= 24
    reads b, b.data
  {
    b.Valid() && if ok then b.Wrote(before, Upto(fs, j), true) else b.Wrote(before, Enc(Record(fs)), false)
  }

  lemma Arrived(b: Buf, before: seq<Octet>, fs: seq<Field>, j: nat, ok: bool)
    requires b.Valid() && j <= |fs| <= 24 && b.Wrote(before, Upto(fs, j), ok)
    ensures At(b, before, fs, j, ok)
  {
    hide Upto, Enc;
    if !ok { Stopped(b, before, fs, j); }
  }

  /** After the last field the record is written. */
  lemma Finished(b: Buf, before: seq<Octet>, fs: seq<Field>, ok: bool)
    requires |fs| <= 24 && At(b, before, fs, |fs|, ok)
    ensures b.Wrote(before, Enc(Record(fs)), ok)
  {
    hide Upto, Enc;
    UptoAll(fs);
  }

  lemma StartOf(fs: seq<Field>)
    requires |fs| <= 24
    ensures Upto(fs, 0) == ShortHead(5, CountPresent(fs))
  {
    hide ShortHead;
  }

  /** The map head announces the number of fields present. */
  method BeginRecord(b: Buf, n: U64, ghost fs: seq<Field>) returns (ok: bool)
    requires b.Valid() && |fs| <= 24 && n == CountPresent(fs)
    modifies b, b.data
    ensures b.Valid() && (b.data == old(b.data) || fresh(b.data))
    ensures At(b, old(b.Contents()), fs, 0, ok)
  {
    hide ShortHead, Upto;
    ghost var before := b.Contents();
    ok := b.WriteHead(5, n);
    StartOf(fs);
    Arrived(b, before, fs, 0, ok);
  }

  /** The key of field j. */
  method PutKey(b: Buf, key: Key, ghost before: seq<Octet>, ghost fs: seq<Field>, ghost j: nat) returns (ok: bool)
    requires j < |fs| <= 24 && At(b, before, fs, j, true)
    requires fs[j].key == key && fs[j].value.Some?
    modifies b, b.data
    ensures b.Valid() && (b.data == old(b.data) || fresh(b.data))
    ensures if ok then b.Wrote(before, Upto(fs, j) + Enc(Text(Name(key))), true)
            else b.Wrote(before, Enc(Record(fs)), false)
  {
    hide ShortHead, Upto, Name, Record;
    b.StartedFits(before, Upto(fs, j));
    NameIsOk(key);
    var name := Name(key);
    ok := b.WriteString(3, name);
    b.Compose(before, Upto(fs, j), Enc(Text(name)), ok);
    if !ok {
      KeyStopped(b, before, fs, j);
    }
  }

  lemma KeyStopped(b: Buf, before: seq<Octet>, fs: seq<Field>, j: nat)
    requires b.Valid() && j < |fs| <= 24 && fs[j].value.Some?
    requires b.Wrote(before, Upto(fs, j) + Enc(Text(Name(fs[j].key))), false)
    ensures b.Wrote(before, Enc(Record(fs)), false)
  {
    hide Upto, Enc, Name, Record;
    var s := Upto(fs, j) + Enc(Text(Name(fs[j].key)));
    b.GiveUp(before, s, Enc(fs[j].value.value));
    ValueFollows(fs, j);
    Stopped(b, before, fs, j + 1);
  }

  lemma ValueFollows(fs: seq<Field>, j: nat)
    requires j < |fs| <= 24 && fs[j].value.Some?
    ensures Upto(fs, j + 1) == Upto(fs, j) + Enc(Text(Name(fs[j].key))) + Enc(fs[j].value.value)
  {
    hide Upto, Enc, Name;
    UptoStep(fs, j);
    FieldOctets(fs[j]);
    var x, y, z := Upto(fs, j), Enc(Text(Name(fs[j].key))), Enc(fs[j].value.value);
    assert x + (y + z) == x + y + z;
  }

  /** The value of field j, written after its key. */
  lemma ValueWritten(b: Buf, before: seq<Octet>, fs: seq<Field>, j: nat, ok: bool)
    requires b.Valid() && j < |fs| <= 24 && fs[j].value.Some?
    requires b.Wrote(before + (Upto(fs, j) + Enc(Text(Name(fs[j].key)))), Enc(fs[j].value.value), ok)
    ensures At(b, before, fs, j + 1, ok)
  {
    hide Upto, Enc, Name;
    b.Compose(before, Upto(fs, j) + Enc(Text(Name(fs[j].key))), Enc(fs[j].value.value), ok);
    ValueFollows(fs, j);
    Arrived(b, before, fs, j + 1, ok);
  }

  lemma AbsentField(b: Buf, before: seq<Octet>, fs: seq<Field>, j: nat)
    requires j < |fs| <= 24 && fs[j].value.None? && At(b, before, fs, j, true)
    ensures At(b, before, fs, j + 1, true)
  {
    hide Upto, Enc;
    UptoStep(fs, j);
    FieldOctets(fs[j]);
    assert Upto(fs, j) + [] == Upto(fs, j);
  }

  method PutText(b: Buf, key: Key, s: CString, ghost before: seq<Octet>, ghost fs: seq<Field>, ghost j: nat)
    returns (ok: bool)
    requires j < |fs| <= 24 && At(b, before, fs, j, true) && fs[j] == TextField(key, s)
    modifies b, b.data
    ensures b.Valid() && (b.data == old(b.data) || fresh(b.data))
    ensures At(b, before, fs, j + 1, ok)
  {
    hide ShortHead, Upto, Name, Record;
    ok := PutKey(b, key, before, fs, j);
    if !ok {
      return;
    }
    b.StartedFits(before, Upto(fs, j) + Enc(Text(Name(key))));
    ok := b.WriteString(3, s);
    ValueWritten(b, before, fs, j, ok);
  }

  method PutUInt(b: Buf, key: Key, u: U64, ghost before: seq<Octet>, ghost fs: seq<Field>, ghost j: nat)
    returns (ok: bool)
    requires j < |fs| <= 24 && At(b, before, fs, j, true) && fs[j] == UIntField(key, u)
    modifies b, b.data
    ensures b.Valid() && (b.data == old(b.data) || fresh(b.data))
    ensures At(b, before, fs, j + 1, ok)
  {
    hide ShortHead, Upto, Name, Record;
    ok := PutKey(b, key, before, fs, j);
    if !ok {
      return;
    }
    b.StartedFits(before, Upto(fs, j) + Enc(Text(Name(key))));
    ok := b.WriteHead(0, u);
    ValueWritten(b, before, fs, j, ok);
  }

  method PutBool(b: Buf, key: Key, x: bool, ghost before: seq<Octet>, ghost fs: seq<Field>, ghost j: nat)
    returns (ok: bool)
    requires j < |fs| <= 24 && At(b, before, fs, j, true) && fs[j] == BoolField(key, x)
    modifies b, b.data
    ensures b.Valid() && (b.data == old(b.data) || fresh(b.data))
    ensures At(b, before, fs, j + 1, ok)
  {
    hide ShortHead, Upto, Name, Record;
    ok := PutKey(b, key, before, fs, j);
    if !ok {
      return;
    }
    b.StartedFits(before, Upto(fs, j) + Enc(Text(Name(key))));
    ok := b.Push(if x then 0xF5 else 0xF4);
    ValueWritten(b, before, fs, j, ok);
  }

  method PutEnum(b: Buf, key: Key, t: EnumType, e: nat, ghost before: seq<Octet>, ghost fs: seq<Field>, ghost j: nat)
    returns (ok: bool)
    requires e < Constants(t)
    requires j < |fs| <= 24 && At(b, before, fs, j, true) && fs[j] == EnumField(key, t, e)
    modifies b, b.data
    ensures b.Valid() && (b.data == old(b.data) || fresh(b.data))
    ensures At(b, before, fs, j + 1, ok)
  {
    hide ShortHead, Upto, Name, Record, Texts, Ascii;
    ok := PutKey(b, key, before, fs, j);
    if !ok {
      return;
    }
    b.StartedFits(before, Upto(fs, j) + Enc(Text(Name(key))));
    var name := Ascii(Texts(t)[e]);
    ok := b.WriteString(3, name);
    ValueWritten(b, before, fs, j, ok);
  }

  // ----- optional fields: written only when present -----

  method PutOptText(b: Buf, key: Key, s: Option<CString>, ghost before: seq<Octet>, ghost fs: seq<Field>, ghost j: nat)
    returns (ok: bool)
    requires b.Valid() && j < |fs| <= 24 && At(b, before, fs, j, true) && fs[j] == OptTextField(key, s)
    modifies b, b.data
    ensures b.Valid() && (b.data == old(b.data) || fresh(b.data))
    ensures At(b, before, fs, j + 1, ok)
  {
    hide At;
    if s.Some? {
      ok := PutText(b, key, s.value, before, fs, j);
    } else {
      AbsentField(b, before, fs, j);
      ok := true;
    }
  }

  method PutOptUInt(b: Buf, key: Key, u: Option<U64>, ghost before: seq<Octet>, ghost fs: seq<Field>, ghost j: nat)
    returns (ok: bool)
    requires b.Valid() && j < |fs| <= 24 && At(b, before, fs, j, true) && fs[j] == OptUIntField(key, u)
    modifies b, b.data
    ensures b.Valid() && (b.data == old(b.data) || fresh(b.data))
    ensures At(b, before, fs, j + 1, ok)
  {
    hide At;
    if u.Some? {
      ok := PutUInt(b, key, u.value, before, fs, j);
    } else {
      AbsentField(b, before, fs, j);
      ok := true;
    }
  }

  method PutOptBool(b: Buf, key: Key, x: Option<bool>, ghost before: seq<Octet>, ghost fs: seq<Field>, ghost j: nat)
    returns (ok: bool)
    requires b.Valid() && j < |fs| <= 24 && At(b, before, fs, j, true) && fs[j] == OptBoolField(key, x)
    modifies b, b.data
    ensures b.Valid() && (b.data == old(b.data) || fresh(b.data))
    ensures At(b, before, fs, j + 1, ok)
  {
    hide At;
    if x.Some? {
      ok := PutBool(b, key, x.value, before, fs, j);
    } else {
      AbsentField(b, before, fs, j);
      ok := true;
    }
  }

  method PutOptEnum(b: Buf, key: Key, t: EnumType, e: Option<nat>,
                    ghost before: seq<Octet>, ghost fs: seq<Field>, ghost j: nat)
    returns (ok: bool)
    requires e.Some? ==> e.value < Constants(t)
    requires b.Valid() && j < |fs| <= 24 && At(b, before, fs, j, true) && fs[j] == OptEnumField(key, t, e)
    modifies b, b.data
    ensures b.Valid() && (b.data == old(b.data) || fresh(b.data))
    ensures At(b, before, fs, j + 1, ok)
  {
    hide At, EnumValue;
    if e.Some? {
      ok := PutEnum(b, key, t, e.value, before, fs, j);
    } else {
      AbsentField(b, before, fs, j);
      ok := true;
    }
  }

  // ----- lists: a head with the count, then every element -----

  /** The state of an encoder after i elements of a list: still writing, or stopped because the list does not fit. */
  ghost predicate InList(b: Buf, before: seq<Octet>, vs: seq<Value>, i: nat, ok: bool)
    requires i <= |vs|
    reads b, b.data
  {
    && |vs| <= SIZE_MAX
    && b.Valid()
    && if ok then b.Wrote(before, ShortHead(4, |vs|) + EncItems(vs[..i]), true)
       else b.Wrote(before, Enc(Array(vs)), false)
  }

  method BeginList(b: Buf, n: U64, ghost vs: seq<Value>) returns (ok: bool)
    requires b.Valid() && n == |vs| <= SIZE_MAX
    modifies b, b.data
    ensures b.Valid() && (b.data == old(b.data) || fresh(b.data))
    ensures InList(b, old(b.Contents()), vs, 0, ok)
  {
    hide ShortHead, EncItems;
    ghost var before := b.Contents();
    ok := b.WriteHead(4, n);
    NoItems(vs);
    if !ok {
      b.GiveUp(before, ShortHead(4, n), EncItems(vs));
    }
  }

  lemma NoItems(vs: seq<Value>)
    requires |vs| <= SIZE_MAX
    ensures ShortHead(4, |vs|) + EncItems(vs[..0]) == ShortHead(4, |vs|)
  {
    hide ShortHead;
  }

  /** Element i, written after those before it. */
  lemma ItemWritten(b: Buf, before: seq<Octet>, vs: seq<Value>, i: nat, ok: bool)
    requires b.Valid() && i < |vs| <= SIZE_MAX
    requires b.Wrote(before + (ShortHead(4, |vs|) + EncItems(vs[..i])), Enc(vs[i]), ok)
    ensures InList(b, before, vs, i + 1, ok)
  {
    hide ShortHead, EncItems;
    var h := ShortHead(4, |vs|);
    b.Compose(before, h + EncItems(vs[..i]), Enc(vs[i]), ok);
    EncItemsSnoc(vs, i);
    assert h + EncItems(vs[..i]) + Enc(vs[i]) == h + EncItems(vs[..i + 1]);
    if !ok {
      b.ItemsStopped(before, h, vs, i + 1);
    }
  }

  lemma ListWritten(b: Buf, before: seq<Octet>, vs: seq<Value>, ok: bool)
    requires InList(b, before, vs, |vs|, ok)
    ensures b.Wrote(before, Enc(Array(vs)), ok)
  {
    hide ShortHead, EncItems;
    assert vs[..|vs|] == vs;
  }

  /** Where element i starts. */
  lemma ListSoFar(b: Buf, before: seq<Octet>, vs: seq<Value>, i: nat)
    requires i <= |vs| && InList(b, before, vs, i, true)
    ensures b.Contents() == before + (ShortHead(4, |vs|) + EncItems(vs[..i]))
  {
  }
}
