/** The Settings record: a map whose keys and their order come from the caller. */
module SettingsRecords {
  import opened Octets
  import opened Utf8
  import opened Cbor
  import opened Codec
  import opened KeyOrder
  import opened Fields
  import opened Readers

  datatype Entry = Entry(key: CString, text: CString)
  datatype Settings = Settings(entries: seq<Entry>)

  function EntryPair(e: Entry): Pair
  {
    Pair(Text(e.key), Text(e.text))
  }

  function EntryPairs(es: seq<Entry>): (pairs: seq<Pair>)
    ensures |pairs| == |es| && forall i :: 0 <= i < |es| ==> pairs[i] == EntryPair(es[i])
  {
    seq(|es|, i requires 0 <= i < |es| => EntryPair(es[i]))
  }

  function SettingsFields(s: Settings): seq<Field>
  {
    [Field(Entries, Some(Map(EntryPairs(s.entries))))]
  }

  function SettingsValue(s: Settings): Value
  {
    Record(SettingsFields(s))
  }

  /** Keys and texts of all pairs; a pair with anything else refuses the record. */
  function ReadEntries(pairs: seq<Pair>): (r: Option<seq<Entry>>)
    ensures r.Some? ==> |r.value| == |pairs|
  {
    if pairs == [] then Some([])
    else
      var key :- GetText(Some(pairs[0].key));
      var text :- GetText(Some(pairs[0].val));
      var rest :- ReadEntries(pairs[1..]);
      Some([Entry(key, text)] + rest)
  }

  /** The entries read so far, followed by what the remaining pairs read as. */
  function Joined(out: seq<Entry>, r: Option<seq<Entry>>): Option<seq<Entry>>
  {
    if r.Some? then Some(out + r.value) else None
  }

  lemma EntryStep(out: seq<Entry>, tail: seq<Pair>)
    requires tail != []
    ensures var key, text := GetText(Some(tail[0].key)), GetText(Some(tail[0].val));
            Joined(out, ReadEntries(tail)) ==
            if key.Some? && text.Some?
            then Joined(out + [Entry(key.value, text.value)], ReadEntries(tail[1..]))
            else None
  {
    hide GetText;
    var key, text, rest := GetText(Some(tail[0].key)), GetText(Some(tail[0].val)), ReadEntries(tail[1..]);
    if key.Some? && text.Some? && rest.Some? {
      var e := [Entry(key.value, text.value)];
      assert out + (e + rest.value) == out + e + rest.value;
    }
  }

  lemma EntryEnds(out: seq<Entry>, pairs: seq<Pair>)
    ensures Joined([], ReadEntries(pairs)) == ReadEntries(pairs)
    ensures Joined(out, ReadEntries([])) == Some(out)
  {
    assert out + [] == out;
    if ReadEntries(pairs).Some? { assert [] + ReadEntries(pairs).value == ReadEntries(pairs).value; }
  }

  /** The entry loop of the decoder. */
  method CollectEntries(pairs: seq<Pair>) returns (r: Option<seq<Entry>>)
    ensures r == ReadEntries(pairs)
  {
    hide GetText, ReadEntries, Joined;
    var out: seq<Entry> := [];
    var i: nat := 0;
    assert pairs[0..] == pairs;
    EntryEnds([], pairs);
    while i < |pairs|
      invariant i <= |pairs|
      invariant ReadEntries(pairs) == Joined(out, ReadEntries(pairs[i..]))
    {
      EntryStep(out, pairs[i..]);
      assert pairs[i..][1..] == pairs[i + 1..];
      var key := GetText(Some(pairs[i].key));
      if key.None? { return None; }
      var text := GetText(Some(pairs[i].val));
      if text.None? { return None; }
      out := out + [Entry(key.value, text.value)];
      i := i + 1;
    }
    assert pairs[i..] == [];
    EntryEnds(out, pairs);
    return Some(out);
  }

  function DecSettings(m: Value): Option<Settings>
  {
    if !m.Map? then None
    else
      match Find(m, Entries)
      case Some(Map(pairs)) =>
        var entries :- ReadEntries(pairs);
        Some(Settings(entries))
      case _ => None
  }

  /** The caller listed the entries by ascending key. */
  ghost predicate Listed(es: seq<Entry>)
  {
    forall i, j :: 0 <= i < j < |es| ==> KeyLess(es[i].key, es[j].key)
  }

  /** The encoder keeps the caller's order, so the keys ascend exactly when the caller listed them so. */
  lemma EntriesAscendAsListed(s: Settings)
    ensures Ascending(EntryPairs(s.entries)) <==> Listed(s.entries)
  {
    hide Enc, LexLess, KeyLess;
    var pairs := EntryPairs(s.entries);
    forall i, j | 0 <= i < j < |pairs|
      ensures LexLess(Enc(pairs[i].key), Enc(pairs[j].key)) <==> KeyLess(s.entries[i].key, s.entries[j].key)
    {
      EncodedKeyOrder(s.entries[i].key, s.entries[j].key);
    }
  }

  /** Two entries listed the wrong way round: the encoding is not deterministically ordered. */
  lemma UnorderedEntries()
    ensures !Ascending(EntryPairs([Entry([98], []), Entry([97], [])]))
  {
    var es := [Entry([98], []), Entry([97], [])];
    EntriesAscendAsListed(Settings(es));
    assert !KeyLess(es[0].key, es[1].key);
  }

  lemma {:induction false} EntriesRoundTrip(es: seq<Entry>)
    ensures ReadEntries(EntryPairs(es)) == Some(es)
  {
    if es != [] {
      EntriesRoundTrip(es[1..]);
      assert EntryPairs(es)[1..] == EntryPairs(es[1..]);
      assert [es[0]] + es[1..] == es;
    }
  }

  lemma SettingsRoundTrip(s: Settings)
    ensures DecSettings(SettingsValue(s)) == Some(s)
  {
    hide Find;
    var fs := SettingsFields(s);
    assert Schema(fs);
    FindField(fs, 0);
    EntriesRoundTrip(s.entries);
  }

  ghost predicate Utf8Settings(s: Settings)
  {
    && |s.entries| <= SIZE_MAX / PAIR_SIZE
    && forall i :: 0 <= i < |s.entries| ==> IsUtf8(s.entries[i].key) && IsUtf8(s.entries[i].text)
  }

  lemma SettingsEncodable(s: Settings)
    requires |s.entries| <= SIZE_MAX
    ensures Plain(SettingsValue(s), true)
    ensures WellFormed(SettingsValue(s), ROOT_ROOM) <==> Utf8Settings(s)
  {
    hide IsUtf8;
    var fs := SettingsFields(s);
    var pairs := EntryPairs(s.entries);
    assert Schema(fs);
    assert Plain(Map(pairs), true) by {
      forall i | 0 <= i < |pairs| ensures PlainPair(pairs[i], true) { assert pairs[i] == EntryPair(s.entries[i]); }
    }
    assert WellFormed(Map(pairs), MAX_DEPTH) <==> Utf8Settings(s) by {
      forall i | 0 <= i < |pairs|
        ensures WellFormed(pairs[i].key, MAX_DEPTH - 1) && WellFormed(pairs[i].val, MAX_DEPTH - 1) <==>
                IsUtf8(s.entries[i].key) && IsUtf8(s.entries[i].text)
      {
        assert pairs[i] == EntryPair(s.entries[i]);
      }
    }
    RecordPlain(fs);
    RecordWellFormed(fs, ROOT_ROOM);
    assert FieldValuesWellFormed(fs, MAX_DEPTH) <==> FieldWellFormed(fs[0], MAX_DEPTH);
    hide Plain, WellFormed;
  }

  ghost function DecodeSettings(b: seq<Octet>): Option<Settings>
  {
    var m :- Decode(b);
    DecSettings(m)
  }

  /** Round trip over the wire in the caller's order, repeated keys included. */
  lemma SettingsWire(s: Settings)
    requires |s.entries| <= SIZE_MAX
    ensures DecodeSettings(Enc(SettingsValue(s))) == if Utf8Settings(s) then Some(s) else None
  {
    SettingsEncodable(s);
    SettingsRoundTrip(s);
    hide Plain, WellFormed, SettingsValue, DecSettings, Utf8Settings, Decode, Enc;
    WireRoundTrip(SettingsValue(s));
  }
}
