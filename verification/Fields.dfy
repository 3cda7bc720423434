/** Records as maps: the fields a record may carry, the pairs it writes, and how a decoder finds them. */
module Fields {
  import opened Octets
  import opened Utf8
  import opened Cbor
  import opened KeyOrder
  import opened Codec

  /** The map keys of the records modelled. */
  datatype Key =
    | Op | Size | Error | Event | Files | Index | Queue | Title
    | Artist | Chunks | Offset | Sha256 | Status | Volume | LibraryKey | Shuffle
    | AtIndex | CanUndo | Revision | ToIndex | TrackId | PlayerId | TrackIds | FromIndex
    | SizeBytes | DurationMs | PlaybackId | PositionMs | RepeatModeKey | StartIndex | ContentType
    | AudioBlocked | CurrentIndex | QueueItemId | TrackFileIndex | RootRelativePath | BeforeQueueItemId | Entries

  function Spelling(k: Key): (s: string)
    ensures |s| <= 32
  {
    match k
    case Op => "op"
    case Size => "size"
    case Error => "error"
    case Event => "event"
    case Files => "files"
    case Index => "index"
    case Queue => "queue"
    case Title => "title"
    case Artist => "artist"
    case Chunks => "chunks"
    case Offset => "offset"
    case Sha256 => "sha256"
    case Status => "status"
    case Volume => "volume"
    case LibraryKey => "library"
    case Shuffle => "shuffle"
    case AtIndex => "at_index"
    case CanUndo => "can_undo"
    case Revision => "revision"
    case ToIndex => "to_index"
    case TrackId => "track_id"
    case PlayerId => "player_id"
    case TrackIds => "track_ids"
    case FromIndex => "from_index"
    case SizeBytes => "size_bytes"
    case DurationMs => "duration_ms"
    case PlaybackId => "playback_id"
    case PositionMs => "position_ms"
    case RepeatModeKey => "repeat_mode"
    case StartIndex => "start_index"
    case ContentType => "content_type"
    case AudioBlocked => "audio_blocked"
    case CurrentIndex => "current_index"
    case QueueItemId => "queue_item_id"
    case TrackFileIndex => "track_file_index"
    case RootRelativePath => "root_relative_path"
    case BeforeQueueItemId => "before_queue_item_id"
    case Entries => "entries"
  }

  /** How many characters each key has. */
  function Letters(k: Key): nat
  {
    match k
    case Op => 2
    case Size => 4
    case Error => 5
    case Event => 5
    case Files => 5
    case Index => 5
    case Queue => 5
    case Title => 5
    case Artist => 6
    case Chunks => 6
    case Offset => 6
    case Sha256 => 6
    case Status => 6
    case Volume => 6
    case LibraryKey => 7
    case Shuffle => 7
    case AtIndex => 8
    case CanUndo => 8
    case Revision => 8
    case ToIndex => 8
    case TrackId => 8
    case PlayerId => 9
    case TrackIds => 9
    case FromIndex => 10
    case SizeBytes => 10
    case DurationMs => 11
    case PlaybackId => 11
    case PositionMs => 11
    case RepeatModeKey => 11
    case StartIndex => 11
    case ContentType => 12
    case AudioBlocked => 13
    case CurrentIndex => 13
    case QueueItemId => 13
    case TrackFileIndex => 16
    case RootRelativePath => 18
    case BeforeQueueItemId => 20
    case Entries => 7
  }

  lemma SpellingLetters(k: Key)
    ensures |Spelling(k)| == Letters(k)
  {
  }

  /** The text of a key on the wire. */
  function Name(k: Key): seq<Octet>
  {
    Ascii(Spelling(k))
  }

  /** Key texts are short ASCII. */
  lemma NameIsOk(k: Key)
    ensures NameOk(Name(k))
  {
    hide Spelling;
  }

  /** One field of a record; an absent optional field has no value. */
  datatype Field = Field(key: Key, value: Option<Value>)

  /** The octets of an ASCII literal. */
  function Ascii(s: string): (t: seq<Octet>)
    ensures |t| == |s|
    ensures forall i :: 0 <= i < |s| ==> t[i] < 0x80
  {
    seq(|s|, i requires 0 <= i < |s| => if s[i] < 128 as char then s[i] as int else 63)
  }

  /** The pairs written for the fields that are present, in field order. */
  function Present(fs: seq<Field>): (pairs: seq<Pair>)
  {
    if fs == [] then []
    else PairOf(fs[0]) + Present(fs[1..])
  }

  function Record(fs: seq<Field>): Value
  {
    Map(Present(fs))
  }

  function CountPresent(fs: seq<Field>): nat
  {
    if fs == [] then 0 else (if fs[0].value.Some? then 1 else 0) + CountPresent(fs[1..])
  }

  lemma {:induction false} PresentCount(fs: seq<Field>)
    ensures |Present(fs)| == CountPresent(fs) <= |fs|
  {
    if fs != [] { PresentCount(fs[1..]); }
  }

  /** The pair written for one field, if any. */
  function PairOf(f: Field): seq<Pair>
  {
    if f.value.Some? then [Pair(Text(Name(f.key)), f.value.value)] else []
  }

  lemma {:induction false} PresentAppend(a: seq<Field>, b: seq<Field>)
    ensures Present(a + b) == Present(a) + Present(b)
  {
    hide PairOf;
    if a == [] {
      NothingBefore(b);
      NothingBefore(Present(b));
    } else {
      PresentAppend(a[1..], b);
      Uncons(a, b);
      Associates(PairOf(a[0]), Present(a[1..]), Present(b));
    }
  }

  /** The first value stored under a text key, as a linear scan finds it. */
  function Lookup(pairs: seq<Pair>, key: seq<Octet>): Option<Value>
  {
    if pairs == [] then None
    else if pairs[0].key == Text(key) then Some(pairs[0].val)
    else Lookup(pairs[1..], key)
  }

  function MapGet(v: Value, key: seq<Octet>): Option<Value>
  {
    if v.Map? then Lookup(v.pairs, key) else None
  }

  lemma CountStep(fs: seq<Field>, i: nat)
    requires i < |fs|
    ensures CountPresent(fs[i..]) == (if fs[i].value.Some? then 1 else 0) + CountPresent(fs[i + 1..])
  {
    assert fs[i..][1..] == fs[i + 1..];
  }

  /** The names of a record type, in the order its encoder writes them. */
  ghost predicate Schema(fs: seq<Field>)
  {
    && |fs| <= 24
    && forall i {:trigger fs[i]} :: 0 <= i < |fs| - 1 ==> Before(fs[i].key, fs[i + 1].key)
  }

  /** The encoding of key a precedes that of key b. */
  predicate Before(a: Key, b: Key)
  {
    KeyLess(Name(a), Name(b))
  }

  /** A key with a shorter text comes first. */
  lemma Shorter(a: Key, b: Key)
    requires Letters(a) < Letters(b)
    ensures Before(a, b)
  {
    hide Spelling, Letters;
    SpellingLetters(a);
    SpellingLetters(b);
  }

  /** Of two keys whose texts are equally long, the one with the smaller first differing character comes first. */
  lemma Diverges(a: Key, b: Key, p: nat)
    requires p < |Spelling(a)| == |Spelling(b)|
    requires forall i :: 0 <= i < p ==> Spelling(a)[i] == Spelling(b)[i]
    requires Spelling(a)[p] < Spelling(b)[p] < 128 as char
    ensures Before(a, b)
  {
    hide Spelling;
    FirstDifference(Name(a), Name(b), p);
  }

  lemma PlaybackBeforePosition()
    ensures Before(PlaybackId, PositionMs)
  {
    hide Before;
    Diverges(PlaybackId, PositionMs, 1);
  }

  lemma {:induction false} FirstDifference(a: seq<Octet>, b: seq<Octet>, p: nat)
    requires p < |a| && p < |b| && a[p] < b[p] && forall i :: 0 <= i < p ==> a[i] == b[i]
    ensures LexLess(a, b)
  {
    if p > 0 { FirstDifference(a[1..], b[1..], p - 1); }
  }

  ghost predicate NameOk(name: seq<Octet>)
  {
    |name| <= 32 && forall j :: 0 <= j < |name| ==> name[j] < 0x80
  }

  lemma SchemaTail(fs: seq<Field>)
    requires Schema(fs) && fs != []
    ensures Schema(fs[1..])
  {
    hide Before;
    var t := fs[1..];
    assert forall i :: 0 <= i < |t| ==> t[i] == fs[i + 1];
    forall i {:trigger t[i]} | 0 <= i < |t| - 1 ensures Before(t[i].key, t[i + 1].key) {
      assert Before(fs[i + 1].key, fs[i + 1 + 1].key);
    }
  }

  lemma {:induction false} FirstIsLeast(fs: seq<Field>, i: nat)
    requires Schema(fs) && 0 < i < |fs|
    ensures KeyLess(Name(fs[0].key), Name(fs[i].key))
    decreases i
  {
    hide KeyLess, Name;
    assert Before(fs[i - 1].key, fs[i - 1 + 1].key);
    if i > 1 {
      FirstIsLeast(fs, i - 1);
      KeyLessTransitive(Name(fs[0].key), Name(fs[i - 1].key), Name(fs[i].key));
    }
  }

  /** Every pair written comes from a field. */
  lemma {:induction false} PairsComeFromFields(fs: seq<Field>, j: nat) returns (i: nat)
    requires j < |Present(fs)|
    ensures i < |fs| && fs[i].value == Some(Present(fs)[j].val) && Present(fs)[j].key == Text(Name(fs[i].key))
  {
    hide Name;
    if fs[0].value.Some? && j == 0 {
      i := 0;
    } else {
      var k := PairsComeFromFields(fs[1..], if fs[0].value.Some? then j - 1 else j);
      i := k + 1;
    }
  }

  /** Deterministic key order: whichever optional fields are absent, the keys written ascend strictly. */
  lemma {:induction false} RecordAscending(fs: seq<Field>)
    requires Schema(fs)
    ensures Ascending(Present(fs))
  {
    hide KeyLess, Enc, Name;
    if fs != [] {
      SchemaTail(fs);
      RecordAscending(fs[1..]);
      var ps, rest := Present(fs), Present(fs[1..]);
      forall i, j | 0 <= i < j < |ps| ensures LexLess(Enc(ps[i].key), Enc(ps[j].key)) {
        if fs[0].value.None? {
          assert ps == rest;
        } else {
          assert ps[j] == rest[j - 1];
          if i > 0 {
            assert ps[i] == rest[i - 1];
          } else {
            var k := PairsComeFromFields(fs[1..], j - 1);
            FirstIsLeast(fs, k + 1);
            NameIsOk(fs[0].key);
            NameIsOk(fs[k + 1].key);
            EncodedKeyOrder(Name(fs[0].key), Name(fs[k + 1].key));
          }
        }
      }
    }
  }

  lemma SplitPresent(fs: seq<Field>)
    requires fs != []
    ensures fs[0].value.None? ==> Present(fs) == Present(fs[1..])
    ensures fs[0].value.Some? ==>
              && Present(fs) != []
              && Present(fs)[0] == Pair(Text(Name(fs[0].key)), fs[0].value.value)
              && Present(fs)[1..] == Present(fs[1..])
  {
    hide Name;
  }

  /** A scan of the pairs finds exactly what the record stores under each of its names. */
  lemma {:induction false} LookupField(fs: seq<Field>, i: nat)
    requires Schema(fs) && i < |fs|
    ensures Lookup(Present(fs), Name(fs[i].key)) == fs[i].value
  {
    hide KeyLess, Name;
    var rest := fs[1..];
    SplitPresent(fs);
    if i == 0 {
      forall k | 0 <= k < |rest| ensures KeyLess(Name(fs[0].key), Name(rest[k].key)) {
        FirstIsLeast(fs, k + 1);
      }
      LookupMissing(rest, Name(fs[0].key));
    } else {
      SchemaTail(fs);
      FirstIsLeast(fs, i);
      KeyLessIrreflexive(Name(fs[i].key));
      assert rest[i - 1] == fs[i];
      LookupField(rest, i - 1);
    }
  }

  lemma {:induction false} LookupMissing(tail: seq<Field>, name: seq<Octet>)
    requires forall i :: 0 <= i < |tail| ==> KeyLess(name, Name(tail[i].key))
    ensures Lookup(Present(tail), name) == None
  {
    hide KeyLess, Name;
    if tail != [] {
      var rest := tail[1..];
      assert KeyLess(name, Name(tail[0].key));
      KeyLessIrreflexive(name);
      forall i | 0 <= i < |rest| ensures KeyLess(name, Name(rest[i].key)) {
        assert rest[i] == tail[i + 1];
      }
      LookupMissing(rest, name);
      SplitPresent(tail);
    }
  }

  ghost predicate PairsWellFormed(pairs: seq<Pair>, room: nat)
  {
    forall i :: 0 <= i < |pairs| ==> WellFormed(pairs[i].key, room) && WellFormed(pairs[i].val, room)
  }

  lemma PairsWellFormedAppend(a: seq<Pair>, b: seq<Pair>, room: nat)
    ensures PairsWellFormed(a + b, room) <==> PairsWellFormed(a, room) && PairsWellFormed(b, room)
  {
    hide WellFormed;
    var all := a + b;
    assert forall i :: 0 <= i < |a| ==> all[i] == a[i];
    assert forall i :: 0 <= i < |b| ==> all[|a| + i] == b[i];
  }

  /** The pairs of a record are well formed exactly when the values of its present fields are. */
  lemma {:induction false} FieldsWellFormed(fs: seq<Field>, room: nat)
    requires Schema(fs) && room > 0
    ensures PairsWellFormed(Present(fs), room) <==> FieldValuesWellFormed(fs, room)
  {
    hide KeyLess, Name, WellFormed;
    if fs != [] {
      var rest := fs[1..];
      SchemaTail(fs);
      FieldsWellFormed(rest, room);
      NameIsOk(fs[0].key);
      NameWellFormed(Name(fs[0].key), room);
      var first := PairOf(fs[0]);
      PairsWellFormedAppend(first, Present(rest), room);
      FieldValuesTail(fs, room);
      assert PairsWellFormed(first, room) <==> (fs[0].value.Some? ==> WellFormed(fs[0].value.value, room)) by {
        if fs[0].value.Some? { assert first[0].val == fs[0].value.value; }
      }
    }
  }

  lemma FieldValuesTail(fs: seq<Field>, room: nat)
    requires fs != []
    ensures FieldValuesWellFormed(fs, room) <==>
            FieldWellFormed(fs[0], room) && FieldValuesWellFormed(fs[1..], room)
  {
    hide FieldWellFormed;
    var rest := fs[1..];
    assert forall i :: 0 <= i < |rest| ==> rest[i] == fs[i + 1];
    if FieldValuesWellFormed(rest, room) && FieldWellFormed(fs[0], room) {
      forall i | 0 <= i < |fs| ensures FieldWellFormed(fs[i], room) {
        if i > 0 { assert fs[i] == rest[i - 1]; }
      }
    }
  }

  lemma NameWellFormed(name: seq<Octet>, room: nat)
    requires NameOk(name) && room > 0
    ensures WellFormed(Text(name), room)
  {
    AsciiIsUtf8(name);
  }

  ghost predicate FieldWellFormed(f: Field, room: nat)
  {
    f.value.Some? ==> WellFormed(f.value.value, room)
  }

  ghost predicate FieldValuesWellFormed(fs: seq<Field>, room: nat)
  {
    forall i :: 0 <= i < |fs| ==> FieldWellFormed(fs[i], room)
  }

  lemma RecordWellFormed(fs: seq<Field>, room: nat)
    requires Schema(fs) && room > 1
    ensures WellFormed(Record(fs), room) <==> FieldValuesWellFormed(fs, room - 1)
  {
    hide KeyLess, Name;
    PresentCount(fs);
    FieldsWellFormed(fs, room - 1);
  }

  ghost predicate FieldPlain(f: Field)
  {
    f.value.Some? ==> Plain(f.value.value, true)
  }

  /** A record of plain field values is plain. */
  lemma RecordPlain(fs: seq<Field>)
    requires Schema(fs) && forall i :: 0 <= i < |fs| ==> FieldPlain(fs[i])
    ensures Plain(Record(fs), true)
  {
    hide KeyLess, Name;
    PresentCount(fs);
    PresentPlain(fs);
  }

  lemma {:induction false} PresentPlain(fs: seq<Field>)
    requires Schema(fs) && forall i :: 0 <= i < |fs| ==> FieldPlain(fs[i])
    ensures forall j :: 0 <= j < |Present(fs)| ==> PlainPair(Present(fs)[j], true)
  {
    hide KeyLess, Name, Plain;
    if fs != [] {
      var rest := fs[1..];
      SchemaTail(fs);
      assert forall i :: 0 <= i < |rest| ==> rest[i] == fs[i + 1];
      PresentPlain(rest);
      SplitPresent(fs);
      if fs[0].value.Some? {
        assert FieldPlain(fs[0]);
        NameIsOk(fs[0].key);
        NamePlain(Name(fs[0].key));
        forall j | 0 <= j < |Present(fs)| ensures PlainPair(Present(fs)[j], true) {
          if j > 0 { assert Present(fs)[j] == Present(rest)[j - 1]; }
        }
      }
    }
  }

  lemma NamePlain(name: seq<Octet>)
    requires NameOk(name)
    ensures Plain(Text(name), true)
  {
  }
}
