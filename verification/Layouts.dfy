/** What the encoders write, pair by pair: each record as the map it stands for on the wire. */
module Layouts {
  import opened Octets
  import opened Cbor
  import opened Fields
  import opened Readers
  import opened PlayerRecords
  import opened ImportRecords
  import opened NodeReports
  import opened SettingsRecords
  import opened Commands
  import opened WireTexts

  // ----- the pairs of a field -----

  function Required(k: Key, v: Value): seq<Pair>
  {
    [Pair(Text(KeyOctets(k)), v)]
  }

  function TextWhenSet(k: Key, s: Option<CString>): seq<Pair>
  {
    if s.Some? then Required(k, Text(s.value)) else []
  }

  function NumberWhenSet(k: Key, u: Option<U64>): seq<Pair>
  {
    if u.Some? then Required(k, UInt(u.value)) else []
  }

  function FlagWhenSet(k: Key, b: Option<bool>): seq<Pair>
  {
    if b.Some? then Required(k, Bool(b.value)) else []
  }

  function NameOf(t: EnumType, e: nat): Value
    requires e < |NameOctets(t)|
  {
    Text(NameOctets(t)[e])
  }

  function NameWhenSet(k: Key, t: EnumType, e: Option<nat>): seq<Pair>
    requires e.Some? ==> e.value < |NameOctets(t)|
  {
    if e.Some? then Required(k, NameOf(t, e.value)) else []
  }

  /** The pairs of some fields one after the other. */
  function Laid(parts: seq<seq<Pair>>): seq<Pair>
  {
    if parts == [] then [] else parts[0] + Laid(parts[1..])
  }

  // ----- records -----

  function QueueItemPairs(q: QueueItem): seq<seq<Pair>>
  {
    [ TextWhenSet(Title, q.title),
      TextWhenSet(Artist, q.artist),
      NameWhenSet(LibraryKey, Libraries, q.library),
      Required(TrackId, Text(q.trackId)),
      NumberWhenSet(DurationMs, q.durationMs),
      Required(QueueItemId, UInt(q.queueItemId)) ]
  }

  function QueueItemMap(q: QueueItem): Value
  {
    Map(Laid(QueueItemPairs(q)))
  }

  function PlayerStatePairs(ps: PlayerState): seq<seq<Pair>>
  {
    [ TextWhenSet(Error, ps.error),
      Required(Queue, Array(WriteAll(ps.queue, QueueItemMap))),
      Required(Status, NameOf(PlayerStatuses, ps.status)),
      Required(Volume, UInt(ps.volume)),
      Required(Shuffle, Bool(ps.shuffle)),
      Required(CanUndo, Bool(ps.canUndo)),
      Required(Revision, UInt(ps.revision)),
      Required(PlayerId, Text(ps.playerId)),
      TextWhenSet(PlaybackId, ps.playbackId),
      NumberWhenSet(PositionMs, ps.positionMs),
      Required(RepeatModeKey, NameOf(RepeatModes, ps.repeatMode)),
      NumberWhenSet(CurrentIndex, ps.currentIndex) ]
  }

  function PlayerStateMap(ps: PlayerState): Value
  {
    Map(Laid(PlayerStatePairs(ps)))
  }

  function ChunkPairs(c: TransferChunk): seq<seq<Pair>>
  {
    [ Required(Size, UInt(c.size)),
      Required(Index, UInt(c.index)),
      Required(Offset, UInt(c.offset)),
      Required(Sha256, Text(c.sha256)) ]
  }

  function ChunkMap(c: TransferChunk): Value
  {
    Map(Laid(ChunkPairs(c)))
  }

  function FilePairs(f: TransferFile): seq<seq<Pair>>
  {
    [ Required(Chunks, Array(WriteAll(f.chunks, ChunkMap))),
      Required(Sha256, Text(f.sha256)),
      Required(SizeBytes, UInt(f.sizeBytes)),
      Required(ContentType, Text(f.contentType)),
      Required(RootRelativePath, Text(f.rootRelativePath)) ]
  }

  function FileMap(f: TransferFile): Value
  {
    Map(Laid(FilePairs(f)))
  }

  function ImportPairs(r: BeginImportRequest): seq<seq<Pair>>
  {
    [ Required(Files, Array(WriteAll(r.files, FileMap))),
      NameWhenSet(LibraryKey, Libraries, r.library),
      Required(TrackFileIndex, UInt(r.trackFileIndex)) ]
  }

  function ImportMap(r: BeginImportRequest): Value
  {
    Map(Laid(ImportPairs(r)))
  }

  function ReportPairs(r: NodeReport): seq<seq<Pair>>
  {
    [ TextWhenSet(Error, r.error),
      NameWhenSet(Event, NodeEvents, r.event),
      Required(Status, NameOf(PlayerStatuses, r.status)),
      Required(PlayerId, Text(r.playerId)),
      TextWhenSet(PlaybackId, r.playbackId),
      NumberWhenSet(PositionMs, r.positionMs),
      FlagWhenSet(AudioBlocked, r.audioBlocked),
      NumberWhenSet(QueueItemId, r.queueItemId) ]
  }

  function ReportMap(r: NodeReport): Value
  {
    Map(Laid(ReportPairs(r)))
  }

  function SettingsMap(s: Settings): Value
  {
    Map(Required(Entries, Map(seq(|s.entries|, i requires 0 <= i < |s.entries| =>
                                               Pair(Text(s.entries[i].key), Text(s.entries[i].text))))))
  }

  function VariantMap(i: nat, args: seq<seq<Pair>>): Value
    requires i < 20
  {
    Array([UInt(i), Map(Laid([Required(Op, Text(OpOctets(i)))] + args))])
  }

  function TrackIdsPair(ids: seq<CString>): seq<Pair>
  {
    Required(TrackIds, Array(seq(|ids|, i requires 0 <= i < |ids| => Text(ids[i]))))
  }

  /** The pairs of a variant after its name. */
  function CommandPairs(c: PlayerCommand): seq<seq<Pair>>
  {
    match c
    case Enqueue(ids, at) => [NumberWhenSet(AtIndex, at), TrackIdsPair(ids)]
    case EnqueueNext(ids) => [TrackIdsPair(ids)]
    case Remove(i) => [Required(Index, UInt(i))]
    case RemoveItem(id) => [Required(QueueItemId, UInt(id))]
    case Reorder(from, to) => [Required(ToIndex, UInt(to)), Required(FromIndex, UInt(from))]
    case MoveItem(id, before) =>
      [Required(QueueItemId, UInt(id)), NumberWhenSet(BeforeQueueItemId, before)]
    case Clear => []
    case Play(i, id) => [NumberWhenSet(Index, i), NumberWhenSet(QueueItemId, id)]
    case ReplaceAndPlay(ids, start, ms) =>
      [TrackIdsPair(ids), NumberWhenSet(PositionMs, ms), NumberWhenSet(StartIndex, start)]
    case Pause => []
    case Next => []
    case Previous => []
    case Seek(ms) => [Required(PositionMs, UInt(ms))]
    case SetVolume(volume) => [Required(Volume, UInt(volume))]
    case SetRepeat(mode) => [Required(RepeatModeKey, NameOf(RepeatModes, mode))]
    case SetShuffle(on) => [Required(Shuffle, Bool(on))]
    case Undo => []
    case PlaybackCompleted(playback, id) =>
      [Required(PlaybackId, Text(playback)), Required(QueueItemId, UInt(id))]
    case PlaybackFailed(playback, id, error) =>
      [ Required(Error, Text(error)),
        Required(PlaybackId, Text(playback)),
        Required(QueueItemId, UInt(id)) ]
    case PlaybackState(playback, id, status, ms) =>
      [ Required(Status, NameOf(PlayerStatuses, status)),
        Required(PlaybackId, Text(playback)),
        Required(PositionMs, UInt(ms)),
        Required(QueueItemId, UInt(id)) ]
  }

  function CommandMap(c: PlayerCommand): Value
  {
    VariantMap(VariantIndex(c), CommandPairs(c))
  }

  // ----- the encoders write these maps -----

  lemma {:induction false} PresentLaid(fs: seq<Field>, parts: seq<seq<Pair>>)
    requires |fs| == |parts| && forall i :: 0 <= i < |fs| ==> PairOf(fs[i]) == parts[i]
    ensures Present(fs) == Laid(parts)
  {
    hide PairOf;
    if fs != [] {
      assert forall i :: 0 <= i < |fs[1..]| ==> fs[1..][i] == fs[i + 1] && parts[1..][i] == parts[i + 1];
      PresentLaid(fs[1..], parts[1..]);
    }
  }

  lemma FieldPairs(f: Field)
    ensures PairOf(f) == if f.value.Some? then Required(f.key, f.value.value) else []
  {
    hide Name, KeyOctets;
    KeySpelt(f.key);
  }

  lemma NameWritten(t: EnumType, e: nat)
    requires e < Constants(t)
    ensures e < |NameOctets(t)| && EnumValue(t, e) == NameOf(t, e)
  {
    hide Texts, NameOctets, Ascii;
    EnumSpelt(t, e);
  }

  lemma SameWritten<T(!new)>(ts: seq<T>, f: T -> Value, g: T -> Value)
    requires forall t :: f(t) == g(t)
    ensures WriteAll(ts, f) == WriteAll(ts, g)
  {
  }

  /** Every field of a record that has a value is written under its octets, and the others are not. */
  lemma AllPairs(fs: seq<Field>)
    ensures forall i :: 0 <= i < |fs| ==>
              PairOf(fs[i]) == if fs[i].value.Some? then Required(fs[i].key, fs[i].value.value) else []
  {
    hide PairOf, Required;
    forall i | 0 <= i < |fs|
      ensures PairOf(fs[i]) == if fs[i].value.Some? then Required(fs[i].key, fs[i].value.value) else []
    {
      FieldPairs(fs[i]);
    }
  }

  lemma QueueItemLayout(q: QueueItem)
    ensures QueueItemValue(q) == QueueItemMap(q)
  {
    hide PairOf, Required, EnumValue, NameOf, Present, Laid;
    AllPairs(QueueItemFields(q));
    if q.library.Some? { NameWritten(Libraries, q.library.value); }
    PresentLaid(QueueItemFields(q), QueueItemPairs(q));
  }

  /** A state is written as a map of twelve keys at most, its queue as an array of such maps. */
  lemma PlayerStateLayout(ps: PlayerState)
    ensures PlayerStateValue(ps) == PlayerStateMap(ps)
  {
    hide PairOf, Required, EnumValue, NameOf, Present, Laid, QueueItemValue, QueueItemMap, WriteAll;
    AllPairs(PlayerStateFields(ps));
    NameWritten(PlayerStatuses, ps.status);
    NameWritten(RepeatModes, ps.repeatMode);
    forall q ensures QueueItemValue(q) == QueueItemMap(q) { QueueItemLayout(q); }
    SameWritten(ps.queue, QueueItemValue, QueueItemMap);
    PresentLaid(PlayerStateFields(ps), PlayerStatePairs(ps));
  }

  lemma ChunkLayout(c: TransferChunk)
    ensures ChunkValue(c) == ChunkMap(c)
  {
    hide PairOf, Required, Present, Laid;
    AllPairs(ChunkFields(c));
    PresentLaid(ChunkFields(c), ChunkPairs(c));
  }

  lemma FileLayout(f: TransferFile)
    ensures FileValue(f) == FileMap(f)
  {
    hide PairOf, Required, Present, Laid, ChunkValue, ChunkMap, WriteAll;
    AllPairs(FileFields(f));
    forall c ensures ChunkValue(c) == ChunkMap(c) { ChunkLayout(c); }
    SameWritten(f.chunks, ChunkValue, ChunkMap);
    PresentLaid(FileFields(f), FilePairs(f));
  }

  lemma ImportLayout(r: BeginImportRequest)
    ensures ImportValue(r) == ImportMap(r)
  {
    hide PairOf, Required, EnumValue, NameOf, Present, Laid, FileValue, FileMap, WriteAll;
    AllPairs(ImportFields(r));
    if r.library.Some? { NameWritten(Libraries, r.library.value); }
    forall f ensures FileValue(f) == FileMap(f) { FileLayout(f); }
    SameWritten(r.files, FileValue, FileMap);
    PresentLaid(ImportFields(r), ImportPairs(r));
  }

  lemma ReportLayout(r: NodeReport)
    ensures ReportValue(r) == ReportMap(r)
  {
    hide PairOf, Required, EnumValue, NameOf, Present, Laid;
    AllPairs(ReportFields(r));
    NameWritten(PlayerStatuses, r.status);
    if r.event.Some? { NameWritten(NodeEvents, r.event.value); }
    PresentLaid(ReportFields(r), ReportPairs(r));
  }

  lemma SettingsLayout(s: Settings)
    ensures SettingsValue(s) == SettingsMap(s)
  {
    hide Name, KeyOctets;
    var fs := SettingsFields(s);
    KeySpelt(Entries);
    assert EntryPairs(s.entries) == seq(|s.entries|, i requires 0 <= i < |s.entries| =>
                                                     Pair(Text(s.entries[i].key), Text(s.entries[i].text)));
    assert Present(fs) == PairOf(fs[0]) + Present([]);
  }

  lemma TrackIdsWritten(ids: seq<CString>)
    ensures PairOf(TrackIdsField(ids)) == TrackIdsPair(ids)
  {
    hide PairOf, Required;
    FieldPairs(TrackIdsField(ids));
    assert WriteAll(ids, TextValue) == seq(|ids|, i requires 0 <= i < |ids| => Text(ids[i]));
  }

  lemma VariantLayout(c: PlayerCommand, args: seq<seq<Pair>>)
    requires |args| == |Arguments(c)| && forall i :: 0 <= i < |args| ==> PairOf(Arguments(c)[i]) == args[i]
    ensures CommandValue(c) == VariantMap(VariantIndex(c), args)
  {
    hide PairOf, Required, OpText, OpOctets, Arguments, Present, Laid, VariantIndex;
    var i, fs := VariantIndex(c), CommandFields(c);
    var parts := [Required(Op, Text(OpOctets(i)))] + args;
    OpSpelt(i);
    FieldPairs(OpField(i));
    forall k | 0 <= k < |fs| ensures PairOf(fs[k]) == parts[k] {
      if k > 0 { assert fs[k] == Arguments(c)[k - 1] && parts[k] == args[k - 1]; }
    }
    PresentLaid(fs, parts);
  }

  /** Each of the twenty variants is written as its index and a map with its name and its arguments. */
  lemma CommandLayout(c: PlayerCommand)
    ensures CommandValue(c) == CommandMap(c)
  {
    hide PairOf, Required, EnumValue, NameOf, TrackIdsField, TrackIdsPair, VariantMap, CommandValue, NameWhenSet;
    AllPairs(Arguments(c));
    if c.Enqueue? || c.EnqueueNext? || c.ReplaceAndPlay? { TrackIdsWritten(c.trackIds); }
    if c.SetRepeat? { NameWritten(RepeatModes, c.repeatMode); }
    if c.PlaybackState? { NameWritten(PlayerStatuses, c.status); }
    VariantLayout(c, CommandPairs(c));
  }

  // ----- one command, octet by octet -----

  lemma NextPairs()
    ensures Laid([Required(Op, Text(OpOctets(10)))] + []) == [Pair(Text([0x6F, 0x70]), Text([0x6E, 0x65, 0x78, 0x74]))]
  {
    var parts := [Required(Op, Text(OpOctets(10)))];
    assert parts + [] == parts && parts[1..] == [];
    assert Laid([]) == [];
  }

  lemma ShortTextOctets(t: seq<Octet>)
    requires |t| < 24
    ensures Enc(Text(t)) == [0x60 + |t|] + t
  {
    assert BigEndian(|t|, 0) == [];
  }

  lemma SmallNumberOctets(n: nat)
    requires n < 24
    ensures Enc(UInt(n)) == [n]
  {
    assert BigEndian(n, 0) == [];
  }

  lemma OnePairEncoded(key: Value, val: Value)
    ensures EncPairs([Pair(key, val)]) == Enc(key) + Enc(val)
  {
    hide Enc;
    var pairs := [Pair(key, val)];
    assert pairs[1..] == [];
    assert EncPairs([]) == [];
  }

  lemma OnePairOctets(key: Value, val: Value)
    ensures Enc(Map([Pair(key, val)])) == [0xA1] + Enc(key) + Enc(val)
  {
    hide EncPairs;
    OnePairEncoded(key, val);
    assert ShortHead(5, 1) == [0xA1] by { assert BigEndian(1, 0) == []; }
    Associates([0xA1], Enc(key), Enc(val));
  }

  lemma TwoItemsEncoded(x: Value, y: Value)
    ensures EncItems([x, y]) == Enc(x) + Enc(y)
  {
    hide Enc;
    var items := [x, y];
    assert items[1..] == [y] && [y][1..] == [];
    assert EncItems([]) == [];
  }

  lemma TwoItemsOctets(x: Value, y: Value)
    ensures Enc(Array([x, y])) == [0x82] + Enc(x) + Enc(y)
  {
    hide EncItems;
    TwoItemsEncoded(x, y);
    assert ShortHead(4, 2) == [0x82] by { assert BigEndian(2, 0) == []; }
    Associates([0x82], Enc(x), Enc(y));
  }

  lemma NextTree()
    ensures CommandValue(Next) ==
            Array([UInt(10), Map([Pair(Text([0x6F, 0x70]), Text([0x6E, 0x65, 0x78, 0x74]))])])
  {
    CommandLayout(Next);
    NextPairs();
    hide CommandValue, OpOctets, Laid;
  }

  lemma OpNextOctets()
    ensures Enc(Map([Pair(Text([0x6F, 0x70]), Text([0x6E, 0x65, 0x78, 0x74]))])) ==
            [0xA1, 0x62, 0x6F, 0x70, 0x64, 0x6E, 0x65, 0x78, 0x74]
  {
    hide Enc;
    var op, next: seq<Octet> := [0x6F, 0x70], [0x6E, 0x65, 0x78, 0x74];
    OnePairOctets(Text(op), Text(next));
    ShortTextOctets(op);
    ShortTextOctets(next);
  }

  /** The command Next in full: an array of 10 and a map of "op" to "next". */
  lemma NextOctets()
    ensures Enc(CommandValue(Next)) == [0x82, 0x0A, 0xA1, 0x62, 0x6F, 0x70, 0x64, 0x6E, 0x65, 0x78, 0x74]
  {
    hide Enc, CommandValue;
    NextTree();
    SmallNumberOctets(10);
    OpNextOctets();
    TwoItemsOctets(UInt(10), Map([Pair(Text([0x6F, 0x70]), Text([0x6E, 0x65, 0x78, 0x74]))]));
  }
}
