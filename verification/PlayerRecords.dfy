/** The PlayerState record with its queue. */
module PlayerRecords {
  import opened Octets
  import opened Utf8
  import opened Cbor
  import opened Codec
  import opened KeyOrder
  import opened Fields
  import opened Readers
  import opened Alike

  datatype QueueItem = QueueItem(
    queueItemId: U64,
    trackId: CString,
    library: Option<Library>,
    title: Option<CString>,
    artist: Option<CString>,
    durationMs: Option<U64>)

  function QueueItemFields(q: QueueItem): seq<Field>
  {
    [ OptTextField(Title, q.title),
      OptTextField(Artist, q.artist),
      OptEnumField(LibraryKey, Libraries, q.library),
      TextField(TrackId, q.trackId),
      OptUIntField(DurationMs, q.durationMs),
      UIntField(QueueItemId, q.queueItemId) ]
  }

  function QueueItemValue(q: QueueItem): Value
  {
    Record(QueueItemFields(q))
  }

  function DecQueueItem(m: Value): Option<QueueItem>
  {
    if !m.Map? then None
    else
      var title := GetText(Find(m, Title));
      var artist := GetText(Find(m, Artist));
      var library :- Optional(Find(m, LibraryKey), ReadLibrary);
      var trackId :- GetText(Find(m, TrackId));
      var durationMs :- Optional(Find(m, DurationMs), AsU64);
      var queueItemId :- AsU64(Find(m, QueueItemId));
      Some(QueueItem(queueItemId, trackId, library, title, artist, durationMs))
  }

  lemma QueueItemSchema(q: QueueItem)
    ensures Schema(QueueItemFields(q))
  {
    hide Before, EnumValue;
    Shorter(Title, Artist);
    Shorter(Artist, LibraryKey);
    Shorter(LibraryKey, TrackId);
    Shorter(TrackId, DurationMs);
    Shorter(DurationMs, QueueItemId);
  }

  lemma QueueItemLookups(q: QueueItem)
    ensures var m := QueueItemValue(q);
            && Find(m, Title) == OptTextField(Title, q.title).value
            && Find(m, Artist) == OptTextField(Artist, q.artist).value
            && Find(m, LibraryKey) == OptEnumField(LibraryKey, Libraries, q.library).value
            && Find(m, TrackId) == Some(Text(q.trackId))
            && Find(m, DurationMs) == OptUIntField(DurationMs, q.durationMs).value
            && Find(m, QueueItemId) == Some(UInt(q.queueItemId))
  {
    var fs := QueueItemFields(q);
    QueueItemSchema(q);
    hide Schema, Find, Present, EnumValue;
    FindField(fs, 0);
    FindField(fs, 1);
    FindField(fs, 2);
    FindField(fs, 3);
    FindField(fs, 4);
    FindField(fs, 5);
  }

  lemma QueueItemRoundTrip(q: QueueItem)
    ensures DecQueueItem(QueueItemValue(q)) == Some(q)
  {
    QueueItemLookups(q);
    FieldsReadBack();
    EnumsReadBack();
    assert QueueItemValue(q).Map?;
    hide Find, QueueItemValue, GetText, Optional, OptTextField, OptUIntField, OptEnumField;
  }

  /** The strings of the item are UTF-8. */
  ghost predicate Utf8Item(q: QueueItem)
  {
    OptUtf8(q.title) && OptUtf8(q.artist) && IsUtf8(q.trackId)
  }

  lemma QueueItemEncodable(q: QueueItem, room: nat)
    requires room > 1
    ensures Plain(QueueItemValue(q), true)
    ensures WellFormed(QueueItemValue(q), room) <==> Utf8Item(q)
  {
    var fs := QueueItemFields(q);
    QueueItemSchema(q);
    FieldKinds(room - 1);
    FieldKindsPlain();
    OptEnumKind(LibraryKey, Libraries, q.library, room - 1);
    hide Schema, IsUtf8, FieldWellFormed, FieldPlain, TextField, OptTextField, UIntField, OptUIntField, OptEnumField;
    RecordPlain(fs);
    RecordWellFormed(fs, room);
    hide Plain, WellFormed, Record;
    assert FieldValuesWellFormed(fs, room - 1) <==>
           FieldWellFormed(fs[0], room - 1) && FieldWellFormed(fs[1], room - 1) && FieldWellFormed(fs[3], room - 1);
  }

  datatype PlayerState = PlayerState(
    playerId: CString,
    revision: U64,
    status: PlayerStatus,
    currentIndex: Option<U64>,
    playbackId: Option<CString>,
    positionMs: Option<U64>,
    volume: U64,
    repeatMode: RepeatMode,
    shuffle: bool,
    error: Option<CString>,
    canUndo: bool,
    queue: seq<QueueItem>)

  function PlayerStateFields(ps: PlayerState): seq<Field>
  {
    [ OptTextField(Error, ps.error),
      ListField(Queue, WriteAll(ps.queue, QueueItemValue)),
      EnumField(Status, PlayerStatuses, ps.status),
      UIntField(Volume, ps.volume),
      BoolField(Shuffle, ps.shuffle),
      BoolField(CanUndo, ps.canUndo),
      UIntField(Revision, ps.revision),
      TextField(PlayerId, ps.playerId),
      OptTextField(PlaybackId, ps.playbackId),
      OptUIntField(PositionMs, ps.positionMs),
      EnumField(RepeatModeKey, RepeatModes, ps.repeatMode),
      OptUIntField(CurrentIndex, ps.currentIndex) ]
  }

  function PlayerStateValue(ps: PlayerState): Value
  {
    Record(PlayerStateFields(ps))
  }

  function DecPlayerState(m: Value): Option<PlayerState>
  {
    if !m.Map? then None
    else
      var error := GetText(Find(m, Error));
      var queue :- ListOf(Find(m, Queue), DecQueueItem);
      var status :- ReadPlayerStatus(Find(m, Status));
      var volume :- AsU64(Find(m, Volume));
      var shuffle :- AsBool(Find(m, Shuffle));
      var canUndo :- AsBool(Find(m, CanUndo));
      var revision :- AsU64(Find(m, Revision));
      var playerId :- GetText(Find(m, PlayerId));
      var playbackId := GetText(Find(m, PlaybackId));
      var positionMs :- Optional(Find(m, PositionMs), AsU64);
      var repeatMode :- ReadRepeatMode(Find(m, RepeatModeKey));
      var currentIndex :- Optional(Find(m, CurrentIndex), AsU64);
      Some(PlayerState(playerId, revision, status, currentIndex, playbackId, positionMs, volume, repeatMode,
                       shuffle, error, canUndo, queue))
  }

  lemma CloseKeysOrder()
    ensures Before(Error, Queue) && Before(Status, Volume) && Before(CanUndo, Revision)
  {
    hide Before;
    Diverges(Error, Queue, 0);
    Diverges(Status, Volume, 0);
    Diverges(CanUndo, Revision, 0);
  }

  lemma ShortKeysOrder()
    ensures Before(Error, Queue) && Before(Queue, Status) && Before(Status, Volume) && Before(Volume, Shuffle)
    ensures Before(Shuffle, CanUndo) && Before(CanUndo, Revision)
  {
    hide Before;
    CloseKeysOrder();
    Shorter(Queue, Status);
    Shorter(Volume, Shuffle);
    Shorter(Shuffle, CanUndo);
  }

  lemma LongKeysOrder()
    ensures Before(Revision, PlayerId) && Before(PlayerId, PlaybackId) && Before(PlaybackId, PositionMs)
    ensures Before(PositionMs, RepeatModeKey) && Before(RepeatModeKey, CurrentIndex)
  {
    hide Before;
    Shorter(Revision, PlayerId);
    Shorter(PlayerId, PlaybackId);
    PlaybackKeysOrder();
    Shorter(RepeatModeKey, CurrentIndex);
  }

  lemma PlaybackKeysOrder()
    ensures Before(PlaybackId, PositionMs) && Before(PositionMs, RepeatModeKey)
  {
    hide Before;
    PlaybackBeforePosition();
    Diverges(PositionMs, RepeatModeKey, 0);
  }

  lemma PlayerStateSchema(ps: PlayerState)
    ensures Schema(PlayerStateFields(ps))
  {
    ShortKeysOrder();
    LongKeysOrder();
    hide Before;
  }

  lemma PlayerStateLookups(ps: PlayerState)
    ensures var m := PlayerStateValue(ps);
            && Find(m, Error) == OptTextField(Error, ps.error).value
            && Find(m, Queue) == Some(Array(WriteAll(ps.queue, QueueItemValue)))
            && Find(m, Status) == Some(EnumValue(PlayerStatuses, ps.status))
            && Find(m, Volume) == Some(UInt(ps.volume))
            && Find(m, Shuffle) == Some(Bool(ps.shuffle))
            && Find(m, CanUndo) == Some(Bool(ps.canUndo))
            && Find(m, Revision) == Some(UInt(ps.revision))
            && Find(m, PlayerId) == Some(Text(ps.playerId))
            && Find(m, PlaybackId) == OptTextField(PlaybackId, ps.playbackId).value
            && Find(m, PositionMs) == OptUIntField(PositionMs, ps.positionMs).value
            && Find(m, RepeatModeKey) == Some(EnumValue(RepeatModes, ps.repeatMode))
            && Find(m, CurrentIndex) == OptUIntField(CurrentIndex, ps.currentIndex).value
  {
    var fs := PlayerStateFields(ps);
    PlayerStateSchema(ps);
    hide Schema, Find, Present, EnumValue, QueueItemValue;
    FindField(fs, 0);
    FindField(fs, 1);
    FindField(fs, 2);
    FindField(fs, 3);
    FindField(fs, 4);
    FindField(fs, 5);
    FindField(fs, 6);
    FindField(fs, 7);
    FindField(fs, 8);
    FindField(fs, 9);
    FindField(fs, 10);
    FindField(fs, 11);
  }

  lemma QueueRoundTrip(queue: seq<QueueItem>)
    ensures ListOf(Some(Array(WriteAll(queue, QueueItemValue))), DecQueueItem) == Some(queue)
  {
    forall q ensures DecQueueItem(QueueItemValue(q)) == Some(q) {
      QueueItemRoundTrip(q);
    }
    hide QueueItemValue, DecQueueItem;
    ReadWritten(queue, QueueItemValue, DecQueueItem);
  }

  lemma PlayerStateIsMap(ps: PlayerState)
    ensures PlayerStateValue(ps).Map?
  {
  }

  /** Every field of the record is found again under its name. */
  lemma PlayerStateRoundTrip(ps: PlayerState)
    ensures DecPlayerState(PlayerStateValue(ps)) == Some(ps)
  {
    hide Find, EnumValue, PlayerStateValue, QueueItemValue, DecQueueItem, ListOf, WriteAll, GetText, Optional,
         ReadPlayerStatus, ReadRepeatMode, OptTextField, OptUIntField;
    PlayerStateIsMap(ps);
    PlayerStateLookups(ps);
    EnumsReadBack();
    FieldsReadBack();
    QueueRoundTrip(ps.queue);
  }

  /** The strings of the state and of its queue are UTF-8, and the queue can be held decoded. */
  ghost predicate Utf8State(ps: PlayerState)
  {
    && OptUtf8(ps.error) && IsUtf8(ps.playerId) && OptUtf8(ps.playbackId)
    && |ps.queue| <= SIZE_MAX / VALUE_SIZE
    && forall i :: 0 <= i < |ps.queue| ==> Utf8Item(ps.queue[i])
  }

  lemma QueueEncodable(queue: seq<QueueItem>, room: nat)
    requires room > 2 && |queue| <= SIZE_MAX
    ensures Plain(Array(WriteAll(queue, QueueItemValue)), true)
    ensures WellFormed(Array(WriteAll(queue, QueueItemValue)), room) <==>
            |queue| <= SIZE_MAX / VALUE_SIZE && forall i :: 0 <= i < |queue| ==> Utf8Item(queue[i])
  {
    hide QueueItemValue, Utf8Item;
    var vs := WriteAll(queue, QueueItemValue);
    forall i | 0 <= i < |queue|
      ensures Plain(vs[i], true) && (WellFormed(vs[i], room - 1) <==> Utf8Item(queue[i]))
    {
      QueueItemEncodable(queue[i], room - 1);
    }
  }

  lemma QueueFieldKind(queue: seq<QueueItem>)
    requires |queue| <= SIZE_MAX
    ensures var f := ListField(Queue, WriteAll(queue, QueueItemValue));
            && FieldPlain(f)
            && (FieldWellFormed(f, MAX_DEPTH) <==>
                |queue| <= SIZE_MAX / VALUE_SIZE && forall i :: 0 <= i < |queue| ==> Utf8Item(queue[i]))
  {
    hide Plain, WellFormed, QueueItemValue, Utf8Item;
    QueueEncodable(queue, MAX_DEPTH);
  }

  lemma PlayerStatePlain(ps: PlayerState)
    requires |ps.queue| <= SIZE_MAX
    ensures Plain(PlayerStateValue(ps), true)
  {
    hide Schema, FieldPlain, Plain, Record,
         TextField, OptTextField, UIntField, OptUIntField, BoolField, EnumField, ListField;
    var fs := PlayerStateFields(ps);
    PlayerStateSchema(ps);
    FieldKindsPlain();
    QueueFieldKind(ps.queue);
    RecordPlain(fs);
  }

  lemma PlayerStateWellFormed(ps: PlayerState)
    requires |ps.queue| <= SIZE_MAX
    ensures WellFormed(PlayerStateValue(ps), ROOT_ROOM) <==> Utf8State(ps)
  {
    hide Schema, IsUtf8, FieldWellFormed, Utf8Item, Plain, WellFormed, Record, WriteAll,
         TextField, OptTextField, UIntField, OptUIntField, BoolField, EnumField, ListField;
    var fs := PlayerStateFields(ps);
    PlayerStateSchema(ps);
    RecordWellFormed(fs, ROOT_ROOM);
    FieldKinds(MAX_DEPTH);
    QueueFieldKind(ps.queue);
    assert FieldValuesWellFormed(fs, MAX_DEPTH) <==>
           FieldWellFormed(fs[0], MAX_DEPTH) && FieldWellFormed(fs[1], MAX_DEPTH)
           && FieldWellFormed(fs[7], MAX_DEPTH) && FieldWellFormed(fs[8], MAX_DEPTH);
  }

  // ----- main results -----

  ghost function DecodePlayerState(b: seq<Octet>): Option<PlayerState>
  {
    var m :- Decode(b);
    DecPlayerState(m)
  }

  /** Record round trip over the wire: the state comes back when its strings are UTF-8, and is refused otherwise. */
  lemma PlayerStateWire(ps: PlayerState)
    requires |ps.queue| <= SIZE_MAX
    ensures DecodePlayerState(Enc(PlayerStateValue(ps))) == if Utf8State(ps) then Some(ps) else None
  {
    PlayerStatePlain(ps);
    PlayerStateWellFormed(ps);
    PlayerStateRoundTrip(ps);
    hide Plain, WellFormed, PlayerStateValue, DecPlayerState, Utf8State, Decode, Enc;
    WireRoundTrip(PlayerStateValue(ps));
  }

  /** The keys of the state and of every queued item ascend, whichever optional fields are present. */
  lemma PlayerStateAscending(ps: PlayerState)
    ensures Ascending(PlayerStateValue(ps).pairs)
    ensures forall i :: 0 <= i < |ps.queue| ==> Ascending(QueueItemValue(ps.queue[i]).pairs)
  {
    PlayerStateSchema(ps);
    RecordAscending(PlayerStateFields(ps));
    forall i | 0 <= i < |ps.queue| ensures Ascending(QueueItemValue(ps.queue[i]).pairs) {
      QueueItemSchema(ps.queue[i]);
      RecordAscending(QueueItemFields(ps.queue[i]));
    }
  }

  /** The keys a queue item is read from; its values are taken whole. */
  const QUEUE_ITEM_PARTS: seq<Part> :=
    [ Part(Title, Exactly), Part(Artist, Exactly), Part(LibraryKey, Exactly),
      Part(TrackId, Exactly), Part(DurationMs, Exactly), Part(QueueItemId, Exactly) ]

  const PLAYER_STATE_PARTS: seq<Part> :=
    [ Part(Error, Exactly), Part(Queue, Each(Keyed(QUEUE_ITEM_PARTS))), Part(Status, Exactly),
      Part(Volume, Exactly), Part(Shuffle, Exactly), Part(CanUndo, Exactly),
      Part(Revision, Exactly), Part(PlayerId, Exactly), Part(PlaybackId, Exactly),
      Part(PositionMs, Exactly), Part(RepeatModeKey, Exactly), Part(CurrentIndex, Exactly) ]

  lemma QueueItemUnordered(m: Value, n: Value)
    requires AreAlike(m, n, Keyed(QUEUE_ITEM_PARTS))
    ensures DecQueueItem(m) == DecQueueItem(n)
  {
    hide Find, AreAlike, ReadEnum, GetText;
    AlikeMaps(m, n, QUEUE_ITEM_PARTS);
    SameFind(m, n, QUEUE_ITEM_PARTS, 0);
    SameFind(m, n, QUEUE_ITEM_PARTS, 1);
    SameFind(m, n, QUEUE_ITEM_PARTS, 2);
    SameFind(m, n, QUEUE_ITEM_PARTS, 3);
    SameFind(m, n, QUEUE_ITEM_PARTS, 4);
    SameFind(m, n, QUEUE_ITEM_PARTS, 5);
  }

  lemma PlayerStateFinds(m: Value, n: Value)
    requires AreAlike(m, n, Keyed(PLAYER_STATE_PARTS))
    ensures Find(m, Error) == Find(n, Error) && Find(m, Status) == Find(n, Status)
    ensures Find(m, Volume) == Find(n, Volume) && Find(m, Shuffle) == Find(n, Shuffle)
    ensures Find(m, CanUndo) == Find(n, CanUndo) && Find(m, Revision) == Find(n, Revision)
    ensures Find(m, PlayerId) == Find(n, PlayerId) && Find(m, PlaybackId) == Find(n, PlaybackId)
    ensures Find(m, PositionMs) == Find(n, PositionMs) && Find(m, RepeatModeKey) == Find(n, RepeatModeKey)
    ensures Find(m, CurrentIndex) == Find(n, CurrentIndex)
  {
    hide Find, AreAlike;
    SameFind(m, n, PLAYER_STATE_PARTS, 0);
    SameFind(m, n, PLAYER_STATE_PARTS, 2);
    SameFind(m, n, PLAYER_STATE_PARTS, 3);
    SameFind(m, n, PLAYER_STATE_PARTS, 4);
    SameFind(m, n, PLAYER_STATE_PARTS, 5);
    SameFind(m, n, PLAYER_STATE_PARTS, 6);
    SameFind(m, n, PLAYER_STATE_PARTS, 7);
    SameFind(m, n, PLAYER_STATE_PARTS, 8);
    SameFind(m, n, PLAYER_STATE_PARTS, 9);
    SameFind(m, n, PLAYER_STATE_PARTS, 10);
    SameFind(m, n, PLAYER_STATE_PARTS, 11);
  }

  const PLAYER_STATE_KEYS: set<Key> :=
    { Error, Queue, Status, Volume, Shuffle, CanUndo,
      Revision, PlayerId, PlaybackId, PositionMs, RepeatModeKey,
      CurrentIndex }

  lemma QueueUnordered(m: Value, n: Value)
    requires AreAlike(m, n, Keyed(PLAYER_STATE_PARTS))
    ensures ListOf(Find(m, Queue), DecQueueItem) == ListOf(Find(n, Queue), DecQueueItem)
  {
    hide Find, AreAlike, DecQueueItem, ListOf;
    assert PLAYER_STATE_PARTS[1] == Part(Queue, Each(Keyed(QUEUE_ITEM_PARTS)));
    forall v, w | AreAlike(v, w, Keyed(QUEUE_ITEM_PARTS)) ensures DecQueueItem(v) == DecQueueItem(w) {
      QueueItemUnordered(v, w);
    }
    SameList(m, n, PLAYER_STATE_PARTS, 1, DecQueueItem);
  }

  /** Neither the order of the pairs nor unknown keys, in the state or in any queued item, change what is read. */
  lemma PlayerStateUnordered(m: Value, n: Value)
    requires AreAlike(m, n, Keyed(PLAYER_STATE_PARTS))
    ensures DecPlayerState(m) == DecPlayerState(n)
  {
    hide Find, AreAlike, DecQueueItem, ListOf, ReadEnum, GetText, Optional;
    AlikeMaps(m, n, PLAYER_STATE_PARTS);
    PlayerStateFinds(m, n);
    QueueUnordered(m, n);
  }

  /** In particular, permuting a state's own pairs or adding pairs under other keys changes nothing. */
  lemma PlayerStateReordered(m: Value, n: Value)
    requires SameNamedPairs(m, n, PLAYER_STATE_KEYS)
    ensures DecPlayerState(m) == DecPlayerState(n)
  {
    hide AreAlike, DecPlayerState, SameNamedPairs;
    ReorderedIsAlike(m, n, PLAYER_STATE_PARTS, PLAYER_STATE_KEYS);
    PlayerStateUnordered(m, n);
  }
}
