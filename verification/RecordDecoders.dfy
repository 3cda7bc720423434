/** The record decoders as they run: a scan for each key in turn, and an early return at the first field that does
    not read. */
module RecordDecoders {
  import opened Octets
  import opened Cbor
  import opened ArenaMemory
  import opened TypedStorage
  import opened Weights
  import opened Fields
  import opened Readers
  import opened PlayerRecords
  import opened ImportRecords
  import opened NodeReports
  import opened SettingsRecords
  import opened Commands

  // ----- optional fields -----

  method NumberAt(a: Arena, m: Value, k: Key, ghost t: Snapshot) returns (r: Option<Option<U64>>)
    requires a.Valid() && a.Since(t)
    modifies a, a.Repr
    ensures a.Valid() && old(a.Repr) <= a.Repr && fresh(a.Repr - old(a.Repr)) && a.Since(t)
    ensures r == Optional(Find(m, k), AsU64) && a.taken <= old(a.taken) + 16
  {
    hide Arena.Since, Arena.Valid, Find;
    var f := Get(m, k);
    r := OptNumber(a, f, t);
  }

  method FlagAt(a: Arena, m: Value, k: Key, ghost t: Snapshot) returns (r: Option<Option<bool>>)
    requires a.Valid() && a.Since(t)
    modifies a, a.Repr
    ensures a.Valid() && old(a.Repr) <= a.Repr && fresh(a.Repr - old(a.Repr)) && a.Since(t)
    ensures r == Optional(Find(m, k), AsBool) && a.taken <= old(a.taken) + 16
  {
    hide Arena.Since, Arena.Valid, Find;
    var f := Get(m, k);
    r := OptFlag(a, f, t);
  }

  method NameAt(a: Arena, m: Value, k: Key, e: EnumType, ghost t: Snapshot) returns (r: Option<Option<nat>>)
    requires a.Valid() && a.Since(t)
    modifies a, a.Repr
    ensures a.Valid() && old(a.Repr) <= a.Repr && fresh(a.Repr - old(a.Repr)) && a.Since(t)
    ensures r == OptionalName(Find(m, k), e) && a.taken <= old(a.taken) + 16
  {
    hide Arena.Since, Arena.Valid, Find, ReadEnum;
    var f := Get(m, k);
    if f.None? {
      return Some(None);
    }
    Scalar(a, ENUM_SIZE, t);
    var name := MatchName(e, f);
    return if name.Some? then Some(name) else None;
  }

  /** An absent enumeration field is fine, a present one must name a constant. */
  function OptionalName(f: Option<Value>, e: EnumType): Option<Option<nat>>
  {
    if f.None? then Some(None) else if ReadEnum(e, f).Some? then Some(ReadEnum(e, f)) else None
  }

  // ----- the records -----

  method ReadQueueItem(a: Arena, m: Value, ghost t: Snapshot) returns (r: Option<QueueItem>)
    requires a.Valid() && a.Since(t)
    modifies a, a.Repr
    ensures a.Valid() && old(a.Repr) <= a.Repr && fresh(a.Repr - old(a.Repr)) && a.Since(t)
    ensures r.Some? || Nodes(m) <= MAX_INPUT ==> r == DecQueueItem(m)
    ensures a.taken <= old(a.taken) + 32
  {
    hide Nodes, Weight, Arena.Since, Arena.Valid, Find;
    if !m.Map? {
      return None;
    }
    var f := Get(m, Title);
    var title := GetText(f);
    f := Get(m, Artist);
    var artist := GetText(f);
    var library := NameAt(a, m, LibraryKey, Libraries, t);
    if library.None? { return None; }
    f := Get(m, TrackId);
    var trackId := GetText(f);
    if trackId.None? { return None; }
    var durationMs := NumberAt(a, m, DurationMs, t);
    if durationMs.None? { return None; }
    f := Get(m, QueueItemId);
    var queueItemId := AsU64(f);
    if queueItemId.None? { return None; }
    return Some(QueueItem(queueItemId.value, trackId.value, library.value, title, artist, durationMs.value));
  }

  method ReadQueue(a: Arena, f: Option<Value>, ghost t: Snapshot) returns (r: Option<seq<QueueItem>>)
    requires a.Valid() && a.Since(t)
    modifies a, a.Repr
    ensures a.Valid() && old(a.Repr) <= a.Repr && fresh(a.Repr - old(a.Repr)) && a.Since(t)
    ensures r.Some? || Weight(f) <= MAX_INPUT ==> r == ListOf(f, DecQueueItem)
    ensures a.taken <= old(a.taken) + 80 * Weight(f)
  {
    hide Nodes, NodesIn, Arena.Since, Arena.Valid, DecQueueItem;
    if f.None? || !f.value.Array? {
      return None;
    }
    var items := f.value.items;
    var out: seq<QueueItem> := [];
    ArrayWeight(items);
    if |items| > 0 {
      var home := ArrayStorage(a, |items|, QUEUE_ITEM_SIZE, t);
      if home.None? {
        return None;
      }
    }
    ghost var stored := a.taken;
    NoNodes();
    for i := 0 to |items|
      invariant ReadAll(items[..i], DecQueueItem) == Some(out)
      invariant a.Valid() && old(a.Repr) <= a.Repr && fresh(a.Repr - old(a.Repr)) && a.Since(t)
      invariant a.taken <= stored + 32 * NodesIn(items[..i])
    {
      NodesStep(items, i);
      var element := ReadQueueItem(a, items[i], t);
      ReadStep(items, i, out, DecQueueItem);
      if element.None? {
        return None;
      }
      out := out + [element.value];
    }
    assert items[..|items|] == items;
    return Some(out);
  }

  /** The fields of a state that lie between its queue and the first of its optional numbers. */
  method ReadStanding(m: Value)
      returns (status: Option<nat>, volume: Option<U64>, shuffle: Option<bool>, canUndo: Option<bool>,
               revision: Option<U64>, playerId: Option<CString>, playbackId: Option<CString>)
    requires m.Map?
    ensures playerId.None? ==> DecPlayerState(m) == None
    ensures playerId.Some? ==> status.Some? && volume.Some? && shuffle.Some? && canUndo.Some? && revision.Some?
    ensures playerId.Some? ==>
            && status == ReadEnum(PlayerStatuses, Find(m, Status)) && volume == AsU64(Find(m, Volume))
            && shuffle == AsBool(Find(m, Shuffle)) && canUndo == AsBool(Find(m, CanUndo))
            && revision == AsU64(Find(m, Revision)) && playerId == GetText(Find(m, PlayerId))
            && playbackId == GetText(Find(m, PlaybackId))
  {
    hide Find, ListOf, DecQueueItem, GetText, AsU64, AsBool, ReadEnum;
    shuffle, canUndo, revision, playerId, playbackId := None, None, None, None, None;
    var f := Get(m, Status);
    status := MatchName(PlayerStatuses, f);
    volume := None;
    if status.None? { return; }
    f := Get(m, Volume);
    volume := AsU64(f);
    if volume.None? { return; }
    f := Get(m, Shuffle);
    shuffle := AsBool(f);
    if shuffle.None? { return; }
    f := Get(m, CanUndo);
    canUndo := AsBool(f);
    if canUndo.None? { return; }
    f := Get(m, Revision);
    revision := AsU64(f);
    if revision.None? { return; }
    f := Get(m, PlayerId);
    playerId := GetText(f);
    if playerId.None? { return; }
    f := Get(m, PlaybackId);
    playbackId := GetText(f);
  }

  method ReadPlayerState(a: Arena, m: Value, ghost t: Snapshot) returns (r: Option<PlayerState>)
    requires a.Valid() && a.Since(t)
    modifies a, a.Repr
    ensures a.Valid() && old(a.Repr) <= a.Repr && fresh(a.Repr - old(a.Repr)) && a.Since(t)
    ensures r.Some? || Nodes(m) <= MAX_INPUT ==> r == DecPlayerState(m)
    ensures a.taken <= old(a.taken) + 80 * Nodes(m)
  {
    hide Nodes, Weight, Arena.Since, Arena.Valid, Find, DecQueueItem, ListOf;
    if !m.Map? {
      return None;
    }
    var f := Get(m, Error);
    var error := GetText(f);
    FindWeight(m, Queue);
    f := Get(m, Queue);
    var queue := ReadQueue(a, f, t);
    if queue.None? { return None; }
    var status, volume, shuffle, canUndo, revision, playerId, playbackId := ReadStanding(m);
    if playerId.None? { return None; }
    var positionMs := NumberAt(a, m, PositionMs, t);
    if positionMs.None? { return None; }
    f := Get(m, RepeatModeKey);
    var repeatMode := MatchName(RepeatModes, f);
    if repeatMode.None? { return None; }
    var currentIndex := NumberAt(a, m, CurrentIndex, t);
    if currentIndex.None? { return None; }
    return Some(PlayerState(playerId.value, revision.value, status.value, currentIndex.value, playbackId,
                            positionMs.value, volume.value, repeatMode.value, shuffle.value, error, canUndo.value,
                            queue.value));
  }

  method ReadChunk(m: Value) returns (r: Option<TransferChunk>)
    ensures r == DecChunk(m)
  {
    hide Find;
    if !m.Map? {
      return None;
    }
    var f := Get(m, Size);
    var size := AsU64(f);
    if size.None? { return None; }
    f := Get(m, Index);
    var index := AsU64(f);
    if index.None? { return None; }
    f := Get(m, Offset);
    var offset := AsU64(f);
    if offset.None? { return None; }
    f := Get(m, Sha256);
    var sha256 := GetText(f);
    if sha256.None? { return None; }
    return Some(TransferChunk(index.value, offset.value, size.value, sha256.value));
  }

  method ReadChunks(a: Arena, f: Option<Value>, ghost t: Snapshot) returns (r: Option<seq<TransferChunk>>)
    requires a.Valid() && a.Since(t)
    modifies a, a.Repr
    ensures a.Valid() && old(a.Repr) <= a.Repr && fresh(a.Repr - old(a.Repr)) && a.Since(t)
    ensures r.Some? || Weight(f) <= MAX_INPUT ==> r == ListOf(f, DecChunk)
    ensures a.taken <= old(a.taken) + 32 * Weight(f)
  {
    hide Nodes, NodesIn, Arena.Since, Arena.Valid, DecChunk;
    if f.None? || !f.value.Array? {
      return None;
    }
    var items := f.value.items;
    var out: seq<TransferChunk> := [];
    ArrayWeight(items);
    if |items| > 0 {
      var home := ArrayStorage(a, |items|, TRANSFER_CHUNK_SIZE, t);
      if home.None? {
        return None;
      }
    }
    ghost var stored := a.taken;
    NoNodes();
    for i := 0 to |items|
      invariant ReadAll(items[..i], DecChunk) == Some(out)
      invariant a.Valid() && old(a.Repr) <= a.Repr && fresh(a.Repr - old(a.Repr)) && a.Since(t)
      invariant a.taken <= stored
    {
      NodesStep(items, i);
      var element := ReadChunk(items[i]);
      ReadStep(items, i, out, DecChunk);
      if element.None? {
        return None;
      }
      out := out + [element.value];
    }
    assert items[..|items|] == items;
    return Some(out);
  }

  method ReadFile(a: Arena, m: Value, ghost t: Snapshot) returns (r: Option<TransferFile>)
    requires a.Valid() && a.Since(t)
    modifies a, a.Repr
    ensures a.Valid() && old(a.Repr) <= a.Repr && fresh(a.Repr - old(a.Repr)) && a.Since(t)
    ensures r.Some? || Nodes(m) <= MAX_INPUT ==> r == DecFile(m)
    ensures a.taken <= old(a.taken) + 32 * Nodes(m)
  {
    hide Nodes, Weight, Arena.Since, Arena.Valid, Find, DecChunk, ListOf;
    if !m.Map? {
      return None;
    }
    FindWeight(m, Chunks);
    var f := Get(m, Chunks);
    var chunks := ReadChunks(a, f, t);
    if chunks.None? { return None; }
    f := Get(m, Sha256);
    var sha256 := GetText(f);
    if sha256.None? { return None; }
    f := Get(m, SizeBytes);
    var sizeBytes := AsU64(f);
    if sizeBytes.None? { return None; }
    f := Get(m, ContentType);
    var contentType := GetText(f);
    if contentType.None? { return None; }
    f := Get(m, RootRelativePath);
    var rootRelativePath := GetText(f);
    if rootRelativePath.None? { return None; }
    return Some(TransferFile(rootRelativePath.value, sizeBytes.value, contentType.value, sha256.value, chunks.value));
  }

  method ReadFiles(a: Arena, f: Option<Value>, ghost t: Snapshot) returns (r: Option<seq<TransferFile>>)
    requires a.Valid() && a.Since(t)
    modifies a, a.Repr
    ensures a.Valid() && old(a.Repr) <= a.Repr && fresh(a.Repr - old(a.Repr)) && a.Since(t)
    ensures r.Some? || Weight(f) <= MAX_INPUT ==> r == ListOf(f, DecFile)
    ensures a.taken <= old(a.taken) + 80 * Weight(f)
  {
    hide Nodes, NodesIn, Arena.Since, Arena.Valid, DecFile;
    if f.None? || !f.value.Array? {
      return None;
    }
    var items := f.value.items;
    var out: seq<TransferFile> := [];
    ArrayWeight(items);
    if |items| > 0 {
      var home := ArrayStorage(a, |items|, TRANSFER_FILE_SIZE, t);
      if home.None? {
        return None;
      }
    }
    ghost var stored := a.taken;
    NoNodes();
    for i := 0 to |items|
      invariant ReadAll(items[..i], DecFile) == Some(out)
      invariant a.Valid() && old(a.Repr) <= a.Repr && fresh(a.Repr - old(a.Repr)) && a.Since(t)
      invariant a.taken <= stored + 32 * NodesIn(items[..i])
    {
      NodesStep(items, i);
      var element := ReadFile(a, items[i], t);
      ReadStep(items, i, out, DecFile);
      if element.None? {
        return None;
      }
      out := out + [element.value];
    }
    assert items[..|items|] == items;
    return Some(out);
  }

  method ReadImport(a: Arena, m: Value, ghost t: Snapshot) returns (r: Option<BeginImportRequest>)
    requires a.Valid() && a.Since(t)
    modifies a, a.Repr
    ensures a.Valid() && old(a.Repr) <= a.Repr && fresh(a.Repr - old(a.Repr)) && a.Since(t)
    ensures r.Some? || Nodes(m) <= MAX_INPUT ==> r == DecImport(m)
    ensures a.taken <= old(a.taken) + 80 * Nodes(m)
  {
    hide Nodes, Weight, Arena.Since, Arena.Valid, Find, DecFile, ListOf;
    if !m.Map? {
      return None;
    }
    FindWeight(m, Files);
    var f := Get(m, Files);
    var files := ReadFiles(a, f, t);
    if files.None? { return None; }
    var library := NameAt(a, m, LibraryKey, Libraries, t);
    if library.None? { return None; }
    f := Get(m, TrackFileIndex);
    var trackFileIndex := AsU64(f);
    if trackFileIndex.None? { return None; }
    return Some(BeginImportRequest(files.value, trackFileIndex.value, library.value));
  }

  method ReadReport(a: Arena, m: Value, ghost t: Snapshot) returns (r: Option<NodeReport>)
    requires a.Valid() && a.Since(t)
    modifies a, a.Repr
    ensures a.Valid() && old(a.Repr) <= a.Repr && fresh(a.Repr - old(a.Repr)) && a.Since(t)
    ensures r.Some? || Nodes(m) <= MAX_INPUT ==> r == DecReport(m)
    ensures a.taken <= old(a.taken) + 80 * Nodes(m)
  {
    hide Nodes, Weight, Arena.Since, Arena.Valid, Find;
    if !m.Map? {
      return None;
    }
    var f := Get(m, Error);
    var error := GetText(f);
    var event := NameAt(a, m, Event, NodeEvents, t);
    if event.None? { return None; }
    f := Get(m, Status);
    var status := MatchName(PlayerStatuses, f);
    if status.None? { return None; }
    f := Get(m, PlayerId);
    var playerId := GetText(f);
    if playerId.None? { return None; }
    f := Get(m, PlaybackId);
    var playbackId := GetText(f);
    var positionMs := NumberAt(a, m, PositionMs, t);
    if positionMs.None? { return None; }
    var audioBlocked := FlagAt(a, m, AudioBlocked, t);
    if audioBlocked.None? { return None; }
    var queueItemId := NumberAt(a, m, QueueItemId, t);
    if queueItemId.None? { return None; }
    return Some(NodeReport(playerId.value, event.value, status.value, queueItemId.value, playbackId, positionMs.value,
                           error, audioBlocked.value));
  }

  method ReadTrackIds(a: Arena, f: Option<Value>, ghost t: Snapshot) returns (r: Option<seq<CString>>)
    requires a.Valid() && a.Since(t)
    modifies a, a.Repr
    ensures a.Valid() && old(a.Repr) <= a.Repr && fresh(a.Repr - old(a.Repr)) && a.Since(t)
    ensures r.Some? || Weight(f) <= MAX_INPUT ==> r == ListOf(f, ReadText)
    ensures a.taken <= old(a.taken) + 32 * Weight(f)
  {
    hide Nodes, NodesIn, Arena.Since, Arena.Valid, ReadText;
    if f.None? || !f.value.Array? {
      return None;
    }
    var items := f.value.items;
    var out: seq<CString> := [];
    ArrayWeight(items);
    if |items| > 0 {
      var home := ArrayStorage(a, |items|, POINTER_SIZE, t);
      if home.None? {
        return None;
      }
    }
    ghost var stored := a.taken;
    NoNodes();
    for i := 0 to |items|
      invariant ReadAll(items[..i], ReadText) == Some(out)
      invariant a.Valid() && old(a.Repr) <= a.Repr && fresh(a.Repr - old(a.Repr)) && a.Since(t)
      invariant a.taken <= stored
    {
      NodesStep(items, i);
      var element := ReadText(items[i]);
      ReadStep(items, i, out, ReadText);
      if element.None? {
        return None;
      }
      out := out + [element.value];
    }
    assert items[..|items|] == items;
    return Some(out);
  }

  method ReadSettings(a: Arena, m: Value, ghost t: Snapshot) returns (r: Option<Settings>)
    requires a.Valid() && a.Since(t)
    modifies a, a.Repr
    ensures a.Valid() && old(a.Repr) <= a.Repr && fresh(a.Repr - old(a.Repr)) && a.Since(t)
    ensures r.Some? || Nodes(m) <= MAX_INPUT ==> r == DecSettings(m)
    ensures a.taken <= old(a.taken) + 80 * Nodes(m)
  {
    hide Nodes, NodesInPairs, Arena.Since, Arena.Valid, Find, ReadEntries;
    if !m.Map? {
      return None;
    }
    FindWeight(m, Entries);
    var f := Get(m, Entries);
    if f.None? || !f.value.Map? {
      return None;
    }
    var count := |f.value.pairs|;
    MapWeight(f.value.pairs);
    if count > 0 {
      var keys := ArrayStorage(a, count, POINTER_SIZE, t);
      var texts := ArrayStorage(a, count, POINTER_SIZE, t);
      if keys.None? || texts.None? {
        return None;
      }
    }
    var entries := CollectEntries(f.value.pairs);
    if entries.None? { return None; }
    return Some(Settings(entries.value));
  }

  // ----- the tagged sum -----

  /** The arguments of the variants that name an item of the queue, or none, by numbers alone. */
  method ReadItemArguments(i: nat, m: Value) returns (r: Option<PlayerCommand>)
    requires i in {2, 3, 4, 6}
    ensures r == QueueArguments(i, m)
  {
    hide Find, AsU64;
    match i {
      case 2 =>
        var f := Get(m, Index);
        var index := AsU64(f);
        return if index.Some? then Some(Remove(index.value)) else None;
      case 3 =>
        var f := Get(m, QueueItemId);
        var id := AsU64(f);
        return if id.Some? then Some(RemoveItem(id.value)) else None;
      case 4 =>
        var f := Get(m, ToIndex);
        var to := AsU64(f);
        if to.None? { return None; }
        f := Get(m, FromIndex);
        var from := AsU64(f);
        return if from.Some? then Some(Reorder(from.value, to.value)) else None;
      case _ =>
        return Some(Clear);
    }
  }

  /** The arguments of the variants that change the queue. */
  method ReadQueueArguments(a: Arena, i: nat, m: Value, ghost t: Snapshot) returns (r: Option<PlayerCommand>)
    requires i <= 6
    requires a.Valid() && a.Since(t)
    modifies a, a.Repr
    ensures a.Valid() && old(a.Repr) <= a.Repr && fresh(a.Repr - old(a.Repr)) && a.Since(t)
    ensures r.Some? || Nodes(m) <= MAX_INPUT ==> r == QueueArguments(i, m)
    ensures a.taken <= old(a.taken) + 80 * Nodes(m)
  {
    hide Nodes, Weight, Arena.Since, Arena.Valid, Find, ReadText, ListOf, AsU64, Optional;
    FindWeight(m, TrackIds);
    match i {
      case 0 =>
        var at := NumberAt(a, m, AtIndex, t);
        if at.None? { return None; }
        var f := Get(m, TrackIds);
        var ids := ReadTrackIds(a, f, t);
        return if ids.Some? then Some(Enqueue(ids.value, at.value)) else None;
      case 1 =>
        var f := Get(m, TrackIds);
        var ids := ReadTrackIds(a, f, t);
        return if ids.Some? then Some(EnqueueNext(ids.value)) else None;
      case 5 =>
        var f := Get(m, QueueItemId);
        var id := AsU64(f);
        if id.None? { return None; }
        var before := NumberAt(a, m, BeforeQueueItemId, t);
        return if before.Some? then Some(MoveItem(id.value, before.value)) else None;
      case _ =>
        r := ReadItemArguments(i, m);
    }
  }

  /** The arguments of the variants that take no storage: at most one number, name or flag. */
  method ReadControlArguments(i: nat, m: Value) returns (r: Option<PlayerCommand>)
    requires 9 <= i <= 16
    ensures r == TransportArguments(i, m)
  {
    hide Find, ReadEnum;
    match i {
      case 9 => return Some(Pause);
      case 10 => return Some(Next);
      case 11 => return Some(Previous);
      case 12 =>
        var f := Get(m, PositionMs);
        var ms := AsU64(f);
        return if ms.Some? then Some(Seek(ms.value)) else None;
      case 13 =>
        var f := Get(m, Volume);
        var volume := AsU64(f);
        return if volume.Some? then Some(SetVolume(volume.value)) else None;
      case 14 =>
        var f := Get(m, RepeatModeKey);
        var mode := MatchName(RepeatModes, f);
        return if mode.Some? then Some(SetRepeat(mode.value)) else None;
      case 15 =>
        var f := Get(m, Shuffle);
        var on := AsBool(f);
        return if on.Some? then Some(SetShuffle(on.value)) else None;
      case _ =>
        return Some(Undo);
    }
  }

  /** The arguments of the variants that control playback. */
  method ReadTransportArguments(a: Arena, i: nat, m: Value, ghost t: Snapshot) returns (r: Option<PlayerCommand>)
    requires 7 <= i <= 16
    requires a.Valid() && a.Since(t)
    modifies a, a.Repr
    ensures a.Valid() && old(a.Repr) <= a.Repr && fresh(a.Repr - old(a.Repr)) && a.Since(t)
    ensures r.Some? || Nodes(m) <= MAX_INPUT ==> r == TransportArguments(i, m)
    ensures a.taken <= old(a.taken) + 80 * Nodes(m)
  {
    hide Nodes, Weight, Arena.Since, Arena.Valid, Find, ReadText, ListOf, AsU64, Optional;
    FindWeight(m, TrackIds);
    match i {
      case 7 =>
        var index := NumberAt(a, m, Index, t);
        if index.None? { return None; }
        var id := NumberAt(a, m, QueueItemId, t);
        return if id.Some? then Some(Play(index.value, id.value)) else None;
      case 8 =>
        var f := Get(m, TrackIds);
        var ids := ReadTrackIds(a, f, t);
        if ids.None? { return None; }
        var ms := NumberAt(a, m, PositionMs, t);
        if ms.None? { return None; }
        var start := NumberAt(a, m, StartIndex, t);
        return if start.Some? then Some(ReplaceAndPlay(ids.value, start.value, ms.value)) else None;
      case _ =>
        r := ReadControlArguments(i, m);
    }
  }

  /** The arguments of the variants by which a node reports on playback. */
  method ReadPlaybackArguments(i: nat, m: Value) returns (r: Option<PlayerCommand>)
    requires 17 <= i < VARIANTS
    ensures r == PlaybackArguments(i, m)
  {
    hide Find, GetText;
    var error: Option<CString>, status: Option<nat>, ms: Option<U64> := None, None, None;
    if i == 18 {
      var f := Get(m, Error);
      error := GetText(f);
      if error.None? { return None; }
    }
    if i == 19 {
      var f := Get(m, Status);
      status := MatchName(PlayerStatuses, f);
      if status.None? { return None; }
    }
    var f := Get(m, PlaybackId);
    var playback := GetText(f);
    if playback.None? { return None; }
    if i == 19 {
      f := Get(m, PositionMs);
      ms := AsU64(f);
      if ms.None? { return None; }
    }
    f := Get(m, QueueItemId);
    var id := AsU64(f);
    if id.None? { return None; }
    return Some(if i == 17 then PlaybackCompleted(playback.value, id.value)
                else if i == 18 then PlaybackFailed(playback.value, id.value, error.value)
                else PlaybackState(playback.value, id.value, status.value, ms.value));
  }

  method ReadVariant(a: Arena, i: nat, m: Value, ghost t: Snapshot) returns (r: Option<PlayerCommand>)
    requires i < VARIANTS
    requires a.Valid() && a.Since(t)
    modifies a, a.Repr
    ensures a.Valid() && old(a.Repr) <= a.Repr && fresh(a.Repr - old(a.Repr)) && a.Since(t)
    ensures r.Some? || Nodes(m) <= MAX_INPUT ==> r == DecVariant(i, m)
    ensures a.taken <= old(a.taken) + 80 * Nodes(m)
  {
    hide Nodes, Weight, Arena.Since, Arena.Valid, Find, OpText, QueueArguments, TransportArguments, PlaybackArguments;
    if !m.Map? {
      return None;
    }
    var f := Get(m, Op);
    var op := GetText(f);
    if op.None? || op.value != OpText(i) {
      return None;
    }
    if i <= 6 {
      r := ReadQueueArguments(a, i, m, t);
    } else if i <= 16 {
      r := ReadTransportArguments(a, i, m, t);
    } else {
      r := ReadPlaybackArguments(i, m);
    }
  }

  /** The index selects the variant that the record must be. */
  method ReadCommand(a: Arena, v: Value, ghost t: Snapshot) returns (r: Option<PlayerCommand>)
    requires a.Valid() && a.Since(t)
    modifies a, a.Repr
    ensures a.Valid() && old(a.Repr) <= a.Repr && fresh(a.Repr - old(a.Repr)) && a.Since(t)
    ensures r.Some? || Nodes(v) <= MAX_INPUT ==> r == DecCommand(v)
    ensures a.taken <= old(a.taken) + 80 * Nodes(v)
  {
    hide Nodes, Arena.Since, Arena.Valid, DecVariant;
    if !v.Array? || |v.items| != 2 {
      return None;
    }
    var index := AsU64(Some(v.items[0]));
    if index.None? || index.value >= VARIANTS {
      return None;
    }
    ItemWeight(v.items, 1);
    r := ReadVariant(a, index.value, v.items[1], t);
  }
}
