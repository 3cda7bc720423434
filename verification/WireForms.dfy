/** The records of the protocol as they stand on the wire, stated without the encoders and decoders: what each map
    holds under which octets, and which record it stands for. */
module WireForms {
  import opened Octets
  import opened Cbor
  import opened Fields
  import opened Readers
  import opened PlayerRecords
  import opened ImportRecords
  import opened NodeReports
  import opened SettingsRecords
  import opened Commands
  import opened WireTexts

  // ----- what a value says -----

  /** The first value under the octets of a key. */
  function Under(m: Value, k: Key): Option<Value>
  {
    MapGet(m, KeyOctets(k))
  }

  predicate IsNumber(v: Value, u: U64)
  {
    v == UInt(u) || (v.NInt? && v.i == u)
  }

  /** The text up to its first NUL. */
  predicate IsText(v: Value, s: seq<Octet>)
  {
    v.Text? && CStr(v.text) == s
  }

  /** The whole text is that of the constant, a NUL and anything after it included. */
  predicate IsName(v: Value, t: EnumType, e: nat)
  {
    e < |NameOctets(t)| && v == Text(NameOctets(t)[e])
  }

  predicate IsList<T>(v: Value, ts: seq<T>, says: (Value, T) -> bool)
  {
    v.Array? && AreAll(v.items, ts, says)
  }

  predicate AreAll<T>(vs: seq<Value>, ts: seq<T>, says: (Value, T) -> bool)
  {
    |vs| == |ts| && forall i :: 0 <= i < |ts| ==> says(vs[i], ts[i])
  }

  // ----- what a map holds -----

  predicate HasNumber(m: Value, k: Key, u: U64)
  {
    Under(m, k).Some? && IsNumber(Under(m, k).value, u)
  }

  predicate HasFlag(m: Value, k: Key, b: bool)
  {
    Under(m, k) == Some(Bool(b))
  }

  predicate HasText(m: Value, k: Key, s: seq<Octet>)
  {
    Under(m, k).Some? && IsText(Under(m, k).value, s)
  }

  predicate HasName(m: Value, k: Key, t: EnumType, e: nat)
  {
    Under(m, k).Some? && IsName(Under(m, k).value, t, e)
  }

  predicate HasList<T>(m: Value, k: Key, ts: seq<T>, says: (Value, T) -> bool)
  {
    Under(m, k).Some? && IsList(Under(m, k).value, ts, says)
  }

  /** Absent, or a number: present as anything else, null included, it refuses the record. */
  predicate MayHaveNumber(m: Value, k: Key, u: Option<U64>)
  {
    if u.Some? then HasNumber(m, k, u.value) else Under(m, k) == None
  }

  predicate MayHaveFlag(m: Value, k: Key, b: Option<bool>)
  {
    if b.Some? then HasFlag(m, k, b.value) else Under(m, k) == None
  }

  predicate MayHaveName(m: Value, k: Key, t: EnumType, e: Option<nat>)
  {
    if e.Some? then HasName(m, k, t, e.value) else Under(m, k) == None
  }

  /** An optional text alone is lenient: what is no text counts as absent. */
  predicate MayHaveText(m: Value, k: Key, s: Option<CString>)
  {
    if s.Some? then HasText(m, k, s.value) else Under(m, k) == None || !Under(m, k).value.Text?
  }

  // ----- records -----

  predicate IsQueueItem(m: Value, q: QueueItem)
  {
    && m.Map?
    && MayHaveText(m, Title, q.title)
    && MayHaveText(m, Artist, q.artist)
    && MayHaveName(m, LibraryKey, Libraries, q.library)
    && HasText(m, TrackId, q.trackId)
    && MayHaveNumber(m, DurationMs, q.durationMs)
    && HasNumber(m, QueueItemId, q.queueItemId)
  }

  predicate IsPlayerState(m: Value, ps: PlayerState)
  {
    && m.Map?
    && MayHaveText(m, Error, ps.error)
    && HasList(m, Queue, ps.queue, IsQueueItem)
    && HasName(m, Status, PlayerStatuses, ps.status)
    && HasNumber(m, Volume, ps.volume)
    && HasFlag(m, Shuffle, ps.shuffle)
    && HasFlag(m, CanUndo, ps.canUndo)
    && HasNumber(m, Revision, ps.revision)
    && HasText(m, PlayerId, ps.playerId)
    && MayHaveText(m, PlaybackId, ps.playbackId)
    && MayHaveNumber(m, PositionMs, ps.positionMs)
    && HasName(m, RepeatModeKey, RepeatModes, ps.repeatMode)
    && MayHaveNumber(m, CurrentIndex, ps.currentIndex)
  }

  predicate IsChunk(m: Value, c: TransferChunk)
  {
    && m.Map?
    && HasNumber(m, Size, c.size)
    && HasNumber(m, Index, c.index)
    && HasNumber(m, Offset, c.offset)
    && HasText(m, Sha256, c.sha256)
  }

  predicate IsFile(m: Value, f: TransferFile)
  {
    && m.Map?
    && HasList(m, Chunks, f.chunks, IsChunk)
    && HasText(m, Sha256, f.sha256)
    && HasNumber(m, SizeBytes, f.sizeBytes)
    && HasText(m, ContentType, f.contentType)
    && HasText(m, RootRelativePath, f.rootRelativePath)
  }

  predicate IsImport(m: Value, r: BeginImportRequest)
  {
    && m.Map?
    && HasList(m, Files, r.files, IsFile)
    && MayHaveName(m, LibraryKey, Libraries, r.library)
    && HasNumber(m, TrackFileIndex, r.trackFileIndex)
  }

  predicate IsReport(m: Value, r: NodeReport)
  {
    && m.Map?
    && MayHaveText(m, Error, r.error)
    && MayHaveName(m, Event, NodeEvents, r.event)
    && HasName(m, Status, PlayerStatuses, r.status)
    && HasText(m, PlayerId, r.playerId)
    && MayHaveText(m, PlaybackId, r.playbackId)
    && MayHaveNumber(m, PositionMs, r.positionMs)
    && MayHaveFlag(m, AudioBlocked, r.audioBlocked)
    && MayHaveNumber(m, QueueItemId, r.queueItemId)
  }

  predicate IsEntry(p: Pair, e: Entry)
  {
    IsText(p.key, e.key) && IsText(p.val, e.text)
  }

  predicate AreEntries(pairs: seq<Pair>, es: seq<Entry>)
  {
    |pairs| == |es| && forall i :: 0 <= i < |es| ==> IsEntry(pairs[i], es[i])
  }

  /** The entries of a map under the one key, in its order. */
  predicate IsSettings(m: Value, s: Settings)
  {
    && m.Map?
    && Under(m, Entries).Some? && Under(m, Entries).value.Map?
    && AreEntries(Under(m, Entries).value.pairs, s.entries)
  }

  // ----- commands -----

  /** An array of the variant's index and a record that carries the variant's name. */
  predicate IsVariant(v: Value, i: nat)
    requires i < 20
  {
    && v.Array? && |v.items| == 2 && IsNumber(v.items[0], i)
    && v.items[1].Map? && HasText(v.items[1], Op, OpOctets(i))
  }

  predicate IsTrackIds(m: Value, ids: seq<CString>)
  {
    HasList(m, TrackIds, ids, (v, s) => IsText(v, s))
  }

  /** The twenty variants: index and name, and the record's other fields. */
  predicate IsCommand(v: Value, c: PlayerCommand)
  {
    && v.Array? && |v.items| == 2
    && var m := v.items[1];
       match c
       case Enqueue(ids, at) => IsVariant(v, 0) && MayHaveNumber(m, AtIndex, at) && IsTrackIds(m, ids)
       case EnqueueNext(ids) => IsVariant(v, 1) && IsTrackIds(m, ids)
       case Remove(i) => IsVariant(v, 2) && HasNumber(m, Index, i)
       case RemoveItem(id) => IsVariant(v, 3) && HasNumber(m, QueueItemId, id)
       case Reorder(from, to) => IsVariant(v, 4) && HasNumber(m, ToIndex, to) && HasNumber(m, FromIndex, from)
       case MoveItem(id, before) =>
         IsVariant(v, 5) && HasNumber(m, QueueItemId, id) && MayHaveNumber(m, BeforeQueueItemId, before)
       case Clear => IsVariant(v, 6)
       case Play(i, id) => IsVariant(v, 7) && MayHaveNumber(m, Index, i) && MayHaveNumber(m, QueueItemId, id)
       case ReplaceAndPlay(ids, start, ms) =>
         && IsVariant(v, 8) && IsTrackIds(m, ids)
         && MayHaveNumber(m, PositionMs, ms) && MayHaveNumber(m, StartIndex, start)
       case Pause => IsVariant(v, 9)
       case Next => IsVariant(v, 10)
       case Previous => IsVariant(v, 11)
       case Seek(ms) => IsVariant(v, 12) && HasNumber(m, PositionMs, ms)
       case SetVolume(volume) => IsVariant(v, 13) && HasNumber(m, Volume, volume)
       case SetRepeat(mode) => IsVariant(v, 14) && HasName(m, RepeatModeKey, RepeatModes, mode)
       case SetShuffle(on) => IsVariant(v, 15) && HasFlag(m, Shuffle, on)
       case Undo => IsVariant(v, 16)
       case PlaybackCompleted(playback, id) =>
         IsVariant(v, 17) && HasText(m, PlaybackId, playback) && HasNumber(m, QueueItemId, id)
       case PlaybackFailed(playback, id, error) =>
         && IsVariant(v, 18) && HasText(m, Error, error)
         && HasText(m, PlaybackId, playback) && HasNumber(m, QueueItemId, id)
       case PlaybackState(playback, id, status, ms) =>
         && IsVariant(v, 19) && HasName(m, Status, PlayerStatuses, status) && HasText(m, PlaybackId, playback)
         && HasNumber(m, PositionMs, ms) && HasNumber(m, QueueItemId, id)
  }
}
