/** Which trees, and which bytes, each record is decoded from: exactly those that have its form. */
module Acceptance {
  import opened Octets
  import opened Cbor
  import opened Grammar
  import opened Codec
  import opened Fields
  import opened Readers
  import opened PlayerRecords
  import opened ImportRecords
  import opened NodeReports
  import opened SettingsRecords
  import opened Commands
  import opened WireTexts
  import opened WireForms

  // ----- fields -----

  lemma FoundUnder(m: Value, k: Key)
    ensures Find(m, k) == Under(m, k)
  {
    hide Name, KeyOctets;
    KeySpelt(k);
  }

  lemma NumberRead(m: Value, k: Key, u: U64)
    ensures AsU64(Find(m, k)) == Some(u) <==> HasNumber(m, k, u)
  {
    hide Find, Under;
    FoundUnder(m, k);
  }

  lemma FlagRead(m: Value, k: Key, b: bool)
    ensures AsBool(Find(m, k)) == Some(b) <==> HasFlag(m, k, b)
  {
    hide Find, Under;
    FoundUnder(m, k);
  }

  lemma TextRead(m: Value, k: Key, s: CString)
    ensures GetText(Find(m, k)) == Some(s) <==> HasText(m, k, s)
  {
    hide Find, Under, CStr;
    FoundUnder(m, k);
  }

  lemma OptNumberRead(m: Value, k: Key, u: Option<U64>)
    ensures Optional(Find(m, k), AsU64) == Some(u) <==> MayHaveNumber(m, k, u)
  {
    hide Find, Under;
    FoundUnder(m, k);
  }

  lemma OptFlagRead(m: Value, k: Key, b: Option<bool>)
    ensures Optional(Find(m, k), AsBool) == Some(b) <==> MayHaveFlag(m, k, b)
  {
    hide Find, Under;
    FoundUnder(m, k);
  }

  lemma OptTextRead(m: Value, k: Key, s: Option<CString>)
    ensures GetText(Find(m, k)) == s <==> MayHaveText(m, k, s)
  {
    hide Find, Under, CStr;
    FoundUnder(m, k);
  }

  /** A constant is read from its own text and from no other. */
  lemma NameIs(t: EnumType, f: Option<Value>, e: nat)
    ensures ReadEnum(t, f) == Some(e) <==> f.Some? && IsName(f.value, t, e)
  {
    hide Ascii, Texts, NameOctets, FindText;
    EnumSpelt(t, 0);
    if e < Constants(t) {
      EnumSpelt(t, e);
      FindOwnText(t, e, 0);
    }
  }

  lemma NameRead(m: Value, k: Key, t: EnumType, e: nat)
    ensures ReadEnum(t, Find(m, k)) == Some(e) <==> HasName(m, k, t, e)
  {
    hide Find, Under, ReadEnum, IsName;
    FoundUnder(m, k);
    NameIs(t, Find(m, k), e);
  }

  lemma OptLibraryRead(m: Value, k: Key, e: Option<Library>)
    ensures Optional(Find(m, k), ReadLibrary) == Some(e) <==> MayHaveName(m, k, Libraries, e)
  {
    hide Find, Under, ReadEnum, IsName;
    FoundUnder(m, k);
    if e.Some? { NameIs(Libraries, Find(m, k), e.value); }
  }

  lemma OptEventRead(m: Value, k: Key, e: Option<NodeEvent>)
    ensures Optional(Find(m, k), ReadNodeEvent) == Some(e) <==> MayHaveName(m, k, NodeEvents, e)
  {
    hide Find, Under, ReadEnum, IsName;
    FoundUnder(m, k);
    if e.Some? { NameIs(NodeEvents, Find(m, k), e.value); }
  }

  /** A list is read exactly when each of its elements is. */
  lemma {:induction false} AllRead<T(!new)>(vs: seq<Value>, ts: seq<T>, read: Value -> Option<T>,
                                            says: (Value, T) -> bool)
    requires forall v, t :: read(v) == Some(t) <==> says(v, t)
    ensures ReadAll(vs, read) == Some(ts) <==> AreAll(vs, ts, says)
  {
    if vs != [] && ts != [] {
      var us, ss := vs[1..], ts[1..];
      AllRead(us, ss, read, says);
      assert AreAll(vs, ts, says) <==> says(vs[0], ts[0]) && AreAll(us, ss, says) by {
        if says(vs[0], ts[0]) && AreAll(us, ss, says) {
          forall i | 0 <= i < |ts| ensures says(vs[i], ts[i]) {
            if i > 0 { assert vs[i] == us[i - 1] && ts[i] == ss[i - 1]; }
          }
        } else if AreAll(vs, ts, says) {
          forall i | 0 <= i < |ss| ensures says(us[i], ss[i]) {
            assert vs[i + 1] == us[i] && ts[i + 1] == ss[i];
          }
        }
      }
      assert ts == [ts[0]] + ss;
    }
  }

  lemma ListRead<T(!new)>(m: Value, k: Key, ts: seq<T>, read: Value -> Option<T>, says: (Value, T) -> bool)
    requires forall v, t :: read(v) == Some(t) <==> says(v, t)
    ensures ListOf(Find(m, k), read) == Some(ts) <==> HasList(m, k, ts, says)
  {
    hide Find, Under, ReadAll, AreAll;
    FoundUnder(m, k);
    if Find(m, k).Some? && Find(m, k).value.Array? { AllRead(Find(m, k).value.items, ts, read, says); }
  }

  // ----- records -----

  lemma QueueItemRead(m: Value, q: QueueItem)
    ensures DecQueueItem(m) == Some(q) <==> IsQueueItem(m, q)
  {
    hide Find, GetText, Optional, AsU64, HasText, HasNumber, MayHaveText, MayHaveNumber, MayHaveName;
    OptTextRead(m, Title, q.title);
    OptTextRead(m, Artist, q.artist);
    OptLibraryRead(m, LibraryKey, q.library);
    TextRead(m, TrackId, q.trackId);
    OptNumberRead(m, DurationMs, q.durationMs);
    NumberRead(m, QueueItemId, q.queueItemId);
  }

  lemma QueueRead(m: Value, queue: seq<QueueItem>)
    ensures ListOf(Find(m, Queue), DecQueueItem) == Some(queue) <==> HasList(m, Queue, queue, IsQueueItem)
  {
    hide ListOf, Find, HasList, DecQueueItem, IsQueueItem;
    forall v, q ensures DecQueueItem(v) == Some(q) <==> IsQueueItem(v, q) {
      QueueItemRead(v, q);
    }
    ListRead(m, Queue, queue, DecQueueItem, IsQueueItem);
  }

  /** A tree is decoded to a state exactly when it is a map that holds each field of the state under its key. */
  lemma PlayerStateRead(m: Value, ps: PlayerState)
    ensures DecPlayerState(m) == Some(ps) <==> IsPlayerState(m, ps)
  {
    hide Find, GetText, Optional, AsU64, AsBool, ListOf, ReadEnum, DecQueueItem, IsQueueItem,
         HasText, HasNumber, HasFlag, HasName, HasList, MayHaveText, MayHaveNumber;
    OptTextRead(m, Error, ps.error);
    QueueRead(m, ps.queue);
    NameRead(m, Status, PlayerStatuses, ps.status);
    NumberRead(m, Volume, ps.volume);
    FlagRead(m, Shuffle, ps.shuffle);
    FlagRead(m, CanUndo, ps.canUndo);
    NumberRead(m, Revision, ps.revision);
    TextRead(m, PlayerId, ps.playerId);
    OptTextRead(m, PlaybackId, ps.playbackId);
    OptNumberRead(m, PositionMs, ps.positionMs);
    NameRead(m, RepeatModeKey, RepeatModes, ps.repeatMode);
    OptNumberRead(m, CurrentIndex, ps.currentIndex);
  }

  lemma ChunkRead(m: Value, c: TransferChunk)
    ensures DecChunk(m) == Some(c) <==> IsChunk(m, c)
  {
    hide Find, GetText, AsU64, HasText, HasNumber;
    NumberRead(m, Size, c.size);
    NumberRead(m, Index, c.index);
    NumberRead(m, Offset, c.offset);
    TextRead(m, Sha256, c.sha256);
  }

  lemma FileRead(m: Value, f: TransferFile)
    ensures DecFile(m) == Some(f) <==> IsFile(m, f)
  {
    hide Find, GetText, AsU64, ListOf, DecChunk, IsChunk, HasText, HasNumber, HasList;
    forall v, c ensures DecChunk(v) == Some(c) <==> IsChunk(v, c) {
      ChunkRead(v, c);
    }
    ListRead(m, Chunks, f.chunks, DecChunk, IsChunk);
    TextRead(m, Sha256, f.sha256);
    NumberRead(m, SizeBytes, f.sizeBytes);
    TextRead(m, ContentType, f.contentType);
    TextRead(m, RootRelativePath, f.rootRelativePath);
  }

  /** The same for import requests, at all three levels. */
  lemma ImportRead(m: Value, r: BeginImportRequest)
    ensures DecImport(m) == Some(r) <==> IsImport(m, r)
  {
    hide Find, Optional, AsU64, ListOf, DecFile, IsFile, HasNumber, HasList, MayHaveName;
    forall v, f ensures DecFile(v) == Some(f) <==> IsFile(v, f) {
      FileRead(v, f);
    }
    ListRead(m, Files, r.files, DecFile, IsFile);
    OptLibraryRead(m, LibraryKey, r.library);
    NumberRead(m, TrackFileIndex, r.trackFileIndex);
  }

  /** The same for node reports. */
  lemma ReportRead(m: Value, r: NodeReport)
    ensures DecReport(m) == Some(r) <==> IsReport(m, r)
  {
    hide Find, GetText, Optional, ReadEnum, HasText, HasName, MayHaveText, MayHaveNumber, MayHaveFlag, MayHaveName;
    OptTextRead(m, Error, r.error);
    OptEventRead(m, Event, r.event);
    NameRead(m, Status, PlayerStatuses, r.status);
    TextRead(m, PlayerId, r.playerId);
    OptTextRead(m, PlaybackId, r.playbackId);
    OptNumberRead(m, PositionMs, r.positionMs);
    OptFlagRead(m, AudioBlocked, r.audioBlocked);
    OptNumberRead(m, QueueItemId, r.queueItemId);
  }

  lemma {:induction false} EntriesRead(pairs: seq<Pair>, es: seq<Entry>)
    ensures ReadEntries(pairs) == Some(es) <==> AreEntries(pairs, es)
  {
    hide CStr;
    if pairs != [] && es != [] {
      var rest, tail := pairs[1..], es[1..];
      EntriesRead(rest, tail);
      assert AreEntries(pairs, es) <==> IsEntry(pairs[0], es[0]) && AreEntries(rest, tail) by {
        EntriesSplit(pairs, es);
      }
      assert es == [es[0]] + tail;
    }
  }

  lemma EntriesSplit(pairs: seq<Pair>, es: seq<Entry>)
    requires pairs != [] && es != []
    ensures AreEntries(pairs, es) <==> IsEntry(pairs[0], es[0]) && AreEntries(pairs[1..], es[1..])
  {
    hide IsEntry;
    var rest, tail := pairs[1..], es[1..];
    assert forall i :: 0 <= i < |rest| ==> rest[i] == pairs[i + 1];
    assert forall i :: 0 <= i < |tail| ==> tail[i] == es[i + 1];
    if IsEntry(pairs[0], es[0]) && AreEntries(rest, tail) {
      forall i | 0 <= i < |es| ensures IsEntry(pairs[i], es[i]) {
        if i > 0 { assert IsEntry(rest[i - 1], tail[i - 1]); }
      }
    }
  }

  /** The same for settings. */
  lemma SettingsRead(m: Value, s: Settings)
    ensures DecSettings(m) == Some(s) <==> IsSettings(m, s)
  {
    hide Find, Under, ReadEntries, AreEntries;
    FoundUnder(m, Entries);
    if Find(m, Entries).Some? && Find(m, Entries).value.Map? {
      EntriesRead(Find(m, Entries).value.pairs, s.entries);
    }
  }

  // ----- commands -----

  lemma VariantRead(v: Value, i: nat)
    requires i < VARIANTS
    ensures IsVariant(v, i) <==>
            && v.Array? && |v.items| == 2 && AsU64(Some(v.items[0])) == Some(i)
            && v.items[1].Map? && GetText(Find(v.items[1], Op)) == Some(OpText(i))
  {
    hide Find, Under, CStr, OpText, OpOctets;
    if v.Array? && |v.items| == 2 { FoundUnder(v.items[1], Op); }
    OpSpelt(i);
  }

  lemma CommandOpened(v: Value, c: PlayerCommand)
    ensures DecCommand(v) == Some(c) <==>
            IsVariant(v, VariantIndex(c)) && ReadArguments(VariantIndex(c), v.items[1]) == Some(c)
  {
    hide IsVariant, ReadArguments, OpText, Find, GetText, VariantIndex;
    VariantRead(v, VariantIndex(c));
  }

  lemma TrackIdsRead(m: Value, ids: seq<CString>)
    ensures ListOf(Find(m, TrackIds), ReadText) == Some(ids) <==> IsTrackIds(m, ids)
  {
    hide ListOf, Find, HasList, CStr;
    forall v, t: CString ensures ReadText(v) == Some(t) <==> IsText(v, t) {}
    ListRead(m, TrackIds, ids, ReadText, (v, t) => IsText(v, t));
  }

  /** The arguments of the variants that change the queue. */
  lemma QueueArgumentsRead(v: Value, c: PlayerCommand)
    requires VariantIndex(c) <= 6 && v.Array? && |v.items| == 2
    requires IsVariant(v, VariantIndex(c))
    ensures QueueArguments(VariantIndex(c), v.items[1]) == Some(c) <==> IsCommand(v, c)
  {
    hide QueueArguments, IsCommand, IsVariant;
    if VariantIndex(c) <= 1 {
      EnqueueRead(v, c);
    } else {
      QueueItemArgumentsRead(v, c);
    }
  }

  lemma EnqueueRead(v: Value, c: PlayerCommand)
    requires VariantIndex(c) <= 1 && v.Array? && |v.items| == 2
    requires IsVariant(v, VariantIndex(c))
    ensures QueueArguments(VariantIndex(c), v.items[1]) == Some(c) <==> IsCommand(v, c)
  {
    var m := v.items[1];
    hide IsVariant, Find, AsU64, Optional, ListOf, HasNumber, MayHaveNumber, IsTrackIds;
    TrackIdsRead(m, c.trackIds);
    if c.Enqueue? { OptNumberRead(m, AtIndex, c.atIndex); }
  }

  lemma QueueItemArgumentsRead(v: Value, c: PlayerCommand)
    requires 2 <= VariantIndex(c) <= 6 && v.Array? && |v.items| == 2
    requires IsVariant(v, VariantIndex(c))
    ensures QueueArguments(VariantIndex(c), v.items[1]) == Some(c) <==> IsCommand(v, c)
  {
    var m := v.items[1];
    hide IsVariant, Find, AsU64, Optional, ListOf, HasNumber, MayHaveNumber, IsTrackIds;
    match c {
      case Remove(i) => NumberRead(m, Index, i);
      case RemoveItem(id) => NumberRead(m, QueueItemId, id);
      case Reorder(from, to) => NumberRead(m, ToIndex, to); NumberRead(m, FromIndex, from);
      case MoveItem(id, before) => NumberRead(m, QueueItemId, id); OptNumberRead(m, BeforeQueueItemId, before);
      case Clear =>
    }
  }

  /** The arguments of the variants that control playback. */
  lemma TransportArgumentsRead(v: Value, c: PlayerCommand)
    requires 7 <= VariantIndex(c) <= 16 && v.Array? && |v.items| == 2
    requires IsVariant(v, VariantIndex(c))
    ensures TransportArguments(VariantIndex(c), v.items[1]) == Some(c) <==> IsCommand(v, c)
  {
    hide TransportArguments, IsCommand, IsVariant;
    if VariantIndex(c) <= 8 {
      PlayRead(v, c);
    } else {
      ControlArgumentsRead(v, c);
    }
  }

  lemma PlayRead(v: Value, c: PlayerCommand)
    requires 7 <= VariantIndex(c) <= 8 && v.Array? && |v.items| == 2
    requires IsVariant(v, VariantIndex(c))
    ensures TransportArguments(VariantIndex(c), v.items[1]) == Some(c) <==> IsCommand(v, c)
  {
    var m := v.items[1];
    hide IsVariant, Find, Optional, ListOf, MayHaveNumber, IsTrackIds;
    if c.Play? {
      OptNumberRead(m, Index, c.playIndex);
      OptNumberRead(m, QueueItemId, c.playQueueItemId);
    } else {
      TrackIdsRead(m, c.trackIds);
      OptNumberRead(m, PositionMs, c.startMs);
      OptNumberRead(m, StartIndex, c.startIndex);
    }
  }

  lemma ControlArgumentsRead(v: Value, c: PlayerCommand)
    requires 9 <= VariantIndex(c) <= 16 && v.Array? && |v.items| == 2
    requires IsVariant(v, VariantIndex(c))
    ensures TransportArguments(VariantIndex(c), v.items[1]) == Some(c) <==> IsCommand(v, c)
  {
    var m := v.items[1];
    hide IsVariant, Find, AsU64, AsBool, Optional, ListOf, ReadEnum, HasNumber, HasFlag, HasName, MayHaveNumber,
         IsTrackIds;
    match c {
      case Pause =>
      case Next =>
      case Previous =>
      case Seek(ms) => NumberRead(m, PositionMs, ms);
      case SetVolume(volume) => NumberRead(m, Volume, volume);
      case SetRepeat(mode) => NameRead(m, RepeatModeKey, RepeatModes, mode);
      case SetShuffle(on) => FlagRead(m, Shuffle, on);
      case Undo =>
    }
  }

  /** The arguments of the variants by which a node reports on playback. */
  lemma PlaybackArgumentsRead(v: Value, c: PlayerCommand)
    requires 17 <= VariantIndex(c) && v.Array? && |v.items| == 2
    requires IsVariant(v, VariantIndex(c))
    ensures PlaybackArguments(VariantIndex(c), v.items[1]) == Some(c) <==> IsCommand(v, c)
  {
    var m := v.items[1];
    hide IsVariant, Find, GetText, AsU64, ReadEnum, HasText, HasNumber, HasName;
    TextRead(m, PlaybackId, c.playbackId);
    NumberRead(m, QueueItemId, c.queueItemId);
    if c.PlaybackFailed? { TextRead(m, Error, c.error); }
    if c.PlaybackState? {
      NameRead(m, Status, PlayerStatuses, c.status);
      NumberRead(m, PositionMs, c.positionMs);
    }
  }

  lemma VariantShape(v: Value, i: nat)
    requires i < VARIANTS && IsVariant(v, i)
    ensures v.Array? && |v.items| == 2
  {
  }

  lemma CommandHasItsVariant(v: Value, c: PlayerCommand)
    requires IsCommand(v, c)
    ensures IsVariant(v, VariantIndex(c))
  {
    hide IsVariant, HasNumber, HasFlag, HasText, HasName, MayHaveNumber, IsTrackIds;
  }

  /** A value is decoded to a command exactly when it is the array of that variant's index and a record with that
      variant's name and arguments. */
  lemma CommandRead(v: Value, c: PlayerCommand)
    ensures DecCommand(v) == Some(c) <==> IsCommand(v, c)
  {
    hide IsVariant, IsCommand, DecCommand, QueueArguments, TransportArguments, PlaybackArguments, VariantIndex;
    CommandOpened(v, c);
    if IsCommand(v, c) { CommandHasItsVariant(v, c); }
    if IsVariant(v, VariantIndex(c)) {
      VariantShape(v, VariantIndex(c));
      if VariantIndex(c) <= 6 {
        QueueArgumentsRead(v, c);
      } else if VariantIndex(c) <= 16 {
        TransportArgumentsRead(v, c);
      } else {
        PlaybackArgumentsRead(v, c);
      }
    }
  }

  // ----- bytes -----

  /** The bytes are one data item that has the form of the state. */
  lemma PlayerStateAcceptance(b: seq<Octet>, ps: PlayerState)
    ensures DecodePlayerState(b) == Some(ps) <==>
            exists m :: Item(b, m, ROOT_ROOM, ACCEPTED) && IsPlayerState(m, ps)
  {
    hide Item, Decode, DecPlayerState, IsPlayerState;
    forall m ensures Decode(b) == Some(m) <==> Item(b, m, ROOT_ROOM, ACCEPTED) { ExactAcceptance(b, m); }
    forall m ensures DecPlayerState(m) == Some(ps) <==> IsPlayerState(m, ps) { PlayerStateRead(m, ps); }
    if DecodePlayerState(b) == Some(ps) {
      assert Item(b, Decode(b).value, ROOT_ROOM, ACCEPTED) && IsPlayerState(Decode(b).value, ps);
    }
  }

  lemma ImportAcceptance(b: seq<Octet>, r: BeginImportRequest)
    ensures DecodeImport(b) == Some(r) <==> exists m :: Item(b, m, ROOT_ROOM, ACCEPTED) && IsImport(m, r)
  {
    hide Item, Decode, DecImport, IsImport;
    forall m ensures Decode(b) == Some(m) <==> Item(b, m, ROOT_ROOM, ACCEPTED) { ExactAcceptance(b, m); }
    forall m ensures DecImport(m) == Some(r) <==> IsImport(m, r) { ImportRead(m, r); }
    if DecodeImport(b) == Some(r) {
      assert Item(b, Decode(b).value, ROOT_ROOM, ACCEPTED) && IsImport(Decode(b).value, r);
    }
  }

  lemma ReportAcceptance(b: seq<Octet>, r: NodeReport)
    ensures DecodeReport(b) == Some(r) <==> exists m :: Item(b, m, ROOT_ROOM, ACCEPTED) && IsReport(m, r)
  {
    hide Item, Decode, DecReport, IsReport;
    forall m ensures Decode(b) == Some(m) <==> Item(b, m, ROOT_ROOM, ACCEPTED) { ExactAcceptance(b, m); }
    forall m ensures DecReport(m) == Some(r) <==> IsReport(m, r) { ReportRead(m, r); }
    if DecodeReport(b) == Some(r) {
      assert Item(b, Decode(b).value, ROOT_ROOM, ACCEPTED) && IsReport(Decode(b).value, r);
    }
  }

  lemma SettingsAcceptance(b: seq<Octet>, s: Settings)
    ensures DecodeSettings(b) == Some(s) <==> exists m :: Item(b, m, ROOT_ROOM, ACCEPTED) && IsSettings(m, s)
  {
    hide Item, Decode, DecSettings, IsSettings;
    forall m ensures Decode(b) == Some(m) <==> Item(b, m, ROOT_ROOM, ACCEPTED) { ExactAcceptance(b, m); }
    forall m ensures DecSettings(m) == Some(s) <==> IsSettings(m, s) { SettingsRead(m, s); }
    if DecodeSettings(b) == Some(s) {
      assert Item(b, Decode(b).value, ROOT_ROOM, ACCEPTED) && IsSettings(Decode(b).value, s);
    }
  }

  lemma CommandAcceptance(b: seq<Octet>, c: PlayerCommand)
    ensures DecodeCommand(b) == Some(c) <==> exists v :: Item(b, v, ROOT_ROOM, ACCEPTED) && IsCommand(v, c)
  {
    hide Item, Decode, DecCommand, IsCommand;
    forall v ensures Decode(b) == Some(v) <==> Item(b, v, ROOT_ROOM, ACCEPTED) { ExactAcceptance(b, v); }
    forall v ensures DecCommand(v) == Some(c) <==> IsCommand(v, c) { CommandRead(v, c); }
    if DecodeCommand(b) == Some(c) {
      assert Item(b, Decode(b).value, ROOT_ROOM, ACCEPTED) && IsCommand(Decode(b).value, c);
    }
  }
}
