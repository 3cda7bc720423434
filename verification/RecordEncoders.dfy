/** The record encoders, proved to write exactly the encoding of the record they are given. */
module RecordEncoders {
  import opened Octets
  import opened Cbor
  import opened Fields
  import opened Readers
  import opened OutputBuffer
  import opened RecordWriter
  import opened PlayerRecords
  import opened ImportRecords
  import opened NodeReports
  import opened SettingsRecords

  function One(present: bool): nat
  {
    if present then 1 else 0
  }

  lemma CountSix(fs: seq<Field>, i: nat)
    requires i + 6 <= |fs|
    ensures CountPresent(fs[i..]) ==
            One(fs[i].value.Some?) + One(fs[i + 1].value.Some?) + One(fs[i + 2].value.Some?)
            + One(fs[i + 3].value.Some?) + One(fs[i + 4].value.Some?) + One(fs[i + 5].value.Some?)
            + CountPresent(fs[i + 6..])
  {
    hide CountPresent;
    CountStep(fs, i);
    CountStep(fs, i + 1);
    CountStep(fs, i + 2);
    CountStep(fs, i + 3);
    CountStep(fs, i + 4);
    CountStep(fs, i + 5);
  }

  lemma QueueItemCount(q: QueueItem)
    ensures |QueueItemFields(q)| == 6
    ensures CountPresent(QueueItemFields(q)) ==
            2 + One(q.title.Some?) + One(q.artist.Some?) + One(q.library.Some?) + One(q.durationMs.Some?)
  {
    hide EnumValue, CountPresent;
    var fs := QueueItemFields(q);
    CountAll(fs);
    CountSix(fs, 0);
  }

  lemma CountAll(fs: seq<Field>)
    ensures CountPresent(fs[0..]) == CountPresent(fs) && CountPresent(fs[|fs|..]) == 0
  {
    assert fs[0..] == fs;
  }

  /** The fields of a queue item up to its library. */
  method PutItemLabels(b: Buf, q: QueueItem, ghost before: seq<Octet>, ghost fs: seq<Field>) returns (ok: bool)
    requires fs == QueueItemFields(q) && At(b, before, fs, 0, true)
    modifies b, b.data
    ensures b.Valid() && (b.data == old(b.data) || fresh(b.data))
    ensures At(b, before, fs, 3, ok)
  {
    hide b.Wrote, Upto, Enc, Record, TextField, OptTextField, UIntField, OptUIntField, OptEnumField;
    ok := PutOptText(b, Title, q.title, before, fs, 0);
    if !ok { return; }
    ok := PutOptText(b, Artist, q.artist, before, fs, 1);
    if !ok { return; }
    ok := PutOptEnum(b, LibraryKey, Libraries, q.library, before, fs, 2);
  }

  /** The fields of a queue item from its track on. */
  method PutItemIds(b: Buf, q: QueueItem, ghost before: seq<Octet>, ghost fs: seq<Field>) returns (ok: bool)
    requires fs == QueueItemFields(q) && At(b, before, fs, 3, true)
    modifies b, b.data
    ensures b.Valid() && (b.data == old(b.data) || fresh(b.data))
    ensures At(b, before, fs, 6, ok)
  {
    hide b.Wrote, Upto, Enc, Record, TextField, OptTextField, UIntField, OptUIntField, OptEnumField;
    ok := PutText(b, TrackId, q.trackId, before, fs, 3);
    if !ok { return; }
    ok := PutOptUInt(b, DurationMs, q.durationMs, before, fs, 4);
    if !ok { return; }
    ok := PutUInt(b, QueueItemId, q.queueItemId, before, fs, 5);
  }

  method EncodeQueueItem(b: Buf, q: QueueItem) returns (ok: bool)
    requires b.Valid()
    modifies b, b.data
    ensures b.Valid() && (b.data == old(b.data) || fresh(b.data))
    ensures b.Wrote(old(b.Contents()), Enc(QueueItemValue(q)), ok)
  {
    hide b.Wrote, Upto, Enc, CountPresent, Record, QueueItemFields;
    ghost var before, fs := b.Contents(), QueueItemFields(q);
    var n: U64 := 2;
    if q.title.Some? { n := n + 1; }
    if q.artist.Some? { n := n + 1; }
    if q.library.Some? { n := n + 1; }
    if q.durationMs.Some? { n := n + 1; }
    QueueItemCount(q);
    ok := BeginRecord(b, n, fs);
    if !ok { return; }
    ok := PutItemLabels(b, q, before, fs);
    if !ok { return; }
    ok := PutItemIds(b, q, before, fs);
    Finished(b, before, fs, ok);
  }

  // ----- lists of records -----

  /** The queue of a player state, after its key. */
  method EncodeQueue(b: Buf, queue: seq<QueueItem>) returns (ok: bool)
    requires b.Valid() && |queue| <= SIZE_MAX
    modifies b, b.data
    ensures b.Valid() && (b.data == old(b.data) || fresh(b.data))
    ensures b.Wrote(old(b.Contents()), Enc(Array(WriteAll(queue, QueueItemValue))), ok)
  {
    hide b.Wrote, Enc, EncItems, QueueItemValue;
    ghost var before, vs := b.Contents(), WriteAll(queue, QueueItemValue);
    ok := BeginList(b, |queue|, vs);
    if !ok { return; }
    var i := 0;
    while i < |queue|
      invariant i <= |queue| && (b.data == old(b.data) || fresh(b.data))
      invariant InList(b, before, vs, i, true)
    {
      ListSoFar(b, before, vs, i);
      ok := EncodeQueueItem(b, queue[i]);
      ItemWritten(b, before, vs, i, ok);
      if !ok { return; }
      i := i + 1;
    }
    ListWritten(b, before, vs, true);
    return true;
  }

  method EncodeChunks(b: Buf, chunks: seq<TransferChunk>) returns (ok: bool)
    requires b.Valid() && |chunks| <= SIZE_MAX
    modifies b, b.data
    ensures b.Valid() && (b.data == old(b.data) || fresh(b.data))
    ensures b.Wrote(old(b.Contents()), Enc(Array(WriteAll(chunks, ChunkValue))), ok)
  {
    hide b.Wrote, Enc, EncItems, ChunkValue;
    ghost var before, vs := b.Contents(), WriteAll(chunks, ChunkValue);
    ok := BeginList(b, |chunks|, vs);
    if !ok { return; }
    var i := 0;
    while i < |chunks|
      invariant i <= |chunks| && (b.data == old(b.data) || fresh(b.data))
      invariant InList(b, before, vs, i, true)
    {
      ListSoFar(b, before, vs, i);
      ok := EncodeChunk(b, chunks[i]);
      ItemWritten(b, before, vs, i, ok);
      if !ok { return; }
      i := i + 1;
    }
    ListWritten(b, before, vs, true);
    return true;
  }

  method EncodeFiles(b: Buf, files: seq<TransferFile>) returns (ok: bool)
    requires b.Valid() && |files| <= SIZE_MAX && forall i :: 0 <= i < |files| ==> |files[i].chunks| <= SIZE_MAX
    modifies b, b.data
    ensures b.Valid() && (b.data == old(b.data) || fresh(b.data))
    ensures b.Wrote(old(b.Contents()), Enc(Array(WriteAll(files, FileValue))), ok)
  {
    hide b.Wrote, Enc, EncItems, FileValue;
    ghost var before, vs := b.Contents(), WriteAll(files, FileValue);
    ok := BeginList(b, |files|, vs);
    if !ok { return; }
    var i := 0;
    while i < |files|
      invariant i <= |files| && (b.data == old(b.data) || fresh(b.data))
      invariant InList(b, before, vs, i, true)
    {
      ListSoFar(b, before, vs, i);
      ok := EncodeFile(b, files[i]);
      ItemWritten(b, before, vs, i, ok);
      if !ok { return; }
      i := i + 1;
    }
    ListWritten(b, before, vs, true);
    return true;
  }

  // ----- records with lists -----

  lemma PlayerStateCount(ps: PlayerState)
    ensures |PlayerStateFields(ps)| == 12
    ensures CountPresent(PlayerStateFields(ps)) ==
            8 + One(ps.error.Some?) + One(ps.playbackId.Some?) + One(ps.positionMs.Some?) + One(ps.currentIndex.Some?)
  {
    hide EnumValue, CountPresent, WriteAll, QueueItemValue;
    var fs := PlayerStateFields(ps);
    CountAll(fs);
    CountSix(fs, 0);
    CountSix(fs, 6);
  }

  /** A list field, after its key. */
  lemma ListFieldWritten(b: Buf, before: seq<Octet>, key: Key, vs: seq<Value>, fs: seq<Field>, j: nat, ok: bool)
    requires b.Valid() && j < |fs| <= 24 && fs[j] == ListField(key, vs)
    requires b.Wrote(before + (Upto(fs, j) + Enc(Text(Name(key)))), Enc(Array(vs)), ok)
    ensures At(b, before, fs, j + 1, ok)
  {
    hide Enc, Upto, b.Wrote;
    ValueWritten(b, before, fs, j, ok);
  }

  method PutQueue(b: Buf, queue: seq<QueueItem>, ghost before: seq<Octet>, ghost fs: seq<Field>, ghost j: nat)
    returns (ok: bool)
    requires |queue| <= SIZE_MAX && j < |fs| <= 24 && At(b, before, fs, j, true)
    requires fs[j] == ListField(Queue, WriteAll(queue, QueueItemValue))
    modifies b, b.data
    ensures b.Valid() && (b.data == old(b.data) || fresh(b.data))
    ensures At(b, before, fs, j + 1, ok)
  {
    hide Upto, Name, Enc, Record, WriteAll;
    ok := PutKey(b, Queue, before, fs, j);
    if !ok { return; }
    b.StartedFits(before, Upto(fs, j) + Enc(Text(Name(Queue))));
    ok := EncodeQueue(b, queue);
    ListFieldWritten(b, before, Queue, WriteAll(queue, QueueItemValue), fs, j, ok);
  }

  method PutChunks(b: Buf, chunks: seq<TransferChunk>, ghost before: seq<Octet>, ghost fs: seq<Field>, ghost j: nat)
    returns (ok: bool)
    requires |chunks| <= SIZE_MAX && j < |fs| <= 24 && At(b, before, fs, j, true)
    requires fs[j] == ListField(Chunks, WriteAll(chunks, ChunkValue))
    modifies b, b.data
    ensures b.Valid() && (b.data == old(b.data) || fresh(b.data))
    ensures At(b, before, fs, j + 1, ok)
  {
    hide Upto, Name, Enc, Record, WriteAll;
    ok := PutKey(b, Chunks, before, fs, j);
    if !ok { return; }
    b.StartedFits(before, Upto(fs, j) + Enc(Text(Name(Chunks))));
    ok := EncodeChunks(b, chunks);
    ListFieldWritten(b, before, Chunks, WriteAll(chunks, ChunkValue), fs, j, ok);
  }

  method PutFiles(b: Buf, files: seq<TransferFile>, ghost before: seq<Octet>, ghost fs: seq<Field>, ghost j: nat)
    returns (ok: bool)
    requires |files| <= SIZE_MAX && forall i :: 0 <= i < |files| ==> |files[i].chunks| <= SIZE_MAX
    requires j < |fs| <= 24 && At(b, before, fs, j, true)
    requires fs[j] == ListField(Files, WriteAll(files, FileValue))
    modifies b, b.data
    ensures b.Valid() && (b.data == old(b.data) || fresh(b.data))
    ensures At(b, before, fs, j + 1, ok)
  {
    hide Upto, Name, Enc, Record, WriteAll;
    ok := PutKey(b, Files, before, fs, j);
    if !ok { return; }
    b.StartedFits(before, Upto(fs, j) + Enc(Text(Name(Files))));
    ok := EncodeFiles(b, files);
    ListFieldWritten(b, before, Files, WriteAll(files, FileValue), fs, j, ok);
  }

  /** The fields of a player state up to its status. */
  method PutShortKeys(b: Buf, ps: PlayerState, ghost before: seq<Octet>, ghost fs: seq<Field>) returns (ok: bool)
    requires fs == PlayerStateFields(ps) && |ps.queue| <= SIZE_MAX && At(b, before, fs, 0, true)
    modifies b, b.data
    ensures b.Valid() && (b.data == old(b.data) || fresh(b.data))
    ensures At(b, before, fs, 3, ok)
  {
    hide b.Wrote, Upto, Enc, Record, TextField, OptTextField, UIntField, OptUIntField, BoolField, EnumField, ListField,
         WriteAll;
    ok := PutOptText(b, Error, ps.error, before, fs, 0);
    if !ok { return; }
    ok := PutQueue(b, ps.queue, before, fs, 1);
    if !ok { return; }
    ok := PutEnum(b, Status, PlayerStatuses, ps.status, before, fs, 2);
  }

  /** The fields of a player state from its volume to can_undo. */
  method PutControls(b: Buf, ps: PlayerState, ghost before: seq<Octet>, ghost fs: seq<Field>) returns (ok: bool)
    requires fs == PlayerStateFields(ps) && At(b, before, fs, 3, true)
    modifies b, b.data
    ensures b.Valid() && (b.data == old(b.data) || fresh(b.data))
    ensures At(b, before, fs, 6, ok)
  {
    hide b.Wrote, Upto, Enc, Record, TextField, OptTextField, UIntField, OptUIntField, BoolField, EnumField, ListField,
         WriteAll;
    ok := PutUInt(b, Volume, ps.volume, before, fs, 3);
    if !ok { return; }
    ok := PutBool(b, Shuffle, ps.shuffle, before, fs, 4);
    if !ok { return; }
    ok := PutBool(b, CanUndo, ps.canUndo, before, fs, 5);
  }

  /** The fields of a player state from revision on. */
  method PutLongKeys(b: Buf, ps: PlayerState, ghost before: seq<Octet>, ghost fs: seq<Field>) returns (ok: bool)
    requires fs == PlayerStateFields(ps) && At(b, before, fs, 6, true)
    modifies b, b.data
    ensures b.Valid() && (b.data == old(b.data) || fresh(b.data))
    ensures At(b, before, fs, 12, ok)
  {
    hide b.Wrote, Upto, Enc, Record, TextField, OptTextField, UIntField, OptUIntField, BoolField, EnumField, ListField,
         WriteAll;
    ok := PutUInt(b, Revision, ps.revision, before, fs, 6);
    if !ok { return; }
    ok := PutText(b, PlayerId, ps.playerId, before, fs, 7);
    if !ok { return; }
    ok := PutOptText(b, PlaybackId, ps.playbackId, before, fs, 8);
    if !ok { return; }
    ok := PutOptUInt(b, PositionMs, ps.positionMs, before, fs, 9);
    if !ok { return; }
    ok := PutEnum(b, RepeatModeKey, RepeatModes, ps.repeatMode, before, fs, 10);
    if !ok { return; }
    ok := PutOptUInt(b, CurrentIndex, ps.currentIndex, before, fs, 11);
  }

  method EncodePlayerState(b: Buf, ps: PlayerState) returns (ok: bool)
    requires b.Valid() && |ps.queue| <= SIZE_MAX
    modifies b, b.data
    ensures b.Valid() && (b.data == old(b.data) || fresh(b.data))
    ensures b.Wrote(old(b.Contents()), Enc(PlayerStateValue(ps)), ok)
  {
    hide b.Wrote, Upto, Enc, CountPresent, Record, PlayerStateFields;
    ghost var before, fs := b.Contents(), PlayerStateFields(ps);
    var n: U64 := 8;
    if ps.error.Some? { n := n + 1; }
    if ps.playbackId.Some? { n := n + 1; }
    if ps.positionMs.Some? { n := n + 1; }
    if ps.currentIndex.Some? { n := n + 1; }
    PlayerStateCount(ps);
    ok := BeginRecord(b, n, fs);
    if !ok { return; }
    ok := PutShortKeys(b, ps, before, fs);
    if !ok { return; }
    ok := PutControls(b, ps, before, fs);
    if !ok { return; }
    ok := PutLongKeys(b, ps, before, fs);
    Finished(b, before, fs, ok);
  }

  lemma ChunkCount(c: TransferChunk)
    ensures CountPresent(ChunkFields(c)) == 4
  {
    hide CountPresent;
    var fs := ChunkFields(c);
    CountAll(fs);
    CountStep(fs, 0);
    CountStep(fs, 1);
    CountStep(fs, 2);
    CountStep(fs, 3);
  }

  method EncodeChunk(b: Buf, c: TransferChunk) returns (ok: bool)
    requires b.Valid()
    modifies b, b.data
    ensures b.Valid() && (b.data == old(b.data) || fresh(b.data))
    ensures b.Wrote(old(b.Contents()), Enc(ChunkValue(c)), ok)
  {
    hide b.Wrote, Upto, Enc, CountPresent, Record, TextField, UIntField;
    ghost var before, fs := b.Contents(), ChunkFields(c);
    ChunkCount(c);
    ok := BeginRecord(b, 4, fs);
    if !ok { return; }
    ok := PutUInt(b, Size, c.size, before, fs, 0);
    if !ok { return; }
    ok := PutUInt(b, Index, c.index, before, fs, 1);
    if !ok { return; }
    ok := PutUInt(b, Offset, c.offset, before, fs, 2);
    if !ok { return; }
    ok := PutText(b, Sha256, c.sha256, before, fs, 3);
    Finished(b, before, fs, ok);
  }

  lemma FileCount(f: TransferFile)
    ensures CountPresent(FileFields(f)) == 5
  {
    hide CountPresent, WriteAll;
    var fs := FileFields(f);
    CountAll(fs);
    CountStep(fs, 0);
    CountStep(fs, 1);
    CountStep(fs, 2);
    CountStep(fs, 3);
    CountStep(fs, 4);
  }

  method EncodeFile(b: Buf, f: TransferFile) returns (ok: bool)
    requires b.Valid() && |f.chunks| <= SIZE_MAX
    modifies b, b.data
    ensures b.Valid() && (b.data == old(b.data) || fresh(b.data))
    ensures b.Wrote(old(b.Contents()), Enc(FileValue(f)), ok)
  {
    hide b.Wrote, Upto, Enc, CountPresent, Record, TextField, UIntField, ListField, WriteAll;
    ghost var before, fs := b.Contents(), FileFields(f);
    FileCount(f);
    ok := BeginRecord(b, 5, fs);
    if !ok { return; }
    ok := PutChunks(b, f.chunks, before, fs, 0);
    if !ok { return; }
    ok := PutText(b, Sha256, f.sha256, before, fs, 1);
    if !ok { return; }
    ok := PutUInt(b, SizeBytes, f.sizeBytes, before, fs, 2);
    if !ok { return; }
    ok := PutText(b, ContentType, f.contentType, before, fs, 3);
    if !ok { return; }
    ok := PutText(b, RootRelativePath, f.rootRelativePath, before, fs, 4);
    Finished(b, before, fs, ok);
  }

  lemma ImportCount(r: BeginImportRequest)
    ensures CountPresent(ImportFields(r)) == 2 + One(r.library.Some?)
  {
    hide CountPresent, WriteAll, EnumValue;
    var fs := ImportFields(r);
    CountAll(fs);
    CountStep(fs, 0);
    CountStep(fs, 1);
    CountStep(fs, 2);
  }

  method EncodeImport(b: Buf, r: BeginImportRequest) returns (ok: bool)
    requires b.Valid() && ListsCountable(r)
    modifies b, b.data
    ensures b.Valid() && (b.data == old(b.data) || fresh(b.data))
    ensures b.Wrote(old(b.Contents()), Enc(ImportValue(r)), ok)
  {
    hide b.Wrote, Upto, Enc, CountPresent, Record, UIntField, OptEnumField, ListField, WriteAll;
    ghost var before, fs := b.Contents(), ImportFields(r);
    var n: U64 := 2;
    if r.library.Some? { n := n + 1; }
    ImportCount(r);
    ok := BeginRecord(b, n, fs);
    if !ok { return; }
    ok := PutFiles(b, r.files, before, fs, 0);
    if !ok { return; }
    ok := PutOptEnum(b, LibraryKey, Libraries, r.library, before, fs, 1);
    if !ok { return; }
    ok := PutUInt(b, TrackFileIndex, r.trackFileIndex, before, fs, 2);
    Finished(b, before, fs, ok);
  }

  lemma ReportCount(r: NodeReport)
    ensures |ReportFields(r)| == 8
    ensures CountPresent(ReportFields(r)) ==
            2 + One(r.error.Some?) + One(r.event.Some?) + One(r.playbackId.Some?) + One(r.positionMs.Some?)
              + One(r.audioBlocked.Some?) + One(r.queueItemId.Some?)
  {
    hide CountPresent, EnumValue;
    var fs := ReportFields(r);
    CountAll(fs);
    CountSix(fs, 0);
    CountStep(fs, 6);
    CountStep(fs, 7);
  }

  /** The fields of a report up to its player_id. */
  method PutReportOrigin(b: Buf, r: NodeReport, ghost before: seq<Octet>, ghost fs: seq<Field>) returns (ok: bool)
    requires fs == ReportFields(r) && At(b, before, fs, 0, true)
    modifies b, b.data
    ensures b.Valid() && (b.data == old(b.data) || fresh(b.data))
    ensures At(b, before, fs, 4, ok)
  {
    hide b.Wrote, Upto, Enc, Record, TextField, OptTextField, OptUIntField, OptBoolField, EnumField, OptEnumField;
    ok := PutOptText(b, Error, r.error, before, fs, 0);
    if !ok { return; }
    ok := PutOptEnum(b, Event, NodeEvents, r.event, before, fs, 1);
    if !ok { return; }
    ok := PutEnum(b, Status, PlayerStatuses, r.status, before, fs, 2);
    if !ok { return; }
    ok := PutText(b, PlayerId, r.playerId, before, fs, 3);
  }

  /** The fields of a report after its player_id. */
  method PutReportDetails(b: Buf, r: NodeReport, ghost before: seq<Octet>, ghost fs: seq<Field>) returns (ok: bool)
    requires fs == ReportFields(r) && At(b, before, fs, 4, true)
    modifies b, b.data
    ensures b.Valid() && (b.data == old(b.data) || fresh(b.data))
    ensures At(b, before, fs, 8, ok)
  {
    hide b.Wrote, Upto, Enc, Record, TextField, OptTextField, OptUIntField, OptBoolField, EnumField, OptEnumField;
    ok := PutOptText(b, PlaybackId, r.playbackId, before, fs, 4);
    if !ok { return; }
    ok := PutOptUInt(b, PositionMs, r.positionMs, before, fs, 5);
    if !ok { return; }
    ok := PutOptBool(b, AudioBlocked, r.audioBlocked, before, fs, 6);
    if !ok { return; }
    ok := PutOptUInt(b, QueueItemId, r.queueItemId, before, fs, 7);
  }

  method EncodeReport(b: Buf, r: NodeReport) returns (ok: bool)
    requires b.Valid()
    modifies b, b.data
    ensures b.Valid() && (b.data == old(b.data) || fresh(b.data))
    ensures b.Wrote(old(b.Contents()), Enc(ReportValue(r)), ok)
  {
    hide b.Wrote, Upto, Enc, CountPresent, Record, ReportFields;
    ghost var before, fs := b.Contents(), ReportFields(r);
    var n: U64 := 2;
    if r.error.Some? { n := n + 1; }
    if r.event.Some? { n := n + 1; }
    if r.playbackId.Some? { n := n + 1; }
    if r.positionMs.Some? { n := n + 1; }
    if r.audioBlocked.Some? { n := n + 1; }
    if r.queueItemId.Some? { n := n + 1; }
    ReportCount(r);
    ok := BeginRecord(b, n, fs);
    if !ok { return; }
    ok := PutReportOrigin(b, r, before, fs);
    if !ok { return; }
    ok := PutReportDetails(b, r, before, fs);
    Finished(b, before, fs, ok);
  }

  // ----- the caller's entries -----

  /** One entry: its key, then its text. */
  method EncodeEntry(b: Buf, e: Entry) returns (ok: bool)
    requires b.Valid()
    modifies b, b.data
    ensures b.Valid() && (b.data == old(b.data) || fresh(b.data))
    ensures b.Wrote(old(b.Contents()), EncPair(EntryPair(e)), ok)
  {
    hide b.Wrote, ShortHead;
    ghost var before, key, text := b.Contents(), Enc(Text(e.key)), Enc(Text(e.text));
    ok := b.WriteString(3, e.key);
    if !ok {
      b.GiveUp(before, key, text);
      return;
    }
    b.StartedFits(before, key);
    ok := b.WriteString(3, e.text);
    b.Compose(before, key, text, ok);
  }

  lemma EntryWritten(b: Buf, before: seq<Octet>, h: seq<Octet>, pairs: seq<Pair>, i: nat, ok: bool)
    requires b.Valid() && i < |pairs|
    requires b.Wrote(before + (h + EncPairs(pairs[..i])), EncPair(pairs[i]), ok)
    ensures b.Wrote(before, h + EncPairs(pairs[..i + 1]), ok)
  {
    hide b.Wrote, EncPair;
    b.Compose(before, h + EncPairs(pairs[..i]), EncPair(pairs[i]), ok);
    EncPairsSnoc(pairs, i);
    Associates(h, EncPairs(pairs[..i]), EncPair(pairs[i]));
  }

  /** The entry loop: a map head with the caller's count, then the entries in the caller's order. */
  method EncodeEntries(b: Buf, es: seq<Entry>) returns (ok: bool)
    requires b.Valid() && |es| <= SIZE_MAX
    modifies b, b.data
    ensures b.Valid() && (b.data == old(b.data) || fresh(b.data))
    ensures b.Wrote(old(b.Contents()), Enc(Map(EntryPairs(es))), ok)
  {
    hide b.Wrote, ShortHead, EncPair, EntryPair, EncPairs;
    ghost var before, h, pairs := b.Contents(), ShortHead(5, |es|), EntryPairs(es);
    ok := b.WriteHead(5, |es|);
    if !ok {
      b.GiveUp(before, h, EncPairs(pairs));
      return;
    }
    NoPairs(h, pairs);
    var i := 0;
    while i < |es|
      invariant i <= |es| && b.Valid() && (b.data == old(b.data) || fresh(b.data))
      invariant b.Wrote(before, h + EncPairs(pairs[..i]), true)
    {
      b.StartedFits(before, h + EncPairs(pairs[..i]));
      ok := EncodeEntry(b, es[i]);
      EntryWritten(b, before, h, pairs, i, ok);
      if !ok {
        b.PairsStopped(before, h, pairs, i + 1);
        return;
      }
      i := i + 1;
    }
    assert pairs[..i] == pairs;
    return true;
  }

  lemma NoPairs(h: seq<Octet>, pairs: seq<Pair>)
    ensures h + EncPairs(pairs[..0]) == h
  {
    NothingBefore(h);
  }

  method EncodeSettings(b: Buf, s: Settings) returns (ok: bool)
    requires b.Valid() && |s.entries| <= SIZE_MAX
    modifies b, b.data
    ensures b.Valid() && (b.data == old(b.data) || fresh(b.data))
    ensures b.Wrote(old(b.Contents()), Enc(SettingsValue(s)), ok)
  {
    hide b.Wrote, Upto, Enc, CountPresent, Record, EntryPairs, Name;
    ghost var before, fs := b.Contents(), SettingsFields(s);
    SettingsCount(s);
    ok := BeginRecord(b, 1, fs);
    if !ok { return; }
    ok := PutKey(b, Entries, before, fs, 0);
    if !ok { return; }
    b.StartedFits(before, Upto(fs, 0) + Enc(Text(Name(Entries))));
    ok := EncodeEntries(b, s.entries);
    ValueWritten(b, before, fs, 0, ok);
    Finished(b, before, fs, ok);
  }

  lemma SettingsCount(s: Settings)
    ensures CountPresent(SettingsFields(s)) == 1
  {
    hide EntryPairs;
  }
}
