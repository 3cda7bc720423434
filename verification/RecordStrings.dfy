/** The strings of decoded records: they stand in the arena, they are UTF-8, and so every decoded record can be
    encoded again and read back. */
module RecordStrings {
  import opened Octets
  import opened Utf8
  import opened Cbor
  import opened Codec
  import opened Borrowing
  import opened Fields
  import opened Readers
  import opened TreeTexts
  import opened PlayerRecords
  import opened ImportRecords
  import opened NodeReports
  import opened Commands
  import opened SettingsRecords

  // ----- every string of a record passes a test -----

  ghost predicate ItemStrings(q: QueueItem, ok: seq<Octet> -> bool)
  {
    OptPasses(q.title, ok) && OptPasses(q.artist, ok) && ok(q.trackId)
  }

  ghost predicate StateStrings(ps: PlayerState, ok: seq<Octet> -> bool)
  {
    && OptPasses(ps.error, ok) && ok(ps.playerId) && OptPasses(ps.playbackId, ok)
    && forall i :: 0 <= i < |ps.queue| ==> ItemStrings(ps.queue[i], ok)
  }

  ghost predicate FileStrings(f: TransferFile, ok: seq<Octet> -> bool)
  {
    && ok(f.sha256) && ok(f.contentType) && ok(f.rootRelativePath)
    && forall i :: 0 <= i < |f.chunks| ==> ok(f.chunks[i].sha256)
  }

  ghost predicate ImportStrings(r: BeginImportRequest, ok: seq<Octet> -> bool)
  {
    forall i :: 0 <= i < |r.files| ==> FileStrings(r.files[i], ok)
  }

  ghost predicate ReportStrings(r: NodeReport, ok: seq<Octet> -> bool)
  {
    OptPasses(r.error, ok) && ok(r.playerId) && OptPasses(r.playbackId, ok)
  }

  ghost predicate CommandStrings(c: PlayerCommand, ok: seq<Octet> -> bool)
  {
    match c
    case Enqueue(ids, _) => forall i :: 0 <= i < |ids| ==> ok(ids[i])
    case EnqueueNext(ids) => forall i :: 0 <= i < |ids| ==> ok(ids[i])
    case ReplaceAndPlay(ids, _, _) => forall i :: 0 <= i < |ids| ==> ok(ids[i])
    case PlaybackCompleted(playback, _) => ok(playback)
    case PlaybackFailed(playback, _, error) => ok(playback) && ok(error)
    case PlaybackState(playback, _, _, _) => ok(playback)
    case _ => true
  }

  ghost predicate SettingsStrings(s: Settings, ok: seq<Octet> -> bool)
  {
    forall i :: 0 <= i < |s.entries| ==> ok(s.entries[i].key) && ok(s.entries[i].text)
  }

  // ----- the strings of a record come from the texts of its tree -----

  lemma ItemStringsPass(m: Value, good: seq<Octet> -> bool, ok: seq<Octet> -> bool)
    requires TextsPass(m, good) && SurvivesCut(good, ok) && DecQueueItem(m).Some?
    ensures ItemStrings(DecQueueItem(m).value, ok)
  {
    hide Find, TextsPass, SurvivesCut, GetText, ReadEnum;
    TextPasses(m, Title, good, ok);
    TextPasses(m, Artist, good, ok);
    TextPasses(m, TrackId, good, ok);
  }

  /** The items of an array pass the test that the array passes. */
  lemma ItemPasses(v: Value, good: seq<Octet> -> bool, i: nat)
    requires TextsPass(v, good) && v.Array? && i < |v.items|
    ensures TextsPass(v.items[i], good)
  {
  }

  lemma QueueStringsPass(v: Value, good: seq<Octet> -> bool, ok: seq<Octet> -> bool)
    requires TextsPass(v, good) && SurvivesCut(good, ok) && ListOf(Some(v), DecQueueItem).Some?
    ensures forall i :: 0 <= i < |v.items| ==> ItemStrings(ListOf(Some(v), DecQueueItem).value[i], ok)
  {
    hide TextsPass, SurvivesCut, DecQueueItem, ItemStrings, ReadAll;
    forall i | 0 <= i < |v.items| ensures ItemStrings(ListOf(Some(v), DecQueueItem).value[i], ok) {
      ItemPasses(v, good, i);
      ReadAllAt(v.items, DecQueueItem, i);
      ItemStringsPass(v.items[i], good, ok);
    }
  }

  lemma StateStringsPass(m: Value, good: seq<Octet> -> bool, ok: seq<Octet> -> bool)
    requires TextsPass(m, good) && SurvivesCut(good, ok) && DecPlayerState(m).Some?
    ensures StateStrings(DecPlayerState(m).value, ok)
  {
    hide Find, TextsPass, SurvivesCut, GetText, ReadEnum, DecQueueItem, ItemStrings;
    TextPasses(m, Error, good, ok);
    TextPasses(m, PlayerId, good, ok);
    TextPasses(m, PlaybackId, good, ok);
    FindPasses(m, Queue, good);
    QueueStringsPass(Find(m, Queue).value, good, ok);
  }

  lemma ChunkStringPasses(m: Value, good: seq<Octet> -> bool, ok: seq<Octet> -> bool)
    requires TextsPass(m, good) && SurvivesCut(good, ok) && DecChunk(m).Some?
    ensures ok(DecChunk(m).value.sha256)
  {
    hide Find, TextsPass, SurvivesCut, GetText;
    TextPasses(m, Sha256, good, ok);
  }

  lemma ChunkStringsPass(v: Value, good: seq<Octet> -> bool, ok: seq<Octet> -> bool)
    requires TextsPass(v, good) && SurvivesCut(good, ok) && ListOf(Some(v), DecChunk).Some?
    ensures forall i :: 0 <= i < |v.items| ==> ok(ListOf(Some(v), DecChunk).value[i].sha256)
  {
    hide TextsPass, SurvivesCut, DecChunk, ReadAll;
    forall i | 0 <= i < |v.items| ensures ok(ListOf(Some(v), DecChunk).value[i].sha256) {
      ItemPasses(v, good, i);
      ReadAllAt(v.items, DecChunk, i);
      ChunkStringPasses(v.items[i], good, ok);
    }
  }

  lemma FileStringsPass(m: Value, good: seq<Octet> -> bool, ok: seq<Octet> -> bool)
    requires TextsPass(m, good) && SurvivesCut(good, ok)
    ensures DecFile(m).Some? ==> FileStrings(DecFile(m).value, ok)
  {
    hide Find, TextsPass, SurvivesCut, GetText, DecChunk;
    if DecFile(m).Some? {
      TextPasses(m, Sha256, good, ok);
      TextPasses(m, ContentType, good, ok);
      TextPasses(m, RootRelativePath, good, ok);
      FindPasses(m, Chunks, good);
      ChunkStringsPass(Find(m, Chunks).value, good, ok);
    }
  }

  lemma ImportStringsPass(m: Value, good: seq<Octet> -> bool, ok: seq<Octet> -> bool)
    requires TextsPass(m, good) && SurvivesCut(good, ok) && DecImport(m).Some?
    ensures ImportStrings(DecImport(m).value, ok)
  {
    hide Find, TextsPass, SurvivesCut, ReadEnum, DecFile, FileStrings, ReadAll;
    FindPasses(m, Files, good);
    var v := Find(m, Files).value;
    forall i | 0 <= i < |v.items| ensures FileStrings(DecImport(m).value.files[i], ok) {
      ItemPasses(v, good, i);
      ReadAllAt(v.items, DecFile, i);
      FileStringsPass(v.items[i], good, ok);
    }
  }

  lemma ReportStringsPass(m: Value, good: seq<Octet> -> bool, ok: seq<Octet> -> bool)
    requires TextsPass(m, good) && SurvivesCut(good, ok) && DecReport(m).Some?
    ensures ReportStrings(DecReport(m).value, ok)
  {
    hide Find, TextsPass, SurvivesCut, GetText, ReadEnum;
    TextPasses(m, Error, good, ok);
    TextPasses(m, PlayerId, good, ok);
    TextPasses(m, PlaybackId, good, ok);
  }

  lemma IdsPass(m: Value, good: seq<Octet> -> bool, ok: seq<Octet> -> bool)
    requires TextsPass(m, good) && SurvivesCut(good, ok) && ListOf(Find(m, TrackIds), ReadText).Some?
    ensures var ids := ListOf(Find(m, TrackIds), ReadText).value; forall i :: 0 <= i < |ids| ==> ok(ids[i])
  {
    hide Find, CStr, ReadAll;
    FindPasses(m, TrackIds, good);
    var v := Find(m, TrackIds).value;
    forall i | 0 <= i < |v.items| ensures ok(ListOf(Some(v), ReadText).value[i]) {
      ItemPasses(v, good, i);
      ReadAllAt(v.items, ReadText, i);
    }
  }

  lemma PayloadStringsPass(i: nat, m: Value, good: seq<Octet> -> bool, ok: seq<Octet> -> bool)
    requires i < VARIANTS && TextsPass(m, good) && SurvivesCut(good, ok) && ReadArguments(i, m).Some?
    ensures CommandStrings(ReadArguments(i, m).value, ok)
  {
    hide Find, TextsPass, SurvivesCut, GetText, ReadEnum, ListOf;
    TextPasses(m, PlaybackId, good, ok);
    TextPasses(m, Error, good, ok);
    if ListOf(Find(m, TrackIds), ReadText).Some? { IdsPass(m, good, ok); }
  }

  lemma CommandStringsPass(v: Value, good: seq<Octet> -> bool, ok: seq<Octet> -> bool)
    requires TextsPass(v, good) && SurvivesCut(good, ok)
    ensures DecCommand(v).Some? ==> CommandStrings(DecCommand(v).value, ok)
  {
    hide Find, TextsPass, SurvivesCut, ReadArguments, OpText, CommandStrings;
    if DecCommand(v).Some? {
      ItemPasses(v, good, 1);
      PayloadStringsPass(AsU64(Some(v.items[0])).value, v.items[1], good, ok);
    }
  }

  lemma {:induction false} EntryStringsPass(pairs: seq<Pair>, good: seq<Octet> -> bool, ok: seq<Octet> -> bool)
    requires TextsPass(Map(pairs), good) && SurvivesCut(good, ok) && ReadEntries(pairs).Some?
    ensures SettingsStrings(Settings(ReadEntries(pairs).value), ok)
  {
    hide CStr;
    if pairs != [] {
      var rest := pairs[1..];
      assert PairPasses(pairs[0], good);
      assert forall i :: 0 <= i < |rest| ==> rest[i] == pairs[i + 1];
      EntryStringsPass(rest, good, ok);
    }
  }

  lemma SettingsStringsPass(m: Value, good: seq<Octet> -> bool, ok: seq<Octet> -> bool)
    requires TextsPass(m, good) && SurvivesCut(good, ok) && DecSettings(m).Some?
    ensures SettingsStrings(DecSettings(m).value, ok)
  {
    hide Find, TextsPass, SurvivesCut, ReadEntries, SettingsStrings;
    FindPasses(m, Entries, good);
    EntryStringsPass(Find(m, Entries).value.pairs, good, ok);
  }

  // ----- borrowed from the arena -----

  /** Nothing stored is longer than the address space. */
  ghost predicate Addressable(contents: seq<seq<Octet>>)
  {
    forall c :: c in contents ==> |c| <= SIZE_MAX
  }

  /** Every string of the record stands in the arena with its NUL. */
  ghost predicate PlayerStateBorrows(ps: PlayerState, contents: seq<seq<Octet>>)
  {
    StateStrings(ps, s => Borrowed(s, contents))
  }

  lemma PlayerStateBorrowsFromTree(m: Value, contents: seq<seq<Octet>>)
    requires Held(m, contents) && Addressable(contents) && DecPlayerState(m).Some?
    ensures PlayerStateBorrows(DecPlayerState(m).value, contents)
  {
    hide Held, TextsPass, SurvivesCut, DecPlayerState, StateStrings;
    HeldTextsPass(m, contents);
    CutBorrowed(contents);
    StateStringsPass(m, t => t + [0] in contents, s => Borrowed(s, contents));
  }

  /** Every string of the record stands in the arena with its NUL. */
  ghost predicate ImportBorrows(r: BeginImportRequest, contents: seq<seq<Octet>>)
  {
    ImportStrings(r, s => Borrowed(s, contents))
  }

  lemma ImportBorrowsFromTree(m: Value, contents: seq<seq<Octet>>)
    requires Held(m, contents) && Addressable(contents) && DecImport(m).Some?
    ensures ImportBorrows(DecImport(m).value, contents)
  {
    hide Held, TextsPass, SurvivesCut, DecImport, ImportStrings;
    HeldTextsPass(m, contents);
    CutBorrowed(contents);
    ImportStringsPass(m, t => t + [0] in contents, s => Borrowed(s, contents));
  }

  /** Every string of the record stands in the arena with its NUL. */
  ghost predicate ReportBorrows(r: NodeReport, contents: seq<seq<Octet>>)
  {
    ReportStrings(r, s => Borrowed(s, contents))
  }

  lemma ReportBorrowsFromTree(m: Value, contents: seq<seq<Octet>>)
    requires Held(m, contents) && Addressable(contents) && DecReport(m).Some?
    ensures ReportBorrows(DecReport(m).value, contents)
  {
    hide Held, TextsPass, SurvivesCut, DecReport, ReportStrings;
    HeldTextsPass(m, contents);
    CutBorrowed(contents);
    ReportStringsPass(m, t => t + [0] in contents, s => Borrowed(s, contents));
  }

  /** Every string of the record stands in the arena with its NUL. */
  ghost predicate SettingsBorrows(s: Settings, contents: seq<seq<Octet>>)
  {
    SettingsStrings(s, t => Borrowed(t, contents))
  }

  lemma SettingsBorrowsFromTree(m: Value, contents: seq<seq<Octet>>)
    requires Held(m, contents) && Addressable(contents) && DecSettings(m).Some?
    ensures SettingsBorrows(DecSettings(m).value, contents)
  {
    hide Held, TextsPass, SurvivesCut, DecSettings, SettingsStrings;
    HeldTextsPass(m, contents);
    CutBorrowed(contents);
    SettingsStringsPass(m, t => t + [0] in contents, s => Borrowed(s, contents));
  }

  /** Every string of the record stands in the arena with its NUL. */
  ghost predicate CommandBorrows(c: PlayerCommand, contents: seq<seq<Octet>>)
  {
    CommandStrings(c, s => Borrowed(s, contents))
  }

  lemma CommandBorrowsFromTree(m: Value, contents: seq<seq<Octet>>)
    requires Held(m, contents) && Addressable(contents) && DecCommand(m).Some?
    ensures CommandBorrows(DecCommand(m).value, contents)
  {
    hide Held, TextsPass, SurvivesCut, DecCommand, CommandStrings;
    HeldTextsPass(m, contents);
    CutBorrowed(contents);
    CommandStringsPass(m, t => t + [0] in contents, s => Borrowed(s, contents));
  }

  // ----- every decoded record can be encoded and read back -----

  lemma ListFits(m: Value, k: Key, room: nat)
    requires WellFormed(m, room) && Find(m, k).Some? && Find(m, k).value.Array?
    ensures |Find(m, k).value.items| <= SIZE_MAX / VALUE_SIZE
  {
    hide Find, WellFormed;
    FindWellFormed(m, k, room);
    ItemsOfWellFormed(Find(m, k).value, room - 1);
  }

  lemma StateIsUtf8(m: Value, room: nat)
    requires WellFormed(m, room) && DecPlayerState(m).Some?
    ensures Utf8State(DecPlayerState(m).value)
  {
    hide Find, WellFormed, TextsPass, SurvivesCut, GetText, ReadEnum, DecQueueItem, IsUtf8;
    WellFormedTextsPass(m, room);
    CutKeepsUtf8();
    StateStringsPass(m, t => IsUtf8(t), s => IsUtf8(s));
    ListFits(m, Queue, room);
  }

  lemma FileIsUtf8(m: Value, room: nat)
    requires WellFormed(m, room) && DecFile(m).Some?
    ensures Utf8File(DecFile(m).value)
  {
    hide Find, WellFormed, TextsPass, SurvivesCut, GetText, DecChunk, IsUtf8;
    WellFormedTextsPass(m, room);
    CutKeepsUtf8();
    FileStringsPass(m, t => IsUtf8(t), s => IsUtf8(s));
    ListFits(m, Chunks, room);
  }

  lemma ImportIsUtf8(m: Value, room: nat)
    requires WellFormed(m, room) && DecImport(m).Some?
    ensures Utf8Import(DecImport(m).value)
  {
    hide Find, WellFormed, ReadEnum, DecFile, ReadAll, Utf8File;
    ListFits(m, Files, room);
    FindWellFormed(m, Files, room);
    var v := Find(m, Files).value;
    ItemsOfWellFormed(v, room - 1);
    forall i | 0 <= i < |v.items| ensures Utf8File(DecImport(m).value.files[i]) {
      ReadAllAt(v.items, DecFile, i);
      FileIsUtf8(v.items[i], room - 2);
    }
  }

  lemma ReportIsUtf8(m: Value, room: nat)
    requires WellFormed(m, room) && DecReport(m).Some?
    ensures Utf8Report(DecReport(m).value)
  {
    hide WellFormed, TextsPass, SurvivesCut, DecReport, IsUtf8;
    WellFormedTextsPass(m, room);
    CutKeepsUtf8();
    ReportStringsPass(m, t => IsUtf8(t), s => IsUtf8(s));
  }

  lemma PairsFit(v: Value, room: nat)
    requires WellFormed(v, room) && v.Map?
    ensures |v.pairs| <= SIZE_MAX / PAIR_SIZE
  {
  }

  lemma SettingsIsUtf8(m: Value, room: nat)
    requires WellFormed(m, room) && DecSettings(m).Some?
    ensures Utf8Settings(DecSettings(m).value)
  {
    hide Find, WellFormed, TextsPass, SurvivesCut, ReadEntries, IsUtf8;
    WellFormedTextsPass(m, room);
    CutKeepsUtf8();
    SettingsStringsPass(m, t => IsUtf8(t), s => IsUtf8(s));
    FindWellFormed(m, Entries, room);
    PairsFit(Find(m, Entries).value, room - 1);
  }

  lemma PayloadListFits(i: nat, m: Value, room: nat)
    requires i < VARIANTS && WellFormed(m, room) && ReadArguments(i, m).Some?
    ensures var c := ReadArguments(i, m).value;
            c.Enqueue? || c.EnqueueNext? || c.ReplaceAndPlay? ==> |c.trackIds| <= SIZE_MAX / VALUE_SIZE
  {
    hide Find, WellFormed, ReadEnum, GetText, ReadText, ReadAll;
    if ListOf(Find(m, TrackIds), ReadText).Some? { ListFits(m, TrackIds, room); }
  }

  lemma CommandIsUtf8(v: Value, room: nat)
    requires WellFormed(v, room)
    ensures DecCommand(v).Some? ==> Utf8Command(DecCommand(v).value)
  {
    hide Find, WellFormed, TextsPass, SurvivesCut, ReadArguments, OpText, IsUtf8;
    if DecCommand(v).Some? {
      WellFormedTextsPass(v, room);
      CutKeepsUtf8();
      CommandStringsPass(v, t => IsUtf8(t), s => IsUtf8(s));
      ItemsOfWellFormed(v, room);
      PayloadListFits(AsU64(Some(v.items[0])).value, v.items[1], room - 1);
    }
  }

  /** Normal form: whatever bytes a record is decoded from, its encoding decodes to the same record. */
  lemma PlayerStateNormalForm(b: seq<Octet>)
    ensures DecodePlayerState(b).Some? ==>
              DecodePlayerState(Enc(PlayerStateValue(DecodePlayerState(b).value))) == DecodePlayerState(b)
  {
    hide Decode, WellFormed, DecPlayerState, PlayerStateValue, Enc;
    if DecodePlayerState(b).Some? {
      var m := Decode(b).value;
      DecodedWellFormed(b, m);
      StateIsUtf8(m, ROOT_ROOM);
      PlayerStateWire(DecodePlayerState(b).value);
    }
  }

  /** Normal form: whatever bytes a record is decoded from, its encoding decodes to the same record. */
  lemma ImportNormalForm(b: seq<Octet>)
    ensures DecodeImport(b).Some? ==> DecodeImport(Enc(ImportValue(DecodeImport(b).value))) == DecodeImport(b)
  {
    hide Decode, WellFormed, DecImport, ImportValue, Enc;
    if DecodeImport(b).Some? {
      var m := Decode(b).value;
      DecodedWellFormed(b, m);
      ImportIsUtf8(m, ROOT_ROOM);
      ImportWire(DecodeImport(b).value);
    }
  }

  /** Normal form: whatever bytes a record is decoded from, its encoding decodes to the same record. */
  lemma ReportNormalForm(b: seq<Octet>)
    ensures DecodeReport(b).Some? ==> DecodeReport(Enc(ReportValue(DecodeReport(b).value))) == DecodeReport(b)
  {
    hide Decode, WellFormed, DecReport, ReportValue, Enc;
    if DecodeReport(b).Some? {
      var m := Decode(b).value;
      DecodedWellFormed(b, m);
      ReportIsUtf8(m, ROOT_ROOM);
      ReportWire(DecodeReport(b).value);
    }
  }

  /** Normal form: whatever bytes a record is decoded from, its encoding decodes to the same record. */
  lemma SettingsNormalForm(b: seq<Octet>)
    ensures DecodeSettings(b).Some? ==> DecodeSettings(Enc(SettingsValue(DecodeSettings(b).value))) == DecodeSettings(b)
  {
    hide Decode, WellFormed, DecSettings, SettingsValue, Enc;
    if DecodeSettings(b).Some? {
      var m := Decode(b).value;
      DecodedWellFormed(b, m);
      SettingsIsUtf8(m, ROOT_ROOM);
      SettingsWire(DecodeSettings(b).value);
    }
  }

  /** Normal form: whatever bytes a record is decoded from, its encoding decodes to the same record. */
  lemma CommandNormalForm(b: seq<Octet>)
    ensures DecodeCommand(b).Some? ==> DecodeCommand(Enc(CommandValue(DecodeCommand(b).value))) == DecodeCommand(b)
  {
    hide Decode, WellFormed, DecCommand, CommandValue, Enc;
    if DecodeCommand(b).Some? {
      var m := Decode(b).value;
      DecodedWellFormed(b, m);
      CommandIsUtf8(m, ROOT_ROOM);
      CommandWire(DecodeCommand(b).value);
    }
  }
}
