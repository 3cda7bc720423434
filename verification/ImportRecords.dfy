/** BeginImportRequest with its files and their chunks: lists of records that hold lists of records. */
module ImportRecords {
  import opened Octets
  import opened Utf8
  import opened Cbor
  import opened Codec
  import opened KeyOrder
  import opened Fields
  import opened Readers
  import opened Alike

  datatype TransferChunk = TransferChunk(index: U64, offset: U64, size: U64, sha256: CString)

  datatype TransferFile = TransferFile(
    rootRelativePath: CString,
    sizeBytes: U64,
    contentType: CString,
    sha256: CString,
    chunks: seq<TransferChunk>)

  datatype BeginImportRequest = BeginImportRequest(
    files: seq<TransferFile>,
    trackFileIndex: U64,
    library: Option<Library>)

  // ----- chunks -----

  function ChunkFields(c: TransferChunk): seq<Field>
  {
    [ UIntField(Size, c.size),
      UIntField(Index, c.index),
      UIntField(Offset, c.offset),
      TextField(Sha256, c.sha256) ]
  }

  function ChunkValue(c: TransferChunk): Value
  {
    Record(ChunkFields(c))
  }

  function DecChunk(m: Value): Option<TransferChunk>
  {
    if !m.Map? then None
    else
      var size :- AsU64(Find(m, Size));
      var index :- AsU64(Find(m, Index));
      var offset :- AsU64(Find(m, Offset));
      var sha256 :- GetText(Find(m, Sha256));
      Some(TransferChunk(index, offset, size, sha256))
  }

  lemma ChunkSchema(c: TransferChunk)
    ensures Schema(ChunkFields(c))
  {
    Shorter(Size, Index);
    Shorter(Index, Offset);
    Diverges(Offset, Sha256, 0);
    hide Before;
  }

  lemma ChunkLookups(c: TransferChunk)
    ensures var m := ChunkValue(c);
            && Find(m, Size) == Some(UInt(c.size))
            && Find(m, Index) == Some(UInt(c.index))
            && Find(m, Offset) == Some(UInt(c.offset))
            && Find(m, Sha256) == Some(Text(c.sha256))
  {
    var fs := ChunkFields(c);
    ChunkSchema(c);
    hide Schema, Find, Present;
    FindField(fs, 0);
    FindField(fs, 1);
    FindField(fs, 2);
    FindField(fs, 3);
  }

  lemma ChunkRoundTrip(c: TransferChunk)
    ensures DecChunk(ChunkValue(c)) == Some(c)
  {
    ChunkLookups(c);
    FieldsReadBack();
    assert ChunkValue(c).Map?;
    hide Find, ChunkValue, GetText;
  }

  lemma ChunkEncodable(c: TransferChunk, room: nat)
    requires room > 1
    ensures Plain(ChunkValue(c), true)
    ensures WellFormed(ChunkValue(c), room) <==> IsUtf8(c.sha256)
  {
    var fs := ChunkFields(c);
    ChunkSchema(c);
    FieldKinds(room - 1);
    FieldKindsPlain();
    hide Schema, IsUtf8, FieldWellFormed, FieldPlain, TextField, UIntField;
    RecordPlain(fs);
    RecordWellFormed(fs, room);
    hide Plain, WellFormed, Record;
    assert FieldValuesWellFormed(fs, room - 1) <==> FieldWellFormed(fs[3], room - 1);
  }

  // ----- files -----

  function FileFields(f: TransferFile): seq<Field>
  {
    [ ListField(Chunks, WriteAll(f.chunks, ChunkValue)),
      TextField(Sha256, f.sha256),
      UIntField(SizeBytes, f.sizeBytes),
      TextField(ContentType, f.contentType),
      TextField(RootRelativePath, f.rootRelativePath) ]
  }

  function FileValue(f: TransferFile): Value
  {
    Record(FileFields(f))
  }

  function DecFile(m: Value): Option<TransferFile>
  {
    if !m.Map? then None
    else
      var chunks :- ListOf(Find(m, Chunks), DecChunk);
      var sha256 :- GetText(Find(m, Sha256));
      var sizeBytes :- AsU64(Find(m, SizeBytes));
      var contentType :- GetText(Find(m, ContentType));
      var rootRelativePath :- GetText(Find(m, RootRelativePath));
      Some(TransferFile(rootRelativePath, sizeBytes, contentType, sha256, chunks))
  }

  lemma ChunksBeforeSha256()
    ensures Before(Chunks, Sha256)
  {
    hide Before;
    Diverges(Chunks, Sha256, 0);
  }

  lemma FileSchema(f: TransferFile)
    ensures Schema(FileFields(f))
  {
    hide Before, WriteAll;
    ChunksBeforeSha256();
    Shorter(Sha256, SizeBytes);
    Shorter(SizeBytes, ContentType);
    Shorter(ContentType, RootRelativePath);
  }

  lemma FileLookups(f: TransferFile)
    ensures var m := FileValue(f);
            && Find(m, Chunks) == Some(Array(WriteAll(f.chunks, ChunkValue)))
            && Find(m, Sha256) == Some(Text(f.sha256))
            && Find(m, SizeBytes) == Some(UInt(f.sizeBytes))
            && Find(m, ContentType) == Some(Text(f.contentType))
            && Find(m, RootRelativePath) == Some(Text(f.rootRelativePath))
  {
    var fs := FileFields(f);
    FileSchema(f);
    hide Schema, Find, Present, ChunkValue;
    FindField(fs, 0);
    FindField(fs, 1);
    FindField(fs, 2);
    FindField(fs, 3);
    FindField(fs, 4);
  }

  lemma ChunksRoundTrip(chunks: seq<TransferChunk>)
    ensures ListOf(Some(Array(WriteAll(chunks, ChunkValue))), DecChunk) == Some(chunks)
  {
    forall c ensures DecChunk(ChunkValue(c)) == Some(c) {
      ChunkRoundTrip(c);
    }
    hide ChunkValue, DecChunk;
    ReadWritten(chunks, ChunkValue, DecChunk);
  }

  lemma FileRoundTrip(f: TransferFile)
    ensures DecFile(FileValue(f)) == Some(f)
  {
    FileLookups(f);
    FieldsReadBack();
    ChunksRoundTrip(f.chunks);
    assert FileValue(f).Map?;
    hide Find, FileValue, ChunkValue, DecChunk, ListOf, WriteAll, GetText;
  }

  /** The strings of the file and of its chunks are UTF-8, and the chunk list can be held decoded. */
  ghost predicate Utf8File(f: TransferFile)
  {
    && IsUtf8(f.sha256) && IsUtf8(f.contentType) && IsUtf8(f.rootRelativePath)
    && |f.chunks| <= SIZE_MAX / VALUE_SIZE
    && forall i :: 0 <= i < |f.chunks| ==> IsUtf8(f.chunks[i].sha256)
  }

  lemma ChunksFieldKind(chunks: seq<TransferChunk>, room: nat)
    requires room > 2 && |chunks| <= SIZE_MAX
    ensures var f := ListField(Chunks, WriteAll(chunks, ChunkValue));
            && FieldPlain(f)
            && (FieldWellFormed(f, room) <==>
                |chunks| <= SIZE_MAX / VALUE_SIZE && forall i :: 0 <= i < |chunks| ==> IsUtf8(chunks[i].sha256))
  {
    hide ChunkValue, IsUtf8;
    var vs := WriteAll(chunks, ChunkValue);
    forall i | 0 <= i < |chunks|
      ensures Plain(vs[i], true) && (WellFormed(vs[i], room - 1) <==> IsUtf8(chunks[i].sha256))
    {
      ChunkEncodable(chunks[i], room - 1);
    }
  }

  lemma FilePlain(f: TransferFile)
    requires |f.chunks| <= SIZE_MAX
    ensures Plain(FileValue(f), true)
  {
    hide Schema, FieldPlain, Plain, Record, TextField, UIntField, ListField;
    var fs := FileFields(f);
    FileSchema(f);
    FieldKindsPlain();
    ChunksFieldKind(f.chunks, MAX_DEPTH);
    RecordPlain(fs);
  }

  lemma FileWellFormed(f: TransferFile, room: nat)
    requires room > 3 && |f.chunks| <= SIZE_MAX
    ensures WellFormed(FileValue(f), room) <==> Utf8File(f)
  {
    hide Schema, IsUtf8, FieldWellFormed, Plain, WellFormed, Record, WriteAll, TextField, UIntField, ListField;
    var fs := FileFields(f);
    FileSchema(f);
    RecordWellFormed(fs, room);
    FieldKinds(room - 1);
    ChunksFieldKind(f.chunks, room - 1);
    assert FieldValuesWellFormed(fs, room - 1) <==>
           FieldWellFormed(fs[0], room - 1) && FieldWellFormed(fs[1], room - 1)
           && FieldWellFormed(fs[3], room - 1) && FieldWellFormed(fs[4], room - 1);
  }

  // ----- requests -----

  function ImportFields(r: BeginImportRequest): seq<Field>
  {
    [ ListField(Files, WriteAll(r.files, FileValue)),
      OptEnumField(LibraryKey, Libraries, r.library),
      UIntField(TrackFileIndex, r.trackFileIndex) ]
  }

  function ImportValue(r: BeginImportRequest): Value
  {
    Record(ImportFields(r))
  }

  function DecImport(m: Value): Option<BeginImportRequest>
  {
    if !m.Map? then None
    else
      var files :- ListOf(Find(m, Files), DecFile);
      var library :- Optional(Find(m, LibraryKey), ReadLibrary);
      var trackFileIndex :- AsU64(Find(m, TrackFileIndex));
      Some(BeginImportRequest(files, trackFileIndex, library))
  }

  lemma ImportSchema(r: BeginImportRequest)
    ensures Schema(ImportFields(r))
  {
    Shorter(Files, LibraryKey);
    Shorter(LibraryKey, TrackFileIndex);
    hide Before;
  }

  lemma ImportLookups(r: BeginImportRequest)
    ensures var m := ImportValue(r);
            && Find(m, Files) == Some(Array(WriteAll(r.files, FileValue)))
            && Find(m, LibraryKey) == OptEnumField(LibraryKey, Libraries, r.library).value
            && Find(m, TrackFileIndex) == Some(UInt(r.trackFileIndex))
  {
    var fs := ImportFields(r);
    ImportSchema(r);
    hide Schema, Find, Present, EnumValue, FileValue;
    FindField(fs, 0);
    FindField(fs, 1);
    FindField(fs, 2);
  }

  lemma FilesRoundTrip(files: seq<TransferFile>)
    ensures ListOf(Some(Array(WriteAll(files, FileValue))), DecFile) == Some(files)
  {
    forall f ensures DecFile(FileValue(f)) == Some(f) {
      FileRoundTrip(f);
    }
    hide FileValue, DecFile;
    ReadWritten(files, FileValue, DecFile);
  }

  lemma ImportRoundTrip(r: BeginImportRequest)
    ensures DecImport(ImportValue(r)) == Some(r)
  {
    ImportLookups(r);
    EnumsReadBack();
    FilesRoundTrip(r.files);
    assert ImportValue(r).Map?;
    hide Find, EnumValue, ImportValue, FileValue, DecFile, ListOf, WriteAll, Optional, ReadLibrary, OptEnumField;
  }

  /** Every string of the request is UTF-8, and its lists can be held decoded. */
  ghost predicate Utf8Import(r: BeginImportRequest)
  {
    |r.files| <= SIZE_MAX / VALUE_SIZE && forall i :: 0 <= i < |r.files| ==> Utf8File(r.files[i])
  }

  /** The counts of the lists fit the size type that holds them. */
  ghost predicate ListsCountable(r: BeginImportRequest)
  {
    |r.files| <= SIZE_MAX && forall i :: 0 <= i < |r.files| ==> |r.files[i].chunks| <= SIZE_MAX
  }

  lemma FilesFieldKind(files: seq<TransferFile>, room: nat)
    requires room > 4 && |files| <= SIZE_MAX && forall i :: 0 <= i < |files| ==> |files[i].chunks| <= SIZE_MAX
    ensures var f := ListField(Files, WriteAll(files, FileValue));
            && FieldPlain(f)
            && (FieldWellFormed(f, room) <==>
                |files| <= SIZE_MAX / VALUE_SIZE && forall i :: 0 <= i < |files| ==> Utf8File(files[i]))
  {
    hide FileValue, Utf8File;
    var vs := WriteAll(files, FileValue);
    forall i | 0 <= i < |files|
      ensures Plain(vs[i], true) && (WellFormed(vs[i], room - 1) <==> Utf8File(files[i]))
    {
      FilePlain(files[i]);
      FileWellFormed(files[i], room - 1);
    }
  }

  lemma ImportEncodable(r: BeginImportRequest)
    requires ListsCountable(r)
    ensures Plain(ImportValue(r), true)
    ensures WellFormed(ImportValue(r), ROOT_ROOM) <==> Utf8Import(r)
  {
    hide Schema, Utf8File, FieldWellFormed, FieldPlain, WriteAll, UIntField, ListField, OptEnumField, Plain, WellFormed,
         Record;
    var fs := ImportFields(r);
    ImportSchema(r);
    FieldKinds(MAX_DEPTH);
    FieldKindsPlain();
    OptEnumKind(LibraryKey, Libraries, r.library, MAX_DEPTH);
    FilesFieldKind(r.files, MAX_DEPTH);
    RecordPlain(fs);
    RecordWellFormed(fs, ROOT_ROOM);
    assert FieldValuesWellFormed(fs, MAX_DEPTH) <==> FieldWellFormed(fs[0], MAX_DEPTH);
  }

  // ----- main results -----

  ghost function DecodeImport(b: seq<Octet>): Option<BeginImportRequest>
  {
    var m :- Decode(b);
    DecImport(m)
  }

  /** Round trip over the wire with both nested lists: the request comes back when its strings are UTF-8,
      and is refused otherwise. */
  lemma ImportWire(r: BeginImportRequest)
    requires ListsCountable(r)
    ensures DecodeImport(Enc(ImportValue(r))) == if Utf8Import(r) then Some(r) else None
  {
    ImportEncodable(r);
    ImportRoundTrip(r);
    hide Plain, WellFormed, ImportValue, DecImport, Utf8Import, Decode, Enc;
    WireRoundTrip(ImportValue(r));
  }

  /** The keys ascend in the request, in every file and in every chunk. */
  lemma ImportAscending(r: BeginImportRequest)
    ensures Ascending(ImportValue(r).pairs)
    ensures forall f :: f in r.files ==>
              && Ascending(FileValue(f).pairs)
              && forall c :: c in f.chunks ==> Ascending(ChunkValue(c).pairs)
  {
    hide Schema, Ascending, Present;
    ImportSchema(r);
    RecordAscending(ImportFields(r));
    forall f | f in r.files ensures Ascending(FileValue(f).pairs) {
      FileSchema(f);
      RecordAscending(FileFields(f));
    }
    forall f, c | f in r.files && c in f.chunks ensures Ascending(ChunkValue(c).pairs) {
      ChunkSchema(c);
      RecordAscending(ChunkFields(c));
    }
  }

  const CHUNK_PARTS: seq<Part> :=
    [ Part(Size, Exactly), Part(Index, Exactly), Part(Offset, Exactly), Part(Sha256, Exactly) ]

  const FILE_PARTS: seq<Part> :=
    [ Part(Chunks, Each(Keyed(CHUNK_PARTS))), Part(Sha256, Exactly), Part(SizeBytes, Exactly),
      Part(ContentType, Exactly), Part(RootRelativePath, Exactly) ]

  const IMPORT_PARTS: seq<Part> :=
    [ Part(Files, Each(Keyed(FILE_PARTS))), Part(LibraryKey, Exactly), Part(TrackFileIndex, Exactly) ]

  lemma ChunkUnordered(m: Value, n: Value)
    requires AreAlike(m, n, Keyed(CHUNK_PARTS))
    ensures DecChunk(m) == DecChunk(n)
  {
    AlikeMaps(m, n, CHUNK_PARTS);
    hide Find, AreAlike, GetText;
    SameFind(m, n, CHUNK_PARTS, 0);
    SameFind(m, n, CHUNK_PARTS, 1);
    SameFind(m, n, CHUNK_PARTS, 2);
    SameFind(m, n, CHUNK_PARTS, 3);
  }

  lemma FileUnordered(m: Value, n: Value)
    requires AreAlike(m, n, Keyed(FILE_PARTS))
    ensures DecFile(m) == DecFile(n)
  {
    AlikeMaps(m, n, FILE_PARTS);
    assert FILE_PARTS[0] == Part(Chunks, Each(Keyed(CHUNK_PARTS)));
    hide Find, AreAlike, DecChunk, ListOf, GetText;
    SameFind(m, n, FILE_PARTS, 1);
    SameFind(m, n, FILE_PARTS, 2);
    SameFind(m, n, FILE_PARTS, 3);
    SameFind(m, n, FILE_PARTS, 4);
    forall v, w | AreAlike(v, w, Keyed(CHUNK_PARTS)) ensures DecChunk(v) == DecChunk(w) {
      ChunkUnordered(v, w);
    }
    SameList(m, n, FILE_PARTS, 0, DecChunk);
  }

  /** Neither the order of the pairs nor unknown keys, in the request, in any file or in any chunk, change what is
      read. */
  lemma ImportUnordered(m: Value, n: Value)
    requires AreAlike(m, n, Keyed(IMPORT_PARTS))
    ensures DecImport(m) == DecImport(n)
  {
    AlikeMaps(m, n, IMPORT_PARTS);
    assert IMPORT_PARTS[0] == Part(Files, Each(Keyed(FILE_PARTS)));
    hide Find, AreAlike, DecFile, ListOf, ReadEnum;
    SameFind(m, n, IMPORT_PARTS, 1);
    SameFind(m, n, IMPORT_PARTS, 2);
    forall v, w | AreAlike(v, w, Keyed(FILE_PARTS)) ensures DecFile(v) == DecFile(w) {
      FileUnordered(v, w);
    }
    SameList(m, n, IMPORT_PARTS, 0, DecFile);
  }

  const IMPORT_KEYS: set<Key> := { Files, LibraryKey, TrackFileIndex }

  /** In particular, permuting a request's own pairs or adding pairs under other keys changes nothing. */
  lemma ImportReordered(m: Value, n: Value)
    requires SameNamedPairs(m, n, IMPORT_KEYS)
    ensures DecImport(m) == DecImport(n)
  {
    hide AreAlike, DecImport, SameNamedPairs;
    ReorderedIsAlike(m, n, IMPORT_PARTS, IMPORT_KEYS);
    ImportUnordered(m, n);
  }
}
