/** PlayerCommand: a tagged sum of twenty records, written as an array of the variant's index and its record. */
module Commands {
  import opened Octets
  import opened Utf8
  import opened Cbor
  import opened Codec
  import opened KeyOrder
  import opened Fields
  import opened Readers

  datatype PlayerCommand =
    | Enqueue(trackIds: seq<CString>, atIndex: Option<U64>)
    | EnqueueNext(trackIds: seq<CString>)
    | Remove(index: U64)
    | RemoveItem(queueItemId: U64)
    | Reorder(fromIndex: U64, toIndex: U64)
    | MoveItem(queueItemId: U64, beforeQueueItemId: Option<U64>)
    | Clear
    | Play(playIndex: Option<U64>, playQueueItemId: Option<U64>)
    | ReplaceAndPlay(trackIds: seq<CString>, startIndex: Option<U64>, startMs: Option<U64>)
    | Pause
    | Next
    | Previous
    | Seek(positionMs: U64)
    | SetVolume(volume: U64)
    | SetRepeat(repeatMode: RepeatMode)
    | SetShuffle(shuffle: bool)
    | Undo
    | PlaybackCompleted(playbackId: CString, queueItemId: U64)
    | PlaybackFailed(playbackId: CString, queueItemId: U64, error: CString)
    | PlaybackState(playbackId: CString, queueItemId: U64, status: PlayerStatus, positionMs: U64)

  const VARIANTS: nat := 20

  /** The index a variant is tagged with on the wire. */
  function VariantIndex(c: PlayerCommand): (i: nat)
    ensures i < VARIANTS
  {
    match c
    case Enqueue(_, _) => 0
    case EnqueueNext(_) => 1
    case Remove(_) => 2
    case RemoveItem(_) => 3
    case Reorder(_, _) => 4
    case MoveItem(_, _) => 5
    case Clear => 6
    case Play(_, _) => 7
    case ReplaceAndPlay(_, _, _) => 8
    case Pause => 9
    case Next => 10
    case Previous => 11
    case Seek(_) => 12
    case SetVolume(_) => 13
    case SetRepeat(_) => 14
    case SetShuffle(_) => 15
    case Undo => 16
    case PlaybackCompleted(_, _) => 17
    case PlaybackFailed(_, _, _) => 18
    case PlaybackState(_, _, _, _) => 19
  }

  /** The op literal of each variant. */
  function Literal(i: nat): (s: string)
    requires i < VARIANTS
  {
    match i
    case 0 => "enqueue"
    case 1 => "enqueue-next"
    case 2 => "remove"
    case 3 => "remove-item"
    case 4 => "reorder"
    case 5 => "move-item"
    case 6 => "clear"
    case 7 => "play"
    case 8 => "replace-and-play"
    case 9 => "pause"
    case 10 => "next"
    case 11 => "previous"
    case 12 => "seek"
    case 13 => "volume"
    case 14 => "set-repeat"
    case 15 => "set-shuffle"
    case 16 => "undo"
    case 17 => "playback-completed"
    case 18 => "playback-failed"
    case _ => "playback-state"
  }

  /** The octets of a variant's op literal. */
  function OpText(i: nat): seq<Octet>
    requires i < VARIANTS
  {
    Ascii(Literal(i))
  }

  function TextValue(s: CString): Value
  {
    Text(s)
  }

  function ReadText(v: Value): Option<CString>
  {
    GetText(Some(v))
  }

  function TrackIdsField(ids: seq<CString>): (f: Field)
    ensures f.key == TrackIds
  {
    ListField(TrackIds, WriteAll(ids, TextValue))
  }

  /** The fields of a variant after its op. */
  function Arguments(c: PlayerCommand): seq<Field>
  {
    match c
    case Enqueue(ids, at) => [OptUIntField(AtIndex, at), TrackIdsField(ids)]
    case EnqueueNext(ids) => [TrackIdsField(ids)]
    case Remove(i) => [UIntField(Index, i)]
    case RemoveItem(id) => [UIntField(QueueItemId, id)]
    case Reorder(from, to) => [UIntField(ToIndex, to), UIntField(FromIndex, from)]
    case MoveItem(id, before) => [UIntField(QueueItemId, id), OptUIntField(BeforeQueueItemId, before)]
    case Clear => []
    case Play(i, id) => [OptUIntField(Index, i), OptUIntField(QueueItemId, id)]
    case ReplaceAndPlay(ids, start, ms) =>
      [TrackIdsField(ids), OptUIntField(PositionMs, ms), OptUIntField(StartIndex, start)]
    case Pause => []
    case Next => []
    case Previous => []
    case Seek(ms) => [UIntField(PositionMs, ms)]
    case SetVolume(v) => [UIntField(Volume, v)]
    case SetRepeat(mode) => [EnumField(RepeatModeKey, RepeatModes, mode)]
    case SetShuffle(on) => [BoolField(Shuffle, on)]
    case Undo => []
    case PlaybackCompleted(playback, id) => [TextField(PlaybackId, playback), UIntField(QueueItemId, id)]
    case PlaybackFailed(playback, id, error) =>
      [TextField(Error, error), TextField(PlaybackId, playback), UIntField(QueueItemId, id)]
    case PlaybackState(playback, id, status, ms) =>
      [ EnumField(Status, PlayerStatuses, status),
        TextField(PlaybackId, playback),
        UIntField(PositionMs, ms),
        UIntField(QueueItemId, id) ]
  }

  function OpField(i: nat): Field
    requires i < VARIANTS
  {
    Field(Op, Some(Text(OpText(i))))
  }

  function CommandFields(c: PlayerCommand): seq<Field>
  {
    [OpField(VariantIndex(c))] + Arguments(c)
  }

  function Payload(c: PlayerCommand): Value
  {
    Record(CommandFields(c))
  }

  function CommandValue(c: PlayerCommand): Value
  {
    Tagged(VariantIndex(c), Payload(c))
  }

  function Tagged(i: U64, payload: Value): Value
  {
    Array([UInt(i), payload])
  }

  /** The arguments of the variants that change the queue. */
  function QueueArguments(i: nat, m: Value): (c: Option<PlayerCommand>)
    requires i <= 6
    ensures c.Some? ==> VariantIndex(c.value) == i
  {
    match i
    case 0 =>
      var at :- Optional(Find(m, AtIndex), AsU64);
      var ids :- ListOf(Find(m, TrackIds), ReadText);
      Some(Enqueue(ids, at))
    case 1 =>
      var ids :- ListOf(Find(m, TrackIds), ReadText);
      Some(EnqueueNext(ids))
    case 2 =>
      var index :- AsU64(Find(m, Index));
      Some(Remove(index))
    case 3 =>
      var id :- AsU64(Find(m, QueueItemId));
      Some(RemoveItem(id))
    case 4 =>
      var to :- AsU64(Find(m, ToIndex));
      var from :- AsU64(Find(m, FromIndex));
      Some(Reorder(from, to))
    case 5 =>
      var id :- AsU64(Find(m, QueueItemId));
      var before :- Optional(Find(m, BeforeQueueItemId), AsU64);
      Some(MoveItem(id, before))
    case _ => Some(Clear)
  }

  /** The arguments of the variants that control playback. */
  function TransportArguments(i: nat, m: Value): (c: Option<PlayerCommand>)
    requires 7 <= i <= 16
    ensures c.Some? ==> VariantIndex(c.value) == i
  {
    match i
    case 7 =>
      var index :- Optional(Find(m, Index), AsU64);
      var id :- Optional(Find(m, QueueItemId), AsU64);
      Some(Play(index, id))
    case 8 =>
      var ids :- ListOf(Find(m, TrackIds), ReadText);
      var ms :- Optional(Find(m, PositionMs), AsU64);
      var start :- Optional(Find(m, StartIndex), AsU64);
      Some(ReplaceAndPlay(ids, start, ms))
    case 9 => Some(Pause)
    case 10 => Some(Next)
    case 11 => Some(Previous)
    case 12 =>
      var ms :- AsU64(Find(m, PositionMs));
      Some(Seek(ms))
    case 13 =>
      var volume :- AsU64(Find(m, Volume));
      Some(SetVolume(volume))
    case 14 =>
      var mode :- ReadRepeatMode(Find(m, RepeatModeKey));
      Some(SetRepeat(mode))
    case 15 =>
      var on :- AsBool(Find(m, Shuffle));
      Some(SetShuffle(on))
    case _ => Some(Undo)
  }

  /** The arguments of the variants by which a node reports on playback. */
  function PlaybackArguments(i: nat, m: Value): (c: Option<PlayerCommand>)
    requires 17 <= i < VARIANTS
    ensures c.Some? ==> VariantIndex(c.value) == i
  {
    match i
    case 17 =>
      var playback :- GetText(Find(m, PlaybackId));
      var id :- AsU64(Find(m, QueueItemId));
      Some(PlaybackCompleted(playback, id))
    case 18 =>
      var error :- GetText(Find(m, Error));
      var playback :- GetText(Find(m, PlaybackId));
      var id :- AsU64(Find(m, QueueItemId));
      Some(PlaybackFailed(playback, id, error))
    case _ =>
      var status :- ReadPlayerStatus(Find(m, Status));
      var playback :- GetText(Find(m, PlaybackId));
      var ms :- AsU64(Find(m, PositionMs));
      var id :- AsU64(Find(m, QueueItemId));
      Some(PlaybackState(playback, id, status, ms))
  }

  /** The arguments of the variant with index i, read from its record. */
  function ReadArguments(i: nat, m: Value): (c: Option<PlayerCommand>)
    requires i < VARIANTS
    ensures c.Some? ==> VariantIndex(c.value) == i
  {
    if i <= 6 then QueueArguments(i, m)
    else if i <= 16 then TransportArguments(i, m)
    else PlaybackArguments(i, m)
  }

  /** One variant's record: the op is compared as a C string, then the arguments are read. */
  function DecVariant(i: nat, m: Value): Option<PlayerCommand>
    requires i < VARIANTS
  {
    if !m.Map? then None
    else
      var op :- GetText(Find(m, Op));
      if op != OpText(i) then None else ReadArguments(i, m)
  }

  function DecCommand(v: Value): Option<PlayerCommand>
  {
    if !v.Array? || |v.items| != 2 then None
    else
      var i :- AsU64(Some(v.items[0]));
      if i < VARIANTS then DecVariant(i, v.items[1]) else None
  }

  // ----- the op literals -----

  /** The length of each literal and the code of its first letter tell the literals apart. */
  function Signature(i: nat): (nat, nat)
  {
    match i
    case 0 => (7, 101)
    case 1 => (12, 101)
    case 2 => (6, 114)
    case 3 => (11, 114)
    case 4 => (7, 114)
    case 5 => (9, 109)
    case 6 => (5, 99)
    case 7 => (4, 112)
    case 8 => (16, 114)
    case 9 => (5, 112)
    case 10 => (4, 110)
    case 11 => (8, 112)
    case 12 => (4, 115)
    case 13 => (6, 118)
    case 14 => (10, 115)
    case 15 => (11, 115)
    case 16 => (4, 117)
    case 17 => (18, 112)
    case 18 => (15, 112)
    case _ => (14, 112)
  }

  lemma LiteralSignature(i: nat)
    requires i < VARIANTS
    ensures |Literal(i)| == Signature(i).0 && Literal(i)[0] as int == Signature(i).1
  {
  }

  lemma SignatureOfText(i: nat)
    requires i < VARIANTS
    ensures |OpText(i)| == Signature(i).0 > 0 && OpText(i)[0] == Signature(i).1
  {
    hide Literal;
    LiteralSignature(i);
    assert Signature(i).1 < 128;
  }

  /** No two variants share an op literal. */
  lemma LiteralsDistinct(i: nat, j: nat)
    requires i < VARIANTS && j < VARIANTS && i != j
    ensures OpText(i) != OpText(j)
  {
    hide OpText;
    SignatureOfText(i);
    SignatureOfText(j);
    assert Signature(i) != Signature(j);
  }

  lemma OpTextIsCString(i: nat)
    requires i < VARIANTS
    ensures 0 !in OpText(i) && |OpText(i)| < 32 && IsUtf8(OpText(i))
  {
    hide IsUtf8;
    LiteralHasNoNul(i);
    AsciiIsUtf8(OpText(i));
  }

  ghost predicate NoNul(s: string)
  {
    |s| < 32 && forall j :: 0 <= j < |s| ==> s[j] != 0 as char
  }

  lemma LiteralHasNoNul(i: nat)
    requires i < VARIANTS
    ensures NoNul(Literal(i))
  {
    EarlyLiteralsHaveNoNul();
    MiddleLiteralsHaveNoNul();
    LateLiteralsHaveNoNul();
    hide NoNul;
  }

  lemma EarlyLiteralsHaveNoNul()
    ensures NoNul("enqueue") && NoNul("enqueue-next") && NoNul("remove") && NoNul("remove-item") && NoNul("reorder")
    ensures NoNul("move-item") && NoNul("clear") && NoNul("play")
  {
  }

  lemma MiddleLiteralsHaveNoNul()
    ensures NoNul("replace-and-play") && NoNul("pause") && NoNul("next") && NoNul("previous") && NoNul("seek")
    ensures NoNul("volume") && NoNul("set-repeat") && NoNul("set-shuffle")
  {
  }

  lemma LateLiteralsHaveNoNul()
    ensures NoNul("undo") && NoNul("playback-completed") && NoNul("playback-failed") && NoNul("playback-state")
  {
  }

  // ----- separation -----

  /** A payload accepted under one index is refused under every other. */
  lemma WrongTagRefused(i: U64, j: U64, payload: Value)
    requires i != j && DecCommand(Tagged(i, payload)).Some?
    ensures DecCommand(Tagged(j, payload)) == None
  {
    hide OpText, Find, ReadArguments;
    if j < VARIANTS { LiteralsDistinct(i, j); }
  }

  // ----- round trip -----

  lemma OpComesFirst(k: Key)
    requires k != Op
    ensures Before(Op, k)
  {
    hide Before;
    Shorter(Op, k);
  }

  lemma ArgumentOrder()
    ensures Before(AtIndex, TrackIds) && Before(ToIndex, FromIndex) && Before(QueueItemId, BeforeQueueItemId)
  {
    hide Before;
    Shorter(AtIndex, TrackIds);
    Shorter(ToIndex, FromIndex);
    Shorter(QueueItemId, BeforeQueueItemId);
  }

  lemma StartArgumentOrder()
    ensures Before(Index, QueueItemId) && Before(TrackIds, PositionMs) && Before(PositionMs, StartIndex)
  {
    hide Before;
    Shorter(Index, QueueItemId);
    Shorter(TrackIds, PositionMs);
    Diverges(PositionMs, StartIndex, 0);
  }

  lemma PlaybackArgumentOrder()
    ensures Before(PlaybackId, QueueItemId) && Before(Error, PlaybackId) && Before(Status, PlaybackId)
    ensures Before(PlaybackId, PositionMs) && Before(PositionMs, QueueItemId)
  {
    hide Before;
    Shorter(PlaybackId, QueueItemId);
    Shorter(Error, PlaybackId);
    Shorter(Status, PlaybackId);
    PlaybackBeforePosition();
    Shorter(PositionMs, QueueItemId);
  }

  lemma ArgumentsSchema(c: PlayerCommand)
    ensures Schema(Arguments(c)) && |Arguments(c)| <= 4
    ensures Arguments(c) != [] ==> Arguments(c)[0].key != Op
  {
    hide Before, EnumValue;
    ArgumentOrder();
    StartArgumentOrder();
    PlaybackArgumentOrder();
  }

  lemma CommandSchema(c: PlayerCommand)
    ensures Schema(CommandFields(c))
  {
    hide Before, Arguments, OpText;
    var args, fs := Arguments(c), CommandFields(c);
    ArgumentsSchema(c);
    forall i {:trigger fs[i]} | 0 <= i < |fs| - 1 ensures Before(fs[i].key, fs[i + 1].key) {
      if i == 0 {
        OpComesFirst(args[0].key);
      } else {
        assert Before(args[i - 1].key, args[i - 1 + 1].key);
      }
    }
  }

  /** Every field of the list is found under its key. */
  ghost predicate Holds(m: Value, fs: seq<Field>)
  {
    forall i :: 0 <= i < |fs| ==> Find(m, fs[i].key) == fs[i].value
  }

  lemma PayloadHolds(c: PlayerCommand)
    ensures Find(Payload(c), Op) == Some(Text(OpText(VariantIndex(c))))
    ensures Holds(Payload(c), Arguments(c))
  {
    hide Find, Record, Schema, Arguments, OpText;
    var args, fs := Arguments(c), CommandFields(c);
    CommandSchema(c);
    FindField(fs, 0);
    forall i | 0 <= i < |args| ensures Find(Payload(c), args[i].key) == args[i].value {
      FindField(fs, i + 1);
      assert fs[i + 1] == args[i];
    }
  }

  lemma TrackIdsRoundTrip(ids: seq<CString>)
    ensures ListOf(TrackIdsField(ids).value, ReadText) == Some(ids)
  {
    forall s: CString ensures ReadText(TextValue(s)) == Some(s) {}
    hide TextValue, ReadText;
    ReadWritten(ids, TextValue, ReadText);
  }

  lemma ArgumentsRoundTrip(c: PlayerCommand, m: Value)
    requires Holds(m, Arguments(c))
    ensures ReadArguments(VariantIndex(c), m) == Some(c)
  {
    hide Find, EnumValue, Optional, ListOf, TrackIdsField, GetText, ReadRepeatMode, ReadPlayerStatus;
    var args := Arguments(c);
    assert |args| > 0 ==> Find(m, args[0].key) == args[0].value;
    assert |args| > 1 ==> Find(m, args[1].key) == args[1].value;
    assert |args| > 2 ==> Find(m, args[2].key) == args[2].value;
    assert |args| > 3 ==> Find(m, args[3].key) == args[3].value;
    FieldsReadBack();
    EnumsReadBack();
    if c.Enqueue? || c.EnqueueNext? || c.ReplaceAndPlay? { TrackIdsRoundTrip(c.trackIds); }
  }

  lemma PayloadIsMap(c: PlayerCommand)
    ensures Payload(c).Map?
  {
  }

  /** All twenty variants survive being written and read. */
  lemma CommandRoundTrip(c: PlayerCommand)
    ensures DecCommand(CommandValue(c)) == Some(c)
  {
    hide Find, Arguments, ReadArguments, OpText, Payload, VariantIndex, UpToNul;
    PayloadIsMap(c);
    PayloadHolds(c);
    OpTextIsCString(VariantIndex(c));
    ArgumentsRoundTrip(c, Payload(c));
  }

  // ----- over the wire -----

  ghost predicate Utf8Ids(ids: seq<CString>)
  {
    |ids| <= SIZE_MAX / VALUE_SIZE && forall i :: 0 <= i < |ids| ==> IsUtf8(ids[i])
  }

  /** The strings of the command are UTF-8, and its list can be held decoded. */
  ghost predicate Utf8Command(c: PlayerCommand)
  {
    match c
    case Enqueue(ids, _) => Utf8Ids(ids)
    case EnqueueNext(ids) => Utf8Ids(ids)
    case ReplaceAndPlay(ids, _, _) => Utf8Ids(ids)
    case PlaybackCompleted(playback, _) => IsUtf8(playback)
    case PlaybackFailed(playback, _, error) => IsUtf8(playback) && IsUtf8(error)
    case PlaybackState(playback, _, _, _) => IsUtf8(playback)
    case _ => true
  }

  /** The count of the list fits the size type that holds it. */
  ghost predicate IdsCountable(c: PlayerCommand)
  {
    c.Enqueue? || c.EnqueueNext? || c.ReplaceAndPlay? ==> |c.trackIds| <= SIZE_MAX
  }

  lemma TrackIdsKind(ids: seq<CString>, room: nat)
    requires room > 1 && |ids| <= SIZE_MAX
    ensures FieldPlain(TrackIdsField(ids))
    ensures FieldWellFormed(TrackIdsField(ids), room) <==> Utf8Ids(ids)
  {
    hide IsUtf8;
    var vs := WriteAll(ids, TextValue);
    forall i | 0 <= i < |ids| ensures Plain(vs[i], true) && (WellFormed(vs[i], room - 1) <==> IsUtf8(ids[i])) {
      assert vs[i] == Text(ids[i]);
    }
    assert TrackIdsField(ids).value == Some(Array(vs));
  }

  lemma ArgumentsPlain(c: PlayerCommand)
    requires IdsCountable(c)
    ensures forall i :: 0 <= i < |Arguments(c)| ==> FieldPlain(Arguments(c)[i])
  {
    hide FieldPlain, TrackIdsField, EnumValue, TextField, UIntField, OptUIntField, BoolField, EnumField;
    FieldKindsPlain();
    if c.Enqueue? || c.EnqueueNext? || c.ReplaceAndPlay? { TrackIdsKind(c.trackIds, MAX_DEPTH); }
  }

  lemma ArgumentsWellFormed(c: PlayerCommand, room: nat)
    requires room > 1 && IdsCountable(c)
    ensures FieldValuesWellFormed(Arguments(c), room) <==> Utf8Command(c)
  {
    hide FieldWellFormed, TrackIdsField, EnumValue, TextField, UIntField, OptUIntField, BoolField, EnumField, IsUtf8,
         Utf8Ids;
    FieldKinds(room);
    if c.Enqueue? || c.EnqueueNext? || c.ReplaceAndPlay? { TrackIdsKind(c.trackIds, room); }
    UpToFourWellFormed(Arguments(c), room);
  }

  lemma UpToFourWellFormed(args: seq<Field>, room: nat)
    ensures |args| <= 4 ==>
              (FieldValuesWellFormed(args, room) <==>
               && (|args| > 0 ==> FieldWellFormed(args[0], room))
               && (|args| > 1 ==> FieldWellFormed(args[1], room))
               && (|args| > 2 ==> FieldWellFormed(args[2], room))
               && (|args| > 3 ==> FieldWellFormed(args[3], room)))
  {
    hide FieldWellFormed;
  }

  lemma OpFieldKind(i: nat, room: nat)
    requires i < VARIANTS && room > 0
    ensures FieldPlain(OpField(i)) && FieldWellFormed(OpField(i), room)
  {
    hide OpText, IsUtf8;
    OpTextIsCString(i);
  }

  lemma PayloadPlain(c: PlayerCommand)
    requires IdsCountable(c)
    ensures Plain(Payload(c), true)
  {
    hide Schema, FieldPlain, Arguments, Plain, OpField;
    var args, fs := Arguments(c), CommandFields(c);
    CommandSchema(c);
    OpFieldKind(VariantIndex(c), 1);
    ArgumentsPlain(c);
    forall i | 0 <= i < |fs| ensures FieldPlain(fs[i]) {
      if i > 0 { assert fs[i] == args[i - 1]; }
    }
    RecordPlain(fs);
  }

  lemma PayloadWellFormed(c: PlayerCommand, room: nat)
    requires room > 2 && IdsCountable(c)
    ensures WellFormed(Payload(c), room) <==> Utf8Command(c)
  {
    hide Schema, FieldWellFormed, FieldValuesWellFormed, Arguments, WellFormed, OpField, Utf8Command;
    var args, fs := Arguments(c), CommandFields(c);
    CommandSchema(c);
    RecordWellFormed(fs, room);
    OpFieldKind(VariantIndex(c), room - 1);
    ArgumentsWellFormed(c, room - 1);
    FieldValuesTail(fs, room - 1);
    assert fs[1..] == args;
  }

  ghost function DecodeCommand(b: seq<Octet>): Option<PlayerCommand>
  {
    var v :- Decode(b);
    DecCommand(v)
  }

  lemma CommandIsTagged(c: PlayerCommand)
    ensures CommandValue(c) == Tagged(VariantIndex(c), Payload(c))
  {
  }

  lemma TaggedPlain(i: U64, payload: Value)
    requires Plain(payload, true)
    ensures Plain(Tagged(i, payload), true)
  {
    hide Plain;
    var items := [UInt(i), payload];
    forall k | 0 <= k < |items| ensures Plain(items[k], true) {
      if k == 0 { IntegerPlain(i); }
    }
    ArrayPlain(items);
  }

  lemma IntegerPlain(i: U64)
    ensures Plain(UInt(i), true)
  {
  }

  lemma ArrayPlain(items: seq<Value>)
    requires |items| <= SIZE_MAX && forall k :: 0 <= k < |items| ==> Plain(items[k], true)
    ensures Plain(Array(items), true)
  {
  }

  lemma TaggedWellFormed(i: U64, payload: Value, room: nat)
    requires room > 1
    ensures WellFormed(Tagged(i, payload), room) <==> WellFormed(payload, room - 1)
  {
    var items := [UInt(i), payload];
    assert Tagged(i, payload) == Array(items);
    assert AllWellFormed(items, room - 1) <==> WellFormed(items[1], room - 1);
  }

  lemma CommandEncodable(c: PlayerCommand)
    requires IdsCountable(c)
    ensures Plain(CommandValue(c), true)
    ensures WellFormed(CommandValue(c), ROOT_ROOM) <==> Utf8Command(c)
  {
    hide Payload, Utf8Command, Plain, WellFormed, Tagged, IdsCountable, VariantIndex;
    PayloadPlain(c);
    PayloadWellFormed(c, MAX_DEPTH);
    TaggedPlain(VariantIndex(c), Payload(c));
    TaggedWellFormed(VariantIndex(c), Payload(c), ROOT_ROOM);
  }

  /** Every variant comes back from its bytes when its strings are UTF-8, and is refused otherwise. */
  lemma CommandWire(c: PlayerCommand)
    requires IdsCountable(c)
    ensures DecodeCommand(Enc(CommandValue(c))) == if Utf8Command(c) then Some(c) else None
  {
    CommandEncodable(c);
    CommandRoundTrip(c);
    hide Plain, WellFormed, CommandValue, DecCommand, Utf8Command, Decode, Enc;
    WireRoundTrip(CommandValue(c));
  }

  /** The bytes of a variant's payload sent under another index are refused. */
  lemma WrongTagRefusedOnTheWire(c: PlayerCommand, j: U64)
    requires IdsCountable(c) && j != VariantIndex(c)
    ensures DecodeCommand(Enc(Tagged(j, Payload(c)))) == None
  {
    hide Payload, DecCommand, Decode, Enc, WellFormed, Plain, Tagged, IdsCountable, VariantIndex;
    CommandRoundTrip(c);
    CommandIsTagged(c);
    WrongTagRefused(VariantIndex(c), j, Payload(c));
    PayloadPlain(c);
    TaggedPlain(j, Payload(c));
    WireRoundTrip(Tagged(j, Payload(c)));
  }

  lemma CommandAscending(c: PlayerCommand)
    ensures Ascending(Payload(c).pairs)
  {
    hide Schema, Ascending, Present;
    CommandSchema(c);
    RecordAscending(CommandFields(c));
  }

  const COMMAND_KEYS: set<Key> :=
    { Op, AtIndex, TrackIds, Index, QueueItemId, ToIndex, FromIndex, BeforeQueueItemId, PositionMs, StartIndex,
      Volume, RepeatModeKey, Shuffle, PlaybackId, Error, Status }

  ghost predicate SameFinds(m: Value, n: Value)
  {
    && Find(m, Op) == Find(n, Op) && Find(m, AtIndex) == Find(n, AtIndex) && Find(m, TrackIds) == Find(n, TrackIds)
    && Find(m, Index) == Find(n, Index) && Find(m, QueueItemId) == Find(n, QueueItemId)
    && Find(m, ToIndex) == Find(n, ToIndex) && Find(m, FromIndex) == Find(n, FromIndex)
    && Find(m, BeforeQueueItemId) == Find(n, BeforeQueueItemId) && Find(m, PositionMs) == Find(n, PositionMs)
    && Find(m, StartIndex) == Find(n, StartIndex) && Find(m, Volume) == Find(n, Volume)
    && Find(m, RepeatModeKey) == Find(n, RepeatModeKey) && Find(m, Shuffle) == Find(n, Shuffle)
    && Find(m, PlaybackId) == Find(n, PlaybackId) && Find(m, Error) == Find(n, Error)
    && Find(m, Status) == Find(n, Status)
  }

  lemma NamedFinds(m: Value, n: Value)
    requires SameNamedPairs(m, n, COMMAND_KEYS)
    ensures SameFinds(m, n)
  {
    SameNamedLookups(m, n, COMMAND_KEYS);
    hide Find, SameNamedPairs;
  }

  lemma QueueArgumentsUnordered(i: nat, m: Value, n: Value)
    requires i <= 6 && SameFinds(m, n)
    ensures QueueArguments(i, m) == QueueArguments(i, n)
  {
    hide Find, Optional, ListOf, GetText, ReadEnum;
  }

  lemma TransportArgumentsUnordered(i: nat, m: Value, n: Value)
    requires 7 <= i <= 16 && SameFinds(m, n)
    ensures TransportArguments(i, m) == TransportArguments(i, n)
  {
    hide Find, Optional, ListOf, GetText, ReadEnum;
  }

  lemma PlaybackArgumentsUnordered(i: nat, m: Value, n: Value)
    requires 17 <= i < VARIANTS && SameFinds(m, n)
    ensures PlaybackArguments(i, m) == PlaybackArguments(i, n)
  {
    hide Find, Optional, ListOf, GetText, ReadEnum;
  }

  lemma ArgumentsUnordered(i: nat, m: Value, n: Value)
    requires i < VARIANTS && SameFinds(m, n)
    ensures ReadArguments(i, m) == ReadArguments(i, n)
  {
    hide SameFinds, QueueArguments, TransportArguments, PlaybackArguments;
    if i <= 6 {
      QueueArgumentsUnordered(i, m, n);
    } else if i <= 16 {
      TransportArgumentsUnordered(i, m, n);
    } else {
      PlaybackArgumentsUnordered(i, m, n);
    }
  }

  /** Neither the order of the payload's pairs nor unknown keys change the command that is read. */
  lemma CommandUnordered(i: U64, m: Value, n: Value)
    requires SameNamedPairs(m, n, COMMAND_KEYS)
    ensures DecCommand(Tagged(i, m)) == DecCommand(Tagged(i, n))
  {
    hide Find, OpText, ReadArguments;
    NamedFinds(m, n);
    if i < VARIANTS { ArgumentsUnordered(i, m, n); }
  }
}
