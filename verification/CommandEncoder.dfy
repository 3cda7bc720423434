/** The encoder of the tagged sum: the index of the variant, then its record. */
module CommandEncoder {
  import opened Octets
  import opened Cbor
  import opened Fields
  import opened Readers
  import opened OutputBuffer
  import opened RecordWriter
  import opened Commands

  method EncodeTrackIds(b: Buf, ids: seq<CString>) returns (ok: bool)
    requires b.Valid() && |ids| <= SIZE_MAX
    modifies b, b.data
    ensures b.Valid() && (b.data == old(b.data) || fresh(b.data))
    ensures b.Wrote(old(b.Contents()), Enc(Array(WriteAll(ids, TextValue))), ok)
  {
    hide b.Wrote, ShortHead, EncItems;
    ghost var before, vs := b.Contents(), WriteAll(ids, TextValue);
    ok := BeginList(b, |ids|, vs);
    if !ok { ListStopped(b, before, vs, 0); return; }
    var i := 0;
    while i < |ids|
      invariant i <= |ids| && b.Valid() && (b.data == old(b.data) || fresh(b.data))
      invariant InList(b, before, vs, i, true)
    {
      hide InList;
      ListSoFar(b, before, vs, i);
      ok := b.WriteString(3, ids[i]);
      ItemWritten(b, before, vs, i, ok);
      if !ok { ListStopped(b, before, vs, i + 1); return; }
      i := i + 1;
    }
    ListWritten(b, before, vs, true);
    return true;
  }

  lemma ListStopped(b: Buf, before: seq<Octet>, vs: seq<Value>, i: nat)
    requires i <= |vs| && InList(b, before, vs, i, false)
    ensures b.Wrote(before, Enc(Array(vs)), false)
  {
  }

  method PutTrackIds(b: Buf, ids: seq<CString>, ghost before: seq<Octet>, ghost fs: seq<Field>, ghost j: nat)
    returns (ok: bool)
    requires |ids| <= SIZE_MAX && j < |fs| <= 24 && At(b, before, fs, j, true) && fs[j] == TrackIdsField(ids)
    modifies b, b.data
    ensures b.Valid() && (b.data == old(b.data) || fresh(b.data))
    ensures At(b, before, fs, j + 1, ok)
  {
    hide Upto, Name, Enc, Record, WriteAll;
    ok := PutKey(b, TrackIds, before, fs, j);
    if !ok { return; }
    b.StartedFits(before, Upto(fs, j) + Enc(Text(Name(TrackIds))));
    ok := EncodeTrackIds(b, ids);
    ValueWritten(b, before, fs, j, ok);
  }

  /** How many pairs a variant's record holds: its op, its required fields and the optional ones that are set. */
  function PairCount(c: PlayerCommand): nat
  {
    match c
    case Enqueue(_, at) => if at.Some? then 3 else 2
    case EnqueueNext(_) => 2
    case Remove(_) => 2
    case RemoveItem(_) => 2
    case Reorder(_, _) => 3
    case MoveItem(_, before) => if before.Some? then 3 else 2
    case Clear => 1
    case Play(i, id) => (if i.Some? then 2 else 1) + if id.Some? then 1 else 0
    case ReplaceAndPlay(_, start, ms) => (if ms.Some? then 3 else 2) + if start.Some? then 1 else 0
    case Pause => 1
    case Next => 1
    case Previous => 1
    case Seek(_) => 2
    case SetVolume(_) => 2
    case SetRepeat(_) => 2
    case SetShuffle(_) => 2
    case Undo => 1
    case PlaybackCompleted(_, _) => 3
    case PlaybackFailed(_, _, _) => 4
    case PlaybackState(_, _, _, _) => 5
  }

  lemma CountUpToFour(fs: seq<Field>)
    requires |fs| <= 4
    ensures CountPresent(fs) ==
            (if |fs| > 0 && fs[0].value.Some? then 1 else 0) + (if |fs| > 1 && fs[1].value.Some? then 1 else 0)
            + (if |fs| > 2 && fs[2].value.Some? then 1 else 0) + (if |fs| > 3 && fs[3].value.Some? then 1 else 0)
  {
    assert fs[0..] == fs;
    if |fs| > 0 { CountStep(fs, 0); }
    if |fs| > 1 { CountStep(fs, 1); }
    if |fs| > 2 { CountStep(fs, 2); }
    if |fs| > 3 { CountStep(fs, 3); }
  }

  /** The count announced is the number of pairs written. */
  lemma PairCountExact(c: PlayerCommand)
    ensures CountPresent(CommandFields(c)) == PairCount(c)
  {
    hide CountPresent, OpText, EnumValue, TrackIdsField;
    var args, fs := Arguments(c), CommandFields(c);
    assert fs[0..] == fs && fs[1..] == args;
    CountStep(fs, 0);
    ArgumentsSchema(c);
    CountUpToFour(args);
    TrackIdsPresent();
  }

  lemma TrackIdsPresent()
    ensures forall ids: seq<CString> :: TrackIdsField(ids).value.Some?
  {
  }

  /** The arguments of the variants that change the queue. */
  method PutQueueArguments(b: Buf, c: PlayerCommand, ghost before: seq<Octet>, ghost fs: seq<Field>)
    returns (ok: bool)
    requires VariantIndex(c) <= 6 && IdsCountable(c)
    requires fs == CommandFields(c) && |fs| <= 24 && At(b, before, fs, 1, true)
    modifies b, b.data
    ensures b.Valid() && (b.data == old(b.data) || fresh(b.data))
    ensures At(b, before, fs, |fs|, ok)
  {
    hide b.Wrote, Upto, Enc, Record, OpText, TrackIdsField, UIntField, OptUIntField;
    ok := true;
    match c {
      case Enqueue(ids, at) =>
        ok := PutOptUInt(b, AtIndex, at, before, fs, 1);
        if !ok { return; }
        ok := PutTrackIds(b, ids, before, fs, 2);
      case EnqueueNext(ids) =>
        ok := PutTrackIds(b, ids, before, fs, 1);
      case Remove(i) =>
        ok := PutUInt(b, Index, i, before, fs, 1);
      case RemoveItem(id) =>
        ok := PutUInt(b, QueueItemId, id, before, fs, 1);
      case Reorder(from, to) =>
        ok := PutUInt(b, ToIndex, to, before, fs, 1);
        if !ok { return; }
        ok := PutUInt(b, FromIndex, from, before, fs, 2);
      case MoveItem(id, next) =>
        ok := PutUInt(b, QueueItemId, id, before, fs, 1);
        if !ok { return; }
        ok := PutOptUInt(b, BeforeQueueItemId, next, before, fs, 2);
      case Clear =>
    }
  }

  /** The arguments of the variants that control playback. */
  method PutTransportArguments(b: Buf, c: PlayerCommand, ghost before: seq<Octet>, ghost fs: seq<Field>)
    returns (ok: bool)
    requires 7 <= VariantIndex(c) <= 16 && IdsCountable(c)
    requires fs == CommandFields(c) && |fs| <= 24 && At(b, before, fs, 1, true)
    modifies b, b.data
    ensures b.Valid() && (b.data == old(b.data) || fresh(b.data))
    ensures At(b, before, fs, |fs|, ok)
  {
    hide b.Wrote, Upto, Enc, Record, OpText, TrackIdsField, UIntField, OptUIntField, EnumField, BoolField;
    ok := true;
    match c {
      case Play(i, id) =>
        ok := PutOptUInt(b, Index, i, before, fs, 1);
        if !ok { return; }
        ok := PutOptUInt(b, QueueItemId, id, before, fs, 2);
      case ReplaceAndPlay(ids, start, ms) =>
        ok := PutTrackIds(b, ids, before, fs, 1);
        if !ok { return; }
        ok := PutOptUInt(b, PositionMs, ms, before, fs, 2);
        if !ok { return; }
        ok := PutOptUInt(b, StartIndex, start, before, fs, 3);
      case Pause =>
      case Next =>
      case Previous =>
      case Seek(ms) =>
        ok := PutUInt(b, PositionMs, ms, before, fs, 1);
      case SetVolume(v) =>
        ok := PutUInt(b, Volume, v, before, fs, 1);
      case SetRepeat(mode) =>
        ok := PutEnum(b, RepeatModeKey, RepeatModes, mode, before, fs, 1);
      case SetShuffle(on) =>
        ok := PutBool(b, Shuffle, on, before, fs, 1);
      case Undo =>
    }
  }

  /** The arguments of the variants by which a node reports on playback. */
  method PutPlaybackArguments(b: Buf, c: PlayerCommand, ghost before: seq<Octet>, ghost fs: seq<Field>)
    returns (ok: bool)
    requires 17 <= VariantIndex(c) && fs == CommandFields(c) && |fs| <= 24 && At(b, before, fs, 1, true)
    modifies b, b.data
    ensures b.Valid() && (b.data == old(b.data) || fresh(b.data))
    ensures At(b, before, fs, |fs|, ok)
  {
    hide b.Wrote, Upto, Enc, Record, OpText, UIntField, TextField, EnumField;
    match c {
      case PlaybackCompleted(playback, id) =>
        ok := PutText(b, PlaybackId, playback, before, fs, 1);
        if !ok { return; }
        ok := PutUInt(b, QueueItemId, id, before, fs, 2);
      case PlaybackFailed(playback, id, error) =>
        ok := PutText(b, Error, error, before, fs, 1);
        if !ok { return; }
        ok := PutText(b, PlaybackId, playback, before, fs, 2);
        if !ok { return; }
        ok := PutUInt(b, QueueItemId, id, before, fs, 3);
      case PlaybackState(playback, id, status, ms) =>
        ok := PutEnum(b, Status, PlayerStatuses, status, before, fs, 1);
        if !ok { return; }
        ok := PutText(b, PlaybackId, playback, before, fs, 2);
        if !ok { return; }
        ok := PutUInt(b, PositionMs, ms, before, fs, 3);
        if !ok { return; }
        ok := PutUInt(b, QueueItemId, id, before, fs, 4);
    }
  }

  lemma OpIsText(c: PlayerCommand)
    ensures 0 !in OpText(VariantIndex(c)) && |OpText(VariantIndex(c))| < SIZE_MAX
    ensures CommandFields(c)[0] == TextField(Op, OpText(VariantIndex(c)))
    ensures 1 <= |CommandFields(c)| <= 5
  {
    hide OpText, VariantIndex;
    OpTextIsCString(VariantIndex(c));
    ArgumentsSchema(c);
  }

  /** A variant's record: its op, then its arguments. */
  method EncodePayload(b: Buf, c: PlayerCommand) returns (ok: bool)
    requires b.Valid() && IdsCountable(c)
    modifies b, b.data
    ensures b.Valid() && (b.data == old(b.data) || fresh(b.data))
    ensures b.Wrote(old(b.Contents()), Enc(Payload(c)), ok)
  {
    hide b.Wrote, Upto, Enc, Record, OpText, CountPresent, CommandFields, VariantIndex, IdsCountable, PairCount;
    ghost var before, fs := b.Contents(), CommandFields(c);
    PairCountExact(c);
    PresentCount(fs);
    OpIsText(c);
    ok := BeginRecord(b, PairCount(c), fs);
    if !ok { return; }
    ok := PutText(b, Op, OpText(VariantIndex(c)), before, fs, 0);
    if !ok { return; }
    if VariantIndex(c) <= 6 {
      ok := PutQueueArguments(b, c, before, fs);
    } else if VariantIndex(c) <= 16 {
      ok := PutTransportArguments(b, c, before, fs);
    } else {
      ok := PutPlaybackArguments(b, c, before, fs);
    }
    Finished(b, before, fs, ok);
  }

  method EncodeCommand(b: Buf, c: PlayerCommand) returns (ok: bool)
    requires b.Valid() && IdsCountable(c)
    modifies b, b.data
    ensures b.Valid() && (b.data == old(b.data) || fresh(b.data))
    ensures b.Wrote(old(b.Contents()), Enc(CommandValue(c)), ok)
  {
    hide b.Wrote, ShortHead, EncItems, Payload, VariantIndex, IdsCountable;
    ghost var before, vs := b.Contents(), [UInt(VariantIndex(c)), Payload(c)];
    ok := BeginList(b, 2, vs);
    if !ok { return; }
    ListSoFar(b, before, vs, 0);
    ok := b.WriteHead(0, VariantIndex(c));
    ItemWritten(b, before, vs, 0, ok);
    if !ok { return; }
    ListSoFar(b, before, vs, 1);
    ok := EncodePayload(b, c);
    ItemWritten(b, before, vs, 1, ok);
    if !ok { return; }
    ListWritten(b, before, vs, true);
  }
}
