/** The NodeReport record: two required fields and six optional ones of every kind. */
module NodeReports {
  import opened Octets
  import opened Utf8
  import opened Cbor
  import opened Codec
  import opened KeyOrder
  import opened Fields
  import opened Readers

  datatype NodeReport = NodeReport(
    playerId: CString,
    event: Option<NodeEvent>,
    status: PlayerStatus,
    queueItemId: Option<U64>,
    playbackId: Option<CString>,
    positionMs: Option<U64>,
    error: Option<CString>,
    audioBlocked: Option<bool>)

  function ReportFields(r: NodeReport): seq<Field>
  {
    [ OptTextField(Error, r.error),
      OptEnumField(Event, NodeEvents, r.event),
      EnumField(Status, PlayerStatuses, r.status),
      TextField(PlayerId, r.playerId),
      OptTextField(PlaybackId, r.playbackId),
      OptUIntField(PositionMs, r.positionMs),
      OptBoolField(AudioBlocked, r.audioBlocked),
      OptUIntField(QueueItemId, r.queueItemId) ]
  }

  function ReportValue(r: NodeReport): Value
  {
    Record(ReportFields(r))
  }

  function DecReport(m: Value): Option<NodeReport>
  {
    if !m.Map? then None
    else
      var error := GetText(Find(m, Error));
      var event :- Optional(Find(m, Event), ReadNodeEvent);
      var status :- ReadPlayerStatus(Find(m, Status));
      var playerId :- GetText(Find(m, PlayerId));
      var playbackId := GetText(Find(m, PlaybackId));
      var positionMs :- Optional(Find(m, PositionMs), AsU64);
      var audioBlocked :- Optional(Find(m, AudioBlocked), AsBool);
      var queueItemId :- Optional(Find(m, QueueItemId), AsU64);
      Some(NodeReport(playerId, event, status, queueItemId, playbackId, positionMs, error, audioBlocked))
  }

  lemma ErrorBeforeEvent()
    ensures Before(Error, Event)
  {
    hide Before;
    Diverges(Error, Event, 1);
  }

  lemma CloseReportKeysOrder()
    ensures Before(Error, Event) && Before(PlaybackId, PositionMs) && Before(AudioBlocked, QueueItemId)
  {
    hide Before;
    ErrorBeforeEvent();
    PlaybackBeforePosition();
    Diverges(AudioBlocked, QueueItemId, 0);
  }

  lemma FarKeysOrder()
    ensures Before(Event, Status) && Before(Status, PlayerId)
    ensures Before(PlayerId, PlaybackId) && Before(PositionMs, AudioBlocked)
  {
    hide Before;
    Shorter(Event, Status);
    Shorter(Status, PlayerId);
    Shorter(PlayerId, PlaybackId);
    Shorter(PositionMs, AudioBlocked);
  }

  lemma ReportSchema(r: NodeReport)
    ensures Schema(ReportFields(r))
  {
    CloseReportKeysOrder();
    FarKeysOrder();
    hide Before;
  }

  lemma ReportLookups(r: NodeReport)
    ensures var m := ReportValue(r);
            && Find(m, Error) == OptTextField(Error, r.error).value
            && Find(m, Event) == OptEnumField(Event, NodeEvents, r.event).value
            && Find(m, Status) == Some(EnumValue(PlayerStatuses, r.status))
            && Find(m, PlayerId) == Some(Text(r.playerId))
            && Find(m, PlaybackId) == OptTextField(PlaybackId, r.playbackId).value
            && Find(m, PositionMs) == OptUIntField(PositionMs, r.positionMs).value
            && Find(m, AudioBlocked) == OptBoolField(AudioBlocked, r.audioBlocked).value
            && Find(m, QueueItemId) == OptUIntField(QueueItemId, r.queueItemId).value
  {
    var fs := ReportFields(r);
    ReportSchema(r);
    hide Schema, Find, Present, EnumValue;
    FindField(fs, 0);
    FindField(fs, 1);
    FindField(fs, 2);
    FindField(fs, 3);
    FindField(fs, 4);
    FindField(fs, 5);
    FindField(fs, 6);
    FindField(fs, 7);
  }

  lemma ReportRoundTrip(r: NodeReport)
    ensures DecReport(ReportValue(r)) == Some(r)
  {
    ReportLookups(r);
    EnumsReadBack();
    FieldsReadBack();
    assert ReportValue(r).Map?;
    hide Find, EnumValue, ReportValue, GetText, Optional, ReadPlayerStatus, ReadNodeEvent, OptTextField, OptUIntField,
         OptBoolField, OptEnumField;
  }

  ghost predicate Utf8Report(r: NodeReport)
  {
    OptUtf8(r.error) && IsUtf8(r.playerId) && OptUtf8(r.playbackId)
  }

  lemma ReportPlain(r: NodeReport)
    ensures Plain(ReportValue(r), true)
  {
    hide Schema, FieldPlain, Plain, Record, TextField, OptTextField, OptUIntField, OptBoolField, EnumField,
         OptEnumField;
    var fs := ReportFields(r);
    ReportSchema(r);
    FieldKindsPlain();
    OptEnumKind(Event, NodeEvents, r.event, MAX_DEPTH);
    RecordPlain(fs);
  }

  lemma ReportWellFormed(r: NodeReport)
    ensures WellFormed(ReportValue(r), ROOT_ROOM) <==> Utf8Report(r)
  {
    hide Schema, IsUtf8, FieldWellFormed, WellFormed, Record, TextField, OptTextField, OptUIntField, OptBoolField,
         EnumField, OptEnumField;
    var fs := ReportFields(r);
    ReportSchema(r);
    RecordWellFormed(fs, ROOT_ROOM);
    FieldKinds(MAX_DEPTH);
    OptEnumKind(Event, NodeEvents, r.event, MAX_DEPTH);
    assert FieldValuesWellFormed(fs, MAX_DEPTH) <==>
           FieldWellFormed(fs[0], MAX_DEPTH) && FieldWellFormed(fs[3], MAX_DEPTH) && FieldWellFormed(fs[4], MAX_DEPTH);
  }

  // ----- main results -----

  ghost function DecodeReport(b: seq<Octet>): Option<NodeReport>
  {
    var m :- Decode(b);
    DecReport(m)
  }

  /** Round trip over the wire for every subset of the optional fields. */
  lemma ReportWire(r: NodeReport)
    ensures DecodeReport(Enc(ReportValue(r))) == if Utf8Report(r) then Some(r) else None
  {
    ReportPlain(r);
    ReportWellFormed(r);
    ReportRoundTrip(r);
    hide Plain, WellFormed, ReportValue, DecReport, Utf8Report, Decode, Enc;
    WireRoundTrip(ReportValue(r));
  }

  lemma ReportAscending(r: NodeReport)
    ensures Ascending(ReportValue(r).pairs)
  {
    hide Schema, Ascending, Present;
    ReportSchema(r);
    RecordAscending(ReportFields(r));
  }

  const REPORT_KEYS: set<Key> :=
    { Error, Event, Status, PlayerId, PlaybackId, PositionMs, AudioBlocked, QueueItemId }

  lemma ReportUnordered(m: Value, n: Value)
    requires SameNamedPairs(m, n, REPORT_KEYS)
    ensures DecReport(m) == DecReport(n)
  {
    SameNamedLookups(m, n, REPORT_KEYS);
    assert m.Map? && n.Map?;
    hide Find, ReadEnum, SameNamedPairs;
  }
}
