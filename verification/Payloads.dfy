/** The entry points for whole payloads: encode into a fresh buffer, decode into a fresh arena. */
module Payloads {
  import opened Octets
  import opened Cbor
  import opened Codec
  import opened ArenaMemory
  import opened OutputBuffer
  import opened Borrowing
  import opened Reader
  import opened PlayerRecords
  import opened ImportRecords
  import opened NodeReports
  import opened SettingsRecords
  import opened Commands
  import opened RecordEncoders
  import opened CommandEncoder
  import opened RecordDecoders
  import opened RecordStrings
  import opened Weights

  /** What decoding may take from the arena whatever the input holds. */
  const FIXED_OCTETS: nat := 65 * 32832 + 32

  /** The octets of a payload when they fit the address space. */
  function Fits(s: seq<Octet>): Option<seq<Octet>>
  {
    if |s| <= SIZE_MAX then Some(s) else None
  }

  /** On success the result borrows from a valid arena; on failure every block has been released. */
  ghost predicate Settled(a: Arena, ok: bool)
    reads a, a.Repr, a.chain
  {
    if ok then a.Valid() else forall block :: block in a.chain ==> !block.live
  }

  method PlayerStateToOctets(ps: PlayerState) returns (r: Option<seq<Octet>>)
    requires |ps.queue| <= SIZE_MAX
    ensures r == Fits(Enc(PlayerStateValue(ps)))
  {
    hide Enc, PlayerStateValue;
    var b := new Buf();
    var ok := EncodePlayerState(b, ps);
    if !ok {
      return None;
    }
    r := Some(b.data[..b.len]);
    assert [] + Enc(PlayerStateValue(ps)) == Enc(PlayerStateValue(ps));
  }

  method PlayerStateFromOctets(b: seq<Octet>) returns (a: Arena, r: Option<PlayerState>)
    requires |b| <= SIZE_MAX
    ensures r.Some? || |b| <= MAX_INPUT ==> r == DecodePlayerState(b)
    ensures Settled(a, r.Some?) && a.taken <= 256 * |b| + FIXED_OCTETS
    ensures r.Some? ==> PlayerStateBorrows(r.value, a.contents)
  {
    hide Decode, DecPlayerState, Held, Nodes, Earlier, a.Valid, PlayerStateBorrows;
    var root;
    a, root := DecodePayload(b);
    if root.None? {
      return a, None;
    }
    ghost var decoded := a.Now();
    DecodedNodes(b, root.value);
    EarlierToItself(decoded);
    r := ReadPlayerState(a, root.value, decoded);
    if r.None? {
      a.ChainOwned();
      assert forall i :: 0 <= i < |a.chain| ==> fresh(a.chain[i]);
      a.Free();
    } else {
      a.ContentsFit();
      EarlierContents(decoded, decoded, a.Now());
      HeldLater(root.value, decoded.contents, a.contents);
      PlayerStateBorrowsFromTree(root.value, a.contents);
    }
  }

  method ImportToOctets(request: BeginImportRequest) returns (r: Option<seq<Octet>>)
    requires ListsCountable(request)
    ensures r == Fits(Enc(ImportValue(request)))
  {
    hide Enc, ImportValue;
    var b := new Buf();
    var ok := EncodeImport(b, request);
    if !ok {
      return None;
    }
    r := Some(b.data[..b.len]);
    assert [] + Enc(ImportValue(request)) == Enc(ImportValue(request));
  }

  method ImportFromOctets(b: seq<Octet>) returns (a: Arena, r: Option<BeginImportRequest>)
    requires |b| <= SIZE_MAX
    ensures r.Some? || |b| <= MAX_INPUT ==> r == DecodeImport(b)
    ensures Settled(a, r.Some?) && a.taken <= 256 * |b| + FIXED_OCTETS
    ensures r.Some? ==> ImportBorrows(r.value, a.contents)
  {
    hide Decode, DecImport, Held, Nodes, Earlier, a.Valid, ImportBorrows;
    var root;
    a, root := DecodePayload(b);
    if root.None? {
      return a, None;
    }
    ghost var decoded := a.Now();
    DecodedNodes(b, root.value);
    EarlierToItself(decoded);
    r := ReadImport(a, root.value, decoded);
    if r.None? {
      a.ChainOwned();
      assert forall i :: 0 <= i < |a.chain| ==> fresh(a.chain[i]);
      a.Free();
    } else {
      a.ContentsFit();
      EarlierContents(decoded, decoded, a.Now());
      HeldLater(root.value, decoded.contents, a.contents);
      ImportBorrowsFromTree(root.value, a.contents);
    }
  }

  method ReportToOctets(report: NodeReport) returns (r: Option<seq<Octet>>)
    ensures r == Fits(Enc(ReportValue(report)))
  {
    hide Enc, ReportValue;
    var b := new Buf();
    var ok := EncodeReport(b, report);
    if !ok {
      return None;
    }
    r := Some(b.data[..b.len]);
    assert [] + Enc(ReportValue(report)) == Enc(ReportValue(report));
  }

  method ReportFromOctets(b: seq<Octet>) returns (a: Arena, r: Option<NodeReport>)
    requires |b| <= SIZE_MAX
    ensures r.Some? || |b| <= MAX_INPUT ==> r == DecodeReport(b)
    ensures Settled(a, r.Some?) && a.taken <= 256 * |b| + FIXED_OCTETS
    ensures r.Some? ==> ReportBorrows(r.value, a.contents)
  {
    hide Decode, DecReport, Held, Nodes, Earlier, a.Valid, ReportBorrows;
    var root;
    a, root := DecodePayload(b);
    if root.None? {
      return a, None;
    }
    ghost var decoded := a.Now();
    DecodedNodes(b, root.value);
    EarlierToItself(decoded);
    r := ReadReport(a, root.value, decoded);
    if r.None? {
      a.ChainOwned();
      assert forall i :: 0 <= i < |a.chain| ==> fresh(a.chain[i]);
      a.Free();
    } else {
      a.ContentsFit();
      EarlierContents(decoded, decoded, a.Now());
      HeldLater(root.value, decoded.contents, a.contents);
      ReportBorrowsFromTree(root.value, a.contents);
    }
  }

  method SettingsToOctets(settings: Settings) returns (r: Option<seq<Octet>>)
    requires |settings.entries| <= SIZE_MAX
    ensures r == Fits(Enc(SettingsValue(settings)))
  {
    hide Enc, SettingsValue;
    var b := new Buf();
    var ok := EncodeSettings(b, settings);
    if !ok {
      return None;
    }
    r := Some(b.data[..b.len]);
    assert [] + Enc(SettingsValue(settings)) == Enc(SettingsValue(settings));
  }

  method SettingsFromOctets(b: seq<Octet>) returns (a: Arena, r: Option<Settings>)
    requires |b| <= SIZE_MAX
    ensures r.Some? || |b| <= MAX_INPUT ==> r == DecodeSettings(b)
    ensures Settled(a, r.Some?) && a.taken <= 256 * |b| + FIXED_OCTETS
    ensures r.Some? ==> SettingsBorrows(r.value, a.contents)
  {
    hide Decode, DecSettings, Held, Nodes, Earlier, a.Valid, SettingsBorrows;
    var root;
    a, root := DecodePayload(b);
    if root.None? {
      return a, None;
    }
    ghost var decoded := a.Now();
    DecodedNodes(b, root.value);
    EarlierToItself(decoded);
    r := ReadSettings(a, root.value, decoded);
    if r.None? {
      a.ChainOwned();
      assert forall i :: 0 <= i < |a.chain| ==> fresh(a.chain[i]);
      a.Free();
    } else {
      a.ContentsFit();
      EarlierContents(decoded, decoded, a.Now());
      HeldLater(root.value, decoded.contents, a.contents);
      SettingsBorrowsFromTree(root.value, a.contents);
    }
  }

  method CommandToOctets(c: PlayerCommand) returns (r: Option<seq<Octet>>)
    requires IdsCountable(c)
    ensures r == Fits(Enc(CommandValue(c)))
  {
    hide Enc, CommandValue;
    var b := new Buf();
    var ok := EncodeCommand(b, c);
    if !ok {
      return None;
    }
    r := Some(b.data[..b.len]);
    assert [] + Enc(CommandValue(c)) == Enc(CommandValue(c));
  }

  method CommandFromOctets(b: seq<Octet>) returns (a: Arena, r: Option<PlayerCommand>)
    requires |b| <= SIZE_MAX
    ensures r.Some? || |b| <= MAX_INPUT ==> r == DecodeCommand(b)
    ensures Settled(a, r.Some?) && a.taken <= 256 * |b| + FIXED_OCTETS
    ensures r.Some? ==> CommandBorrows(r.value, a.contents)
  {
    hide Decode, DecCommand, Held, Nodes, Earlier, a.Valid, CommandBorrows;
    var root;
    a, root := DecodePayload(b);
    if root.None? {
      return a, None;
    }
    ghost var decoded := a.Now();
    DecodedNodes(b, root.value);
    EarlierToItself(decoded);
    r := ReadCommand(a, root.value, decoded);
    if r.None? {
      a.ChainOwned();
      assert forall i :: 0 <= i < |a.chain| ==> fresh(a.chain[i]);
      a.Free();
    } else {
      a.ContentsFit();
      EarlierContents(decoded, decoded, a.Now());
      HeldLater(root.value, decoded.contents, a.contents);
      CommandBorrowsFromTree(root.value, a.contents);
    }
  }
}
