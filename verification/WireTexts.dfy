/** The texts of the protocol, octet by octet: keys, enumeration constants and command names. */
module WireTexts {
  import opened Octets
  import opened Fields
  import opened Readers
  import opened Commands

  function KeyOctets(k: Key): seq<Octet>
  {
    match k
    case Op => [0x6F, 0x70]  // op
    case Size => [0x73, 0x69, 0x7A, 0x65]  // size
    case Error => [0x65, 0x72, 0x72, 0x6F, 0x72]  // error
    case Event => [0x65, 0x76, 0x65, 0x6E, 0x74]  // event
    case Files => [0x66, 0x69, 0x6C, 0x65, 0x73]  // files
    case Index => [0x69, 0x6E, 0x64, 0x65, 0x78]  // index
    case Queue => [0x71, 0x75, 0x65, 0x75, 0x65]  // queue
    case Title => [0x74, 0x69, 0x74, 0x6C, 0x65]  // title
    case Artist => [0x61, 0x72, 0x74, 0x69, 0x73, 0x74]  // artist
    case Chunks => [0x63, 0x68, 0x75, 0x6E, 0x6B, 0x73]  // chunks
    case Offset => [0x6F, 0x66, 0x66, 0x73, 0x65, 0x74]  // offset
    case Sha256 => [0x73, 0x68, 0x61, 0x32, 0x35, 0x36]  // sha256
    case Status => [0x73, 0x74, 0x61, 0x74, 0x75, 0x73]  // status
    case Volume => [0x76, 0x6F, 0x6C, 0x75, 0x6D, 0x65]  // volume
    case LibraryKey => [0x6C, 0x69, 0x62, 0x72, 0x61, 0x72, 0x79]  // library
    case Shuffle => [0x73, 0x68, 0x75, 0x66, 0x66, 0x6C, 0x65]  // shuffle
    case AtIndex => [0x61, 0x74, 0x5F, 0x69, 0x6E, 0x64, 0x65, 0x78]  // at_index
    case CanUndo => [0x63, 0x61, 0x6E, 0x5F, 0x75, 0x6E, 0x64, 0x6F]  // can_undo
    case Revision => [0x72, 0x65, 0x76, 0x69, 0x73, 0x69, 0x6F, 0x6E]  // revision
    case ToIndex => [0x74, 0x6F, 0x5F, 0x69, 0x6E, 0x64, 0x65, 0x78]  // to_index
    case TrackId => [0x74, 0x72, 0x61, 0x63, 0x6B, 0x5F, 0x69, 0x64]  // track_id
    case PlayerId => [0x70, 0x6C, 0x61, 0x79, 0x65, 0x72, 0x5F, 0x69, 0x64]  // player_id
    case TrackIds => [0x74, 0x72, 0x61, 0x63, 0x6B, 0x5F, 0x69, 0x64, 0x73]  // track_ids
    case FromIndex => [0x66, 0x72, 0x6F, 0x6D, 0x5F, 0x69, 0x6E, 0x64, 0x65, 0x78]  // from_index
    case SizeBytes => [0x73, 0x69, 0x7A, 0x65, 0x5F, 0x62, 0x79, 0x74, 0x65, 0x73]  // size_bytes
    case DurationMs => [0x64, 0x75, 0x72, 0x61, 0x74, 0x69, 0x6F, 0x6E, 0x5F, 0x6D, 0x73]  // duration_ms
    case PlaybackId => [0x70, 0x6C, 0x61, 0x79, 0x62, 0x61, 0x63, 0x6B, 0x5F, 0x69, 0x64]  // playback_id
    case PositionMs => [0x70, 0x6F, 0x73, 0x69, 0x74, 0x69, 0x6F, 0x6E, 0x5F, 0x6D, 0x73]  // position_ms
    case RepeatModeKey => [0x72, 0x65, 0x70, 0x65, 0x61, 0x74, 0x5F, 0x6D, 0x6F, 0x64, 0x65]  // repeat_mode
    case StartIndex => [0x73, 0x74, 0x61, 0x72, 0x74, 0x5F, 0x69, 0x6E, 0x64, 0x65, 0x78]  // start_index
    case ContentType => [0x63, 0x6F, 0x6E, 0x74, 0x65, 0x6E, 0x74, 0x5F, 0x74, 0x79, 0x70, 0x65]  // content_type
    case AudioBlocked =>  // audio_blocked
      [ 0x61, 0x75, 0x64, 0x69, 0x6F, 0x5F, 0x62,
        0x6C, 0x6F, 0x63, 0x6B, 0x65, 0x64 ]
    case CurrentIndex =>  // current_index
      [ 0x63, 0x75, 0x72, 0x72, 0x65, 0x6E, 0x74,
        0x5F, 0x69, 0x6E, 0x64, 0x65, 0x78 ]
    case QueueItemId => [0x71, 0x75, 0x65, 0x75, 0x65, 0x5F, 0x69, 0x74, 0x65, 0x6D, 0x5F, 0x69, 0x64]  // queue_item_id
    case TrackFileIndex =>  // track_file_index
      [ 0x74, 0x72, 0x61, 0x63, 0x6B, 0x5F, 0x66, 0x69,
        0x6C, 0x65, 0x5F, 0x69, 0x6E, 0x64, 0x65, 0x78 ]
    case RootRelativePath =>  // root_relative_path
      [ 0x72, 0x6F, 0x6F, 0x74, 0x5F, 0x72, 0x65, 0x6C, 0x61,
        0x74, 0x69, 0x76, 0x65, 0x5F, 0x70, 0x61, 0x74, 0x68 ]
    case BeforeQueueItemId =>  // before_queue_item_id
      [ 0x62, 0x65, 0x66, 0x6F, 0x72, 0x65, 0x5F, 0x71, 0x75, 0x65,
        0x75, 0x65, 0x5F, 0x69, 0x74, 0x65, 0x6D, 0x5F, 0x69, 0x64 ]
    case Entries => [0x65, 0x6E, 0x74, 0x72, 0x69, 0x65, 0x73]  // entries
  }

  function NameOctets(t: EnumType): seq<seq<Octet>>
  {
    match t
    case PlayerStatuses =>
      [ [0x73, 0x74, 0x6F, 0x70, 0x70, 0x65, 0x64],
        [0x70, 0x6C, 0x61, 0x79, 0x69, 0x6E, 0x67],
        [0x70, 0x61, 0x75, 0x73, 0x65, 0x64] ]  // stopped, playing, paused
    case RepeatModes =>
      [ [0x6F, 0x66, 0x66],
        [0x61, 0x6C, 0x6C],
        [0x6F, 0x6E, 0x65] ]  // off, all, one
    case NodeEvents =>
      [ [0x72, 0x65, 0x61, 0x64, 0x79],
        [0x73, 0x74, 0x61, 0x74, 0x65],
        [0x63, 0x6F, 0x6D, 0x70, 0x6C, 0x65, 0x74, 0x65, 0x64],
        [0x66, 0x61, 0x69, 0x6C, 0x65, 0x64] ]  // ready, state, completed, failed
    case Libraries =>
      [ [0x6D, 0x75, 0x73, 0x69, 0x63],
        [0x61, 0x75, 0x64, 0x69, 0x6F, 0x62, 0x6F, 0x6F, 0x6B] ]  // music, audiobook
  }

  function OpOctets(i: nat): seq<Octet>
    requires i < 20
  {
    match i
    case 0 => [0x65, 0x6E, 0x71, 0x75, 0x65, 0x75, 0x65]  // enqueue
    case 1 => [0x65, 0x6E, 0x71, 0x75, 0x65, 0x75, 0x65, 0x2D, 0x6E, 0x65, 0x78, 0x74]  // enqueue-next
    case 2 => [0x72, 0x65, 0x6D, 0x6F, 0x76, 0x65]  // remove
    case 3 => [0x72, 0x65, 0x6D, 0x6F, 0x76, 0x65, 0x2D, 0x69, 0x74, 0x65, 0x6D]  // remove-item
    case 4 => [0x72, 0x65, 0x6F, 0x72, 0x64, 0x65, 0x72]  // reorder
    case 5 => [0x6D, 0x6F, 0x76, 0x65, 0x2D, 0x69, 0x74, 0x65, 0x6D]  // move-item
    case 6 => [0x63, 0x6C, 0x65, 0x61, 0x72]  // clear
    case 7 => [0x70, 0x6C, 0x61, 0x79]  // play
    case 8 =>  // replace-and-play
      [ 0x72, 0x65, 0x70, 0x6C, 0x61, 0x63, 0x65, 0x2D,
        0x61, 0x6E, 0x64, 0x2D, 0x70, 0x6C, 0x61, 0x79 ]
    case 9 => [0x70, 0x61, 0x75, 0x73, 0x65]  // pause
    case 10 => [0x6E, 0x65, 0x78, 0x74]  // next
    case 11 => [0x70, 0x72, 0x65, 0x76, 0x69, 0x6F, 0x75, 0x73]  // previous
    case 12 => [0x73, 0x65, 0x65, 0x6B]  // seek
    case 13 => [0x76, 0x6F, 0x6C, 0x75, 0x6D, 0x65]  // volume
    case 14 => [0x73, 0x65, 0x74, 0x2D, 0x72, 0x65, 0x70, 0x65, 0x61, 0x74]  // set-repeat
    case 15 => [0x73, 0x65, 0x74, 0x2D, 0x73, 0x68, 0x75, 0x66, 0x66, 0x6C, 0x65]  // set-shuffle
    case 16 => [0x75, 0x6E, 0x64, 0x6F]  // undo
    case 17 =>  // playback-completed
      [ 0x70, 0x6C, 0x61, 0x79, 0x62, 0x61, 0x63, 0x6B, 0x2D,
        0x63, 0x6F, 0x6D, 0x70, 0x6C, 0x65, 0x74, 0x65, 0x64 ]
    case 18 =>  // playback-failed
      [ 0x70, 0x6C, 0x61, 0x79, 0x62, 0x61, 0x63, 0x6B,
        0x2D, 0x66, 0x61, 0x69, 0x6C, 0x65, 0x64 ]
    case _ => [0x70, 0x6C, 0x61, 0x79, 0x62, 0x61, 0x63, 0x6B, 0x2D, 0x73, 0x74, 0x61, 0x74, 0x65]  // playback-state
  }

  // ----- the literals of the program are these texts -----

  lemma KeysUpToTitle()
    ensures Name(Op) == KeyOctets(Op) && Name(Size) == KeyOctets(Size)
    ensures Name(Error) == KeyOctets(Error) && Name(Event) == KeyOctets(Event)
    ensures Name(Files) == KeyOctets(Files) && Name(Index) == KeyOctets(Index)
    ensures Name(Queue) == KeyOctets(Queue) && Name(Title) == KeyOctets(Title)
  {
  }

  lemma KeysUpToSha256()
    ensures Name(Artist) == KeyOctets(Artist) && Name(Chunks) == KeyOctets(Chunks)
    ensures Name(Offset) == KeyOctets(Offset) && Name(Sha256) == KeyOctets(Sha256)
  {
  }

  lemma KeysUpToShuffle()
    ensures Name(Status) == KeyOctets(Status) && Name(Volume) == KeyOctets(Volume)
    ensures Name(LibraryKey) == KeyOctets(LibraryKey) && Name(Shuffle) == KeyOctets(Shuffle)
  {
  }

  lemma KeysUpToToIndex()
    ensures Name(AtIndex) == KeyOctets(AtIndex) && Name(CanUndo) == KeyOctets(CanUndo)
    ensures Name(Revision) == KeyOctets(Revision) && Name(ToIndex) == KeyOctets(ToIndex)
  {
  }

  lemma KeysUpToTrackIds()
    ensures Name(TrackId) == KeyOctets(TrackId) && Name(PlayerId) == KeyOctets(PlayerId)
    ensures Name(TrackIds) == KeyOctets(TrackIds)
  {
  }

  lemma KeysUpToDurationMs()
    ensures Name(FromIndex) == KeyOctets(FromIndex) && Name(SizeBytes) == KeyOctets(SizeBytes)
    ensures Name(DurationMs) == KeyOctets(DurationMs)
  {
  }

  lemma KeysUpToRepeatModeKey()
    ensures Name(PlaybackId) == KeyOctets(PlaybackId) && Name(PositionMs) == KeyOctets(PositionMs)
    ensures Name(RepeatModeKey) == KeyOctets(RepeatModeKey)
  {
  }

  lemma KeysUpToAudioBlocked()
    ensures Name(StartIndex) == KeyOctets(StartIndex) && Name(ContentType) == KeyOctets(ContentType)
    ensures Name(AudioBlocked) == KeyOctets(AudioBlocked)
  {
  }

  lemma KeysUpToQueueItemId()
    ensures Name(CurrentIndex) == KeyOctets(CurrentIndex) && Name(QueueItemId) == KeyOctets(QueueItemId)
  {
  }

  lemma KeysUpToRootRelativePath()
    ensures Name(TrackFileIndex) == KeyOctets(TrackFileIndex) && Name(RootRelativePath) == KeyOctets(RootRelativePath)
  {
  }

  lemma KeysUpToEntries()
    ensures Name(BeforeQueueItemId) == KeyOctets(BeforeQueueItemId) && Name(Entries) == KeyOctets(Entries)
  {
  }

  /** The keys the program spells are these octets. */
  lemma KeySpelt(k: Key)
    ensures Name(k) == KeyOctets(k)
  {
    KeysUpToTitle();
    KeysUpToSha256();
    KeysUpToShuffle();
    KeysUpToToIndex();
    KeysUpToTrackIds();
    KeysUpToDurationMs();
    KeysUpToRepeatModeKey();
    KeysUpToAudioBlocked();
    KeysUpToQueueItemId();
    KeysUpToRootRelativePath();
    KeysUpToEntries();
    hide Name, KeyOctets;
  }

  lemma PlayerEnumsSpelt(t: EnumType, e: nat)
    requires e < Constants(t) && (t.PlayerStatuses? || t.RepeatModes?)
    ensures |NameOctets(t)| == Constants(t) && Ascii(Texts(t)[e]) == NameOctets(t)[e]
  {
  }

  lemma NodeEnumsSpelt(t: EnumType, e: nat)
    requires e < Constants(t) && (t.NodeEvents? || t.Libraries?)
    ensures |NameOctets(t)| == Constants(t) && Ascii(Texts(t)[e]) == NameOctets(t)[e]
  {
  }

  /** The constants of the enumerations are these octets. */
  lemma EnumSpelt(t: EnumType, e: nat)
    requires e < Constants(t)
    ensures |NameOctets(t)| == Constants(t) && Ascii(Texts(t)[e]) == NameOctets(t)[e]
  {
    hide Ascii, Texts, NameOctets, Constants;
    if t.PlayerStatuses? || t.RepeatModes? {
      PlayerEnumsSpelt(t, e);
    } else {
      NodeEnumsSpelt(t, e);
    }
  }

  lemma OpsUpTo3()
    ensures OpText(0) == OpOctets(0) && OpText(1) == OpOctets(1)
    ensures OpText(2) == OpOctets(2) && OpText(3) == OpOctets(3)
  {
  }

  lemma OpsUpTo7()
    ensures OpText(4) == OpOctets(4) && OpText(5) == OpOctets(5)
    ensures OpText(6) == OpOctets(6) && OpText(7) == OpOctets(7)
  {
  }

  lemma OpsUpTo11()
    ensures OpText(8) == OpOctets(8) && OpText(9) == OpOctets(9)
    ensures OpText(10) == OpOctets(10) && OpText(11) == OpOctets(11)
  {
  }

  lemma OpsUpTo15()
    ensures OpText(12) == OpOctets(12) && OpText(13) == OpOctets(13)
    ensures OpText(14) == OpOctets(14) && OpText(15) == OpOctets(15)
  {
  }

  lemma OpsUpTo17()
    ensures OpText(16) == OpOctets(16) && OpText(17) == OpOctets(17)
  {
  }

  lemma OpsUpTo19()
    ensures OpText(18) == OpOctets(18) && OpText(19) == OpOctets(19)
  {
  }

  /** The command names are these octets. */
  lemma OpSpelt(i: nat)
    requires i < VARIANTS
    ensures OpText(i) == OpOctets(i)
  {
    OpsUpTo3();
    OpsUpTo7();
    OpsUpTo11();
    OpsUpTo15();
    OpsUpTo17();
    OpsUpTo19();
    hide OpText, OpOctets;
  }
}
