# Ichoi wire codec and certificate walk

This project models two parsers of the Ichoi repository and proves what they promise.

**The CBOR codec of the C client** (`server/generated/c-client/codec.gen.h`), a subset of RFC 8949:

- an output buffer that doubles as it grows, and the writers that fill it (`OutputBuffer`);
- a bump arena that supplies all storage of a decode and is freed as a whole (`ArenaMemory`);
- a recursive decoder with a depth limit, a UTF-8 check and storage that grows in stages (`Reader`), its elements kept
  in slots of arena regions;
- typed codecs that turn records, lists, enumerations and a tagged sum into maps and arrays and back
  (`Fields`, `Readers`, `RecordWriter`, `RecordEncoders`, `CommandEncoder`, `RecordDecoders`, `Payloads` and one module
  a record), with what the typed decoders take from the arena (`Weights`, `TypedStorage`);
- what the typed decoders may rely on: strings borrowed from the arena, and trees that differ only in what a decoder does
  not look at (`Borrowing`, `TreeTexts`, `RecordStrings`, `Alike`);
- the records on the wire, stated without encoders and decoders, and the proofs that those meet them (`WireTexts`,
  `WireForms`, `Acceptance`, `Layouts`, `Limits`).

**The DER walker of the iOS client** (`ios/IchoiCore/ConnectionSecurity.swift`), which cuts the
SubjectPublicKeyInfo out of an X.509 certificate (`Der`).

## How it fits together

Code that updates state is modelled as it is: `Buf` and `Arena` are classes over arrays and linked blocks, and the
writers, the decoder, the UTF-8 check, the map lookup, the enum match, the record encoders and decoders and the DER
walk are methods with the loops of the source. Each is proved to compute a function on values, and the promises are
proved of that function:

| layer | runs as | specified by | judged against |
|---|---|---|---|
| UTF-8 | `Utf8.Valid` | `IsUtf8` | the encodings of scalar values, RFC 3629 section 4 |
| writing | `Buf.WriteValue`, the `Encode…` methods | `Cbor.Enc` | the grammar's shortest items |
| reading | `Reader.DecodeValue` | `Decoding.Dec` | the grammar `Grammar.Item`, RFC 8949 section 3, and `Limits` on octets |
| records | `Payloads` | `…Value`, `Dec…` | `WireForms` and `Layouts`, which say octet by octet what stands under which key; round trip, order and separation laws |
| DER | `Der.SubjectPublicKeyInfo` | `Der.Walk` | certificates laid out as RFC 5280 section 4.1, tagged as X.690 section 8.1.2 |

`Grammar` says which octet strings are data items as a relation, with no parser in it. `Sound` and `Complete` tie the
parser to it in both directions, and the round trip, exact acceptance, shortest form, unambiguity and prefix laws all
follow. A value nests at most 65 levels including its root (`ROOT_ROOM`); `room` counts the levels still allowed.

`WireTexts` lists every key, enumeration constant and command name octet by octet, and shows that the literals of the
program are these. `WireForms` says with them which tree stands for which record, naming no decoder; `Acceptance` proves
that each decoder accepts exactly those, as trees and as bytes, and `Layouts` that each encoder writes exactly the pairs
listed there. The grammar's floats are stated by sign and number, which `Floats` proves of the widening.

A C string is an octet string without NUL (`CString`); a decoded text is seen up to its first NUL (`CStr`).
Integers are unbounded and every 64-bit limit (`SIZE_MAX`, `INT64_MIN`, wrap-around in `AlignUp`) is written out.

## Where the code and its comments disagree

- `codec.gen.h:187-189` says that doubling keeps the abandoned storage below the final size. That holds exactly when
  the declared count fits the first reservation or cuts the last doubling short by fewer than 1024 slots; 2049
  elements abandon 3072 slots. Twice the final size always bounds it (`GrowthWaste`, `WasteCounterexample`).
- `codec.gen.h:601-603` says that a value decoded from canonical input re-encodes to identical bytes. Section 4.2.1
  of RFC 8949 makes the shortest float the deterministic form; such a half-precision float re-encodes to nine octets,
  and undefined comes back as null. Re-encoding is exact for precisely the payloads with shortest heads, 64-bit floats
  and no undefined (`ReencodeExact`, `ReencodeCounterexample`).

## Model

| member | source | states |
|---|---|---|
| `Utf8.Valid` | server/generated/c-client/codec.gen.h:299-320 | The check accepts exactly the octet strings that are concatenated encodings of Unicode scalar values, and never indexes out of range. |
| `Utf8.CharFromScalar` | server/generated/c-client/codec.gen.h:303-317 | The encoding of every scalar value passes the code's lead, continuation and range checks. |
| `Utf8.ScalarFromChar` | server/generated/c-client/codec.gen.h:303-317 | Whatever passes those checks is the encoding of exactly one scalar value: no overlong form, no surrogate, nothing above 0x10FFFF. |
| `Utf8.AsciiIsUtf8` | server/generated/c-client/codec.gen.h:303 | ASCII keys and literals always pass the check. |
| `Octets.BigEndianRoundTrip` | server/generated/c-client/codec.gen.h:79-92 | The argument octets of a head hold any value that fits them. |
| `Octets.FromBigEndianRoundTrip` | server/generated/c-client/codec.gen.h:255-286 | Reading argument octets and writing them again in the same width changes nothing. |
| `OutputBuffer.Buf.constructor` | server/generated/c-client/codec.gen.h:30-34 | A new buffer is empty and has moved nothing. |
| `OutputBuffer.Buf.Reserve` | server/generated/c-client/codec.gen.h:43-57 | Contents are kept, room is made exactly when the total does not overflow, the doubling loop ends, and while doubling never saturates all octets ever moved are at most the present capacity. |
| `OutputBuffer.Buf.Push` | server/generated/c-client/codec.gen.h:59-63 | Appends one octet, failing exactly when the total would exceed SIZE_MAX. |
| `OutputBuffer.Buf.Append` | server/generated/c-client/codec.gen.h:65-71 | The contents become the concatenation, failing exactly when the total would exceed SIZE_MAX; nothing written is lost. |
| `OutputBuffer.Buf.WriteHead` | server/generated/c-client/codec.gen.h:75-95 | Writes the shortest head for every 64-bit argument. |
| `OutputBuffer.Buf.WriteInt` | server/generated/c-client/codec.gen.h:99-105 | Writes the encoding of every signed 64-bit integer, INT64_MIN included. |
| `OutputBuffer.Buf.WriteString` | server/generated/c-client/codec.gen.h:107-115 | Writes a text or byte string as its length and octets; when the octets do not fit, the head stays written and the write fails. |
| `OutputBuffer.Buf.WriteFloat` | server/generated/c-client/codec.gen.h:123-130 | Writes a double as its 64-bit pattern. |
| `OutputBuffer.Buf.WriteValue` | server/generated/c-client/codec.gen.h:601-632 | Appends exactly the encoding of a tree of any depth, null for an absent one; on overflow what was written is a prefix of it. |
| `OutputBuffer.Buf.WriteItems` | server/generated/c-client/codec.gen.h:614-619 | The element loop appends the array head and every element in order. |
| `OutputBuffer.Buf.WritePairs` | server/generated/c-client/codec.gen.h:620-626 | The pair loop appends the map head and every key and value in order. |
| `ArenaMemory.WrapIsNoticed` | server/generated/c-client/codec.gen.h:166-167 | The round-up is smaller than the size if and only if it wrapped, so wrap-around is never missed. |
| `ArenaMemory.RequestFits` | server/generated/c-client/codec.gen.h:166-172 | The two overflow checks together refuse exactly the requests above SIZE_MAX - 31. |
| `ArenaMemory.Arena.NewBlock` | server/generated/c-client/codec.gen.h:169-178 | A block put in front of the chain leaves all regions and what they hold as they were. |
| `ArenaMemory.Arena.Bump` | server/generated/c-client/codec.gen.h:179-181 | A region cut from the first block lies in it, is aligned, and is apart from all earlier ones. |
| `ArenaMemory.Arena.Alloc` | server/generated/c-client/codec.gen.h:164-182 | Every run of allocations keeps the regions disjoint, inside their block, at offsets that are multiples of 16, with used never above capacity, and keeps what malloc was asked for within twice what was handed out plus the room left in the first block; it fails exactly for sizes above SIZE_MAX - 31. |
| `ArenaMemory.Arena.Copy` | server/generated/c-client/codec.gen.h:288-297 | The copy holds the source, NUL-terminated when text, every earlier region keeps its octets, and it fails exactly when the string with its NUL exceeds SIZE_MAX - 31. |
| `ArenaMemory.Arena.Overwrite` | server/generated/c-client/codec.gen.h:294-295 | Writing into the newest region changes no earlier one. |
| `ArenaMemory.Arena.StorageApart` | server/generated/c-client/codec.gen.h:179-181 | Two regions handed out at different times share no octet of storage. |
| `ArenaMemory.Arena.ReserveSlots` | server/generated/c-client/codec.gen.h:190-194 | Reserving array or map storage lays out that many slots in a region of exactly their size, adds them to the account, keeps everything stored, and fails exactly above SIZE_MAX - 31 octets. |
| `ArenaMemory.Arena.Grow` | server/generated/c-client/codec.gen.h:190-195 | The new storage starts with the used slots of the old one, and the old one and every other region keep what they hold. |
| `ArenaMemory.Arena.Put` | server/generated/c-client/codec.gen.h:432-433 | A slot of any storage, however old, is written without changing the octets of any other region or what any other slot holds. |
| `ArenaMemory.Arena.OverwriteSlot` | server/generated/c-client/codec.gen.h:432-433 | Octets written anywhere inside a region that holds slots leave every other region as it is, older or newer. |
| `ArenaMemory.Arena.Free` | server/generated/c-client/codec.gen.h:197-206 | Every block is released exactly once, and its link is read while it is still live. |
| `Decoding.ReadHead` | server/generated/c-client/codec.gen.h:255-286 | A head written in any permitted width reads back as its argument and its length. |
| `Decoding.HeadRead` | server/generated/c-client/codec.gen.h:255-286 | Whatever reads as a head is one of the five widths of a head for that argument. |
| `Decoding.Sound` | server/generated/c-client/codec.gen.h:347-497 | Whatever the decoder accepts is one item of the grammar for the value it returns, and it consumes that item. |
| `Decoding.Complete` | server/generated/c-client/codec.gen.h:347-497 | Every item of the grammar within the depth limit is accepted, with its value and length, whatever follows. |
| `Codec.ExactAcceptance` | server/generated/c-client/codec.gen.h:499-522 | A payload decodes to a value if and only if it is one grammar item for that value: definite lengths, depth at most 64 below the root, UTF-8 text, integers from INT64_MIN, simple values 20 to 23, nothing trailing. |
| `Codec.RoundTrip` | server/generated/c-client/codec.gen.h:347-497 | Decoding an encoding and any suffix returns the value and consumes exactly the encoding, if and only if the value is well formed. |
| `Codec.WireRoundTrip` | server/generated/c-client/codec.gen.h:499-632 | A value that is not well formed is refused after encoding, never misread. |
| `Codec.EncIsItem` | server/generated/c-client/codec.gen.h:604-632 | The encoding of a well-formed value is an item in the deterministic dialect of the grammar. |
| `Codec.EncIsShortest` | server/generated/c-client/codec.gen.h:73-95 | No item without narrow floats for the value is shorter than its encoding; one of the same length without undefined is the encoding. |
| `Codec.UniqueShortest` | server/generated/c-client/codec.gen.h:73-95 | Among the accepted payloads for a value with 64-bit floats and no undefined, the encoding is the one shortest. |
| `Codec.ReencodeExact` | server/generated/c-client/codec.gen.h:601-632 | An accepted payload re-encodes to its own octets if and only if it has shortest heads, 64-bit floats and no undefined. |
| `Codec.ReencodeCounterexample` | server/generated/c-client/codec.gen.h:601-632 | The half-precision 1.0 and undefined do not re-encode to themselves. |
| `Codec.SuffixIrrelevant` | server/generated/c-client/codec.gen.h:347-497 | A successful read gives the same value and length under any suffix, and on the consumed octets alone. |
| `Codec.PrefixFree` | server/generated/c-client/codec.gen.h:499-522 | No accepted payload is a proper prefix of another. |
| `Codec.UniqueSplit` | server/generated/c-client/codec.gen.h:499-522 | A concatenation of payloads splits into payloads in one way only. |
| `Floats.SingleValueKept` | server/generated/c-client/codec.gen.h:468-476 | Widening a finite single keeps its sign and its numeric value, subnormals included. |
| `Floats.SingleSpecialKept` | server/generated/c-client/codec.gen.h:468-476 | A single infinity widens to the double one of its sign, a NaN to a quiet NaN with its sign and payload. |
| `Floats.HalfValueKept` | server/generated/c-client/codec.gen.h:323-346 | Widening a finite half keeps its sign and its numeric value, subnormals included. |
| `Floats.HalfSpecialKept` | server/generated/c-client/codec.gen.h:338-339 | A half infinity widens to the double one of its sign, a NaN to a quiet NaN with its sign and payload. |
| `Floats.SingleWidened` | server/generated/c-client/codec.gen.h:468-476 | The double the decoder computes from a single is the only one with the same sign and number, infinity or NaN payload. |
| `Floats.HalfWidened` | server/generated/c-client/codec.gen.h:463-467 | The same for a half; the grammar's floats are stated by sign and number, not by this computation. |
| `Limits.DepthLimit` | server/generated/c-client/codec.gen.h:349 | On octets: arrays, maps and tags may nest 64 levels deep in any mixture, and no deeper. |
| `Limits.IntegerLimit` | server/generated/c-client/codec.gen.h:364 | On octets: a negative integer is accepted exactly down to -2^63. |
| `Growth.CompleteGrowth` | server/generated/c-client/codec.gen.h:383-401 | Growth ends with capacity equal to the declared count, having reserved the count and everything it outgrew. |
| `Growth.ReservationPaid` | server/generated/c-client/codec.gen.h:180-195 | Each element stored pays for four slots; with one first reservation that covers everything reserved. |
| `Growth.GrowthWaste` | server/generated/c-client/codec.gen.h:187-194 | Abandoned slots are below twice the final size, and below the final size exactly when the last doubling is cut short by fewer than 1024 slots or never happens. |
| `Growth.WasteCounterexample` | server/generated/c-client/codec.gen.h:187-189 | 2049 elements abandon 3072 slots, against the comment. |
| `Allocation.AcceptedSlots` | server/generated/c-client/codec.gen.h:382-440 | An accepted item reserves at most four slots for each octet after its first. |
| `Allocation.SlotsBound` | server/generated/c-client/codec.gen.h:347-440 | Any item, accepted or not, reserves at most four slots an octet and one first reservation a nesting level. |
| `Allocation.PayloadSlots` | server/generated/c-client/codec.gen.h:180-185 | For every input the slots reserved, abandoned copies included, are at most 4 times its length plus 65 * 1024. |
| `EarlyChecks.ChecksLoseNothing` | server/generated/c-client/codec.gen.h:382-440 | Without the count checks the same inputs are accepted with the same results, as every element takes an octet. |
| `Reader.ReadArgument` | server/generated/c-client/codec.gen.h:255-286 | The branches and the octet loop read exactly the argument of the head. |
| `Reader.DecodeValue` | server/generated/c-client/codec.gen.h:347-497 | The recursive decoder computes exactly the specified parse, reserves no more slots than accounted for, hands out at most 32 octets a slot and 48 an octet read, and every string of its result is still stored in the arena at the end, texts NUL-terminated. |
| `Reader.DecodeString` | server/generated/c-client/codec.gen.h:367-381 | The string value is the input's octets read from the arena copy; text fails the UTF-8 check or is stored with its NUL. |
| `Reader.FirstSlots` | server/generated/c-client/codec.gen.h:383-389 | At most 1024 slots are reserved in the arena before any element is read, apart from everything handed out before. |
| `Reader.RoomFor` | server/generated/c-client/codec.gen.h:391-396 | Growing moves every stored element into the new storage of the arena, gives room for the next one, and stays within the account. |
| `Reader.DecodeArray` | server/generated/c-client/codec.gen.h:382-407 | Staged growth refines plain storage: each element is written to its slot in the arena after nested allocations, and the slots read back are the parsed elements in order, all their strings still stored. |
| `Reader.DecodeMap` | server/generated/c-client/codec.gen.h:408-440 | Staged growth refines plain storage for pairs: the slots read back are the parsed keys and values in turn, all their strings still stored. |
| `Reader.ArrayStep` | server/generated/c-client/codec.gen.h:390-401 | One turn of the element loop writes exactly the next item to the next slot, keeps the slots before it through its nested allocations, and stays within the account of slots and octets. |
| `Reader.MapStep` | server/generated/c-client/codec.gen.h:416-434 | One turn of the pair loop writes exactly the next key and value to the next slot, keeps the slots before it, and stays within the account. |
| `Reader.ElementInNode` | server/generated/c-client/codec.gen.h:424-431 | A key or value is decoded into its own node, which was handed out before the item's own storage; the other node keeps what it holds. |
| `Reader.DecodePair` | server/generated/c-client/codec.gen.h:426-434 | One key and one value are read in order; the key's strings survive the reading of the value. |
| `Reader.DecodeTag` | server/generated/c-client/codec.gen.h:441-451 | A tag's content is read one level deeper, into a node handed out before it. |
| `Reader.DecodeSimple` | server/generated/c-client/codec.gen.h:452-493 | Only the simple values 20 to 23 and the three float widths are accepted. |
| `Reader.DecodePayload` | server/generated/c-client/codec.gen.h:499-522 | Decodes exactly the single-item payloads and frees the whole arena on failure; on any input, slots, octets handed out by the arena and octets asked of malloc are all bounded linearly in its length. |
| `Borrowing.HeldLater` | server/generated/c-client/codec.gen.h:288-297 | Strings borrowed from the arena stay intact while it only grows. |
| `TreeTexts.CutBorrowed` | server/generated/c-client/codec.gen.h:571-575 | What a C program sees of a stored text, cut at its first NUL, stands in the arena with a NUL of its own. |
| `TreeTexts.CutKeepsUtf8` | server/generated/c-client/codec.gen.h:571-575 | A UTF-8 text cut at its first NUL is UTF-8. |
| `TreeTexts.CStringOfText` | server/generated/c-client/codec.gen.h:571-575 | What a C program sees of a text is exactly what stands before its first NUL, terminator included. |
| `KeyOrder.HeadMonotone` | server/generated/c-client/codec.gen.h:75-95 | A head for a smaller argument precedes one for a larger argument bytewise, across widths and whatever follows. |
| `KeyOrder.EncodedKeyOrder` | server/generated/c-client/codec.gen.h:107-110 | For text keys of any length, bytewise order of the encodings is length first, then bytewise. |
| `Fields.PresentCount` | server/generated/c-client/codec.gen.h:2959-2964 | The number of fields present is the number of pairs written. |
| `Fields.RecordAscending` | server/generated/c-client/codec.gen.h:2958-3001 | Whichever optional fields are absent, a record's keys ascend strictly in the bytewise order of their encodings. |
| `Fields.LookupField` | server/generated/c-client/codec.gen.h:524-535 | A scan of a written record finds under each name exactly what was stored there, or nothing. |
| `Fields.RecordWellFormed` | server/generated/c-client/codec.gen.h:2958-3001 | A record can be decoded exactly when the values of its present fields can. |
| `Readers.ScanMap` | server/generated/c-client/codec.gen.h:524-535 | The linear scan returns the value of the first pair whose key is that text, and nothing when no pair has it. |
| `Readers.MatchName` | server/generated/c-client/codec.gen.h:985-996 | The name scan finds the constant whose wire text matches in length and octets. |
| `Readers.EnumRoundTrip` | server/generated/c-client/codec.gen.h:973-1047 | Every enumeration constant survives being written and read. |
| `Readers.EnumsReadBack` | server/generated/c-client/codec.gen.h:1011-1047 | Reading a required or optional enumeration field undoes writing it. |
| `Readers.ReadStep` | server/generated/c-client/codec.gen.h:2255-2261 | A list reads as its elements in order, and never once one element does not read. |
| `Readers.ReadWritten` | server/generated/c-client/codec.gen.h:2231-2261 | A list of any length reads back when each element does. |
| `Readers.SameNamedLookups` | server/generated/c-client/codec.gen.h:524-535 | Permuting the pairs, or adding pairs under keys a record does not name, changes no lookup. |
| `Alike.AlikeFinds` | server/generated/c-client/codec.gen.h:524-535 | Maps that hold alike values under the named keys, in any order and among other pairs, answer every lookup alike. |
| `Alike.ReorderedIsAlike` | server/generated/c-client/codec.gen.h:524-535 | Permuting distinct pairs or adding pairs under other keys makes such a map. |
| `RecordWriter.BeginRecord` | server/generated/c-client/codec.gen.h:120 | The map head announces the number of pairs that follow. |
| `RecordWriter.PutText` | server/generated/c-client/codec.gen.h:2914-2915 | A required text field extends the record by its key and value. |
| `RecordWriter.PutUInt` | server/generated/c-client/codec.gen.h:2920-2921 | A required integer field extends the record by its key and value. |
| `RecordWriter.PutBool` | server/generated/c-client/codec.gen.h:2978-2979 | A required boolean field extends the record by its key and value. |
| `RecordWriter.PutEnum` | server/generated/c-client/codec.gen.h:979-982 | An enumeration field extends the record by its key and wire text. |
| `RecordWriter.PutOptText` | server/generated/c-client/codec.gen.h:2965-2968 | An optional text is written exactly when it is set. |
| `RecordWriter.PutOptUInt` | server/generated/c-client/codec.gen.h:2990-2993 | An optional integer is written exactly when it is set. |
| `RecordWriter.Stopped` | server/generated/c-client/codec.gen.h:2958-3001 | An encoder that returns early has failed because the whole record does not fit. |
| `PlayerRecords.QueueItemRoundTrip` | server/generated/c-client/codec.gen.h:2895-2950 | Every queue item, with any subset of its optional fields, reads back from its map. |
| `PlayerRecords.QueueItemEncodable` | server/generated/c-client/codec.gen.h:2895-2920 | A queue item can be decoded exactly when its strings are UTF-8. |
| `PlayerRecords.PlayerStateRoundTrip` | server/generated/c-client/codec.gen.h:2958-3053 | Every player state with a queue of any length reads back from its map. |
| `PlayerRecords.PlayerStateWellFormed` | server/generated/c-client/codec.gen.h:2958-3001 | A player state can be decoded exactly when its strings and those of its queue are UTF-8 and the queue can be held. |
| `PlayerRecords.PlayerStateWire` | server/generated/c-client/codec.gen.h:2958-3053 | Typed encode, byte decode and typed decode return the same state when its strings are UTF-8, and refuse it otherwise. |
| `PlayerRecords.PlayerStateAscending` | server/generated/c-client/codec.gen.h:2958-3001 | Keys ascend in the state and in every queued item, for every subset of optional fields. |
| `PlayerRecords.PlayerStateUnordered` | server/generated/c-client/codec.gen.h:3004-3053 | Neither pair order nor unknown keys, in the state or in any queued item, change the state read. |
| `PlayerRecords.PlayerStateReordered` | server/generated/c-client/codec.gen.h:3004-3053 | Permuting a state's own pairs or adding pairs under other keys changes nothing. |
| `ImportRecords.ChunkRoundTrip` | server/generated/c-client/codec.gen.h:2197-2225 | Every chunk reads back from its map. |
| `ImportRecords.FileRoundTrip` | server/generated/c-client/codec.gen.h:2228-2272 | Every file with any number of chunks reads back from its map. |
| `ImportRecords.ImportRoundTrip` | server/generated/c-client/codec.gen.h:6016-6061 | Every import request with any number of files, each with any number of chunks, reads back from its map. |
| `ImportRecords.ImportEncodable` | server/generated/c-client/codec.gen.h:6016-6032 | An import request can be decoded exactly when all its strings, at every level, are UTF-8 and its lists can be held. |
| `ImportRecords.ImportWire` | server/generated/c-client/codec.gen.h:6016-6061 | Encoding a request with both nested lists and decoding its bytes returns it when its strings are UTF-8 and its lists can be held, and refuses it otherwise. |
| `ImportRecords.ImportAscending` | server/generated/c-client/codec.gen.h:6016-6032 | Keys ascend in the request, in every file and in every chunk. |
| `ImportRecords.ImportUnordered` | server/generated/c-client/codec.gen.h:6035-6061 | Neither pair order nor unknown keys, in the request, in any file or in any chunk, change the request read. |
| `ImportRecords.ImportReordered` | server/generated/c-client/codec.gen.h:6035-6061 | Permuting a request's own pairs or adding pairs under other keys changes nothing. |
| `NodeReports.ReportRoundTrip` | server/generated/c-client/codec.gen.h:4923-5009 | Every report, with any subset of six optional fields, reads back from its map. |
| `NodeReports.ReportWire` | server/generated/c-client/codec.gen.h:4923-5009 | Encoding a report and decoding its bytes returns it when its strings are UTF-8, and refuses it otherwise. |
| `NodeReports.ReportAscending` | server/generated/c-client/codec.gen.h:4923-4961 | Keys ascend for every subset of optional fields. |
| `NodeReports.ReportUnordered` | server/generated/c-client/codec.gen.h:4964-5009 | Neither pair order nor unknown keys change the report read. |
| `SettingsRecords.SettingsWire` | server/generated/c-client/codec.gen.h:6168-6203 | The caller's entries come back in the caller's order, repeated keys included. |
| `SettingsRecords.CollectEntries` | server/generated/c-client/codec.gen.h:6194-6200 | The entry loop reads all pairs in order, or fails when one key or value is no text. |
| `SettingsRecords.EntriesAscendAsListed` | server/generated/c-client/codec.gen.h:6168-6178 | The entries' keys ascend if and only if the caller listed them so: the one map without deterministic order. |
| `SettingsRecords.UnorderedEntries` | server/generated/c-client/codec.gen.h:6173-6176 | Two entries listed out of order are written out of order. |
| `Commands.LiteralsDistinct` | server/generated/c-client/codec.gen.h:3147-3723 | No two of the twenty variants share an op literal. |
| `Commands.WrongTagRefused` | server/generated/c-client/codec.gen.h:3815-3903 | A payload accepted under one index is refused under every other. |
| `Commands.CommandRoundTrip` | server/generated/c-client/codec.gen.h:3726-3903 | All twenty variants survive being written and read, for all arguments. |
| `Commands.CommandWire` | server/generated/c-client/codec.gen.h:3726-3903 | Encoding a command and decoding its bytes returns it when its strings are UTF-8, and refuses it otherwise. |
| `Commands.WrongTagRefusedOnTheWire` | server/generated/c-client/codec.gen.h:3815-3903 | The bytes of a variant's record sent under another index are refused. |
| `Commands.CommandAscending` | server/generated/c-client/codec.gen.h:3147-3705 | Keys ascend in the record of every variant. |
| `Commands.CommandUnordered` | server/generated/c-client/codec.gen.h:3815-3903 | Neither pair order nor unknown keys change the command read. |
| `WireTexts.KeySpelt` | server/generated/c-client/codec.gen.h:2895-3001 | Every key the program spells is the octets listed for it. |
| `WireTexts.EnumSpelt` | server/generated/c-client/codec.gen.h:973-1028 | Every enumeration constant is the octets listed for it, in the order of the constants. |
| `WireTexts.OpSpelt` | server/generated/c-client/codec.gen.h:3147-3705 | The name of each of the twenty commands is the octets listed for its index. |
| `Layouts.QueueItemLayout` | server/generated/c-client/codec.gen.h:2895-2923 | An item is written as a map that holds exactly these octets, pair by pair; absent optional fields are left out. |
| `Layouts.PlayerStateLayout` | server/generated/c-client/codec.gen.h:2958-3001 | A state is written as exactly this map, each field under its own octets, its queue as an array of item maps. |
| `Layouts.FileLayout` | server/generated/c-client/codec.gen.h:2228-2245 | A file is written as exactly this map, its chunks as an array of chunk maps. |
| `Layouts.ImportLayout` | server/generated/c-client/codec.gen.h:6016-6032 | A request is written as exactly this map, its files as an array of file maps. |
| `Layouts.ReportLayout` | server/generated/c-client/codec.gen.h:4923-4961 | A report is written as exactly this map, for every subset of its optional fields. |
| `Layouts.SettingsLayout` | server/generated/c-client/codec.gen.h:6168-6178 | Settings are written as a map of the caller's entries under the one key. |
| `Layouts.CommandLayout` | server/generated/c-client/codec.gen.h:3147-3812 | Each of the twenty variants is written as an array of its index and exactly this map of its name and arguments. |
| `Layouts.NextOctets` | server/generated/c-client/codec.gen.h:3484-3490 | The command Next in full is 82 0A A1 62 6F 70 64 6E 65 78 74. |
| `Acceptance.QueueItemRead` | server/generated/c-client/codec.gen.h:2926-2955 | A tree is decoded to an item if and only if it is a map that holds each field under its octets: required ones as values of their kind, optional ones absent or of their kind, optional texts set exactly when a text stands there. |
| `Acceptance.PlayerStateRead` | server/generated/c-client/codec.gen.h:3004-3053 | The same, if and only if, for a state with its queue. |
| `Acceptance.ChunkRead` | server/generated/c-client/codec.gen.h:2212-2225 | The same for a chunk. |
| `Acceptance.FileRead` | server/generated/c-client/codec.gen.h:2248-2272 | The same for a file with its chunks. |
| `Acceptance.ImportRead` | server/generated/c-client/codec.gen.h:6035-6061 | The same for a request with its files; a library that is null or no known name refuses it. |
| `Acceptance.ReportRead` | server/generated/c-client/codec.gen.h:4964-5009 | The same for a report; a null under an optional number, flag or enumeration refuses it. |
| `Acceptance.SettingsRead` | server/generated/c-client/codec.gen.h:6181-6203 | The same for settings: every key and value of the entries is a text, in their order. |
| `Acceptance.CommandRead` | server/generated/c-client/codec.gen.h:3815-3903 | The same for all twenty commands, with the index and the name of each variant. |
| `Acceptance.PlayerStateAcceptance` | server/generated/c-client/codec.gen.h:7692-7699 | Bytes decode to a state if and only if they are one data item of that form. |
| `Acceptance.ImportAcceptance` | server/generated/c-client/codec.gen.h:9693-9700 | Bytes decode to a request if and only if they are one data item of that form. |
| `Acceptance.ReportAcceptance` | server/generated/c-client/codec.gen.h:8957-8964 | Bytes decode to a report if and only if they are one data item of that form. |
| `Acceptance.SettingsAcceptance` | server/generated/c-client/codec.gen.h:9808-9815 | Bytes decode to settings if and only if they are one data item of that form. |
| `Acceptance.CommandAcceptance` | server/generated/c-client/codec.gen.h:3815-3903 | Bytes decode to a command if and only if they are one data item that is an array of that variant's own index and a map with that variant's own name and arguments. |
| `RecordStrings.PlayerStateNormalForm` | server/generated/c-client/codec.gen.h:2958-3053 | Whatever bytes a state is decoded from, unknown keys and texts with NULs included, its encoding decodes to the same state. |
| `RecordStrings.ImportNormalForm` | server/generated/c-client/codec.gen.h:6016-6061 | Whatever bytes an import request is decoded from, its encoding decodes to the same request. |
| `RecordStrings.ReportNormalForm` | server/generated/c-client/codec.gen.h:4923-5009 | Whatever bytes a node report is decoded from, its encoding decodes to the same report. |
| `RecordStrings.CommandNormalForm` | server/generated/c-client/codec.gen.h:3726-3903 | Whatever bytes a command is decoded from, its encoding decodes to the same command. |
| `RecordStrings.SettingsNormalForm` | server/generated/c-client/codec.gen.h:6168-6203 | Whatever bytes settings are decoded from, their encoding decodes to the same settings. |
| `RecordStrings.PlayerStateBorrowsFromTree` | server/generated/c-client/codec.gen.h:7689-7691 | Every string of a decoded state, its queue included, stands in the arena with its NUL. |
| `RecordStrings.ImportBorrowsFromTree` | server/generated/c-client/codec.gen.h:9690-9692 | Every string of a decoded request, its files and chunks included, stands in the arena with its NUL. |
| `RecordStrings.CommandBorrowsFromTree` | server/generated/c-client/codec.gen.h:8241-8243 | Every string of a decoded command, its track ids included, stands in the arena with its NUL. |
| `Weights.NodesPaid` | server/generated/c-client/codec.gen.h:347-497 | Every value, key and tag content of a decoded tree was paid for by an octet of the input. |
| `Weights.DecodedNodes` | server/generated/c-client/codec.gen.h:499-522 | The tree of a payload has no more values than the payload has octets. |
| `TypedStorage.RequestsStayInRange` | server/generated/c-client/codec.gen.h:3014-3015 | No array of structs that an input of at most MAX_INPUT octets calls for overflows the unchecked product of count and size. |
| `TypedStorage.ArrayStorage` | server/generated/c-client/codec.gen.h:3014-3016 | The array handed out has room for all elements whenever the count is at most MAX_INPUT; the product wraps as size_t does. |
| `TypedStorage.OptNumber` | server/generated/c-client/codec.gen.h:2944-2951 | An optional number takes at most 16 octets, whether it reads or not, and keeps all that is stored. |
| `RecordDecoders.ReadQueueItem` | server/generated/c-client/codec.gen.h:2926-2950 | Scan, check and early return compute exactly the item whose round trip is proved, taking at most 32 octets from the arena and keeping all that is stored there. |
| `RecordDecoders.ReadQueue` | server/generated/c-client/codec.gen.h:3009-3018 | The element loop reads the whole queue in order, or fails when one item does, with at most 80 octets of the arena for each value in the list. |
| `RecordDecoders.ReadPlayerState` | server/generated/c-client/codec.gen.h:3004-3053 | The decoder computes exactly the state whose round trip and order laws are proved, with at most 80 octets of the arena for each value in its tree. |
| `RecordDecoders.ReadChunk` | server/generated/c-client/codec.gen.h:2212-2225 | The decoder computes exactly the chunk whose round trip is proved. |
| `RecordDecoders.ReadFile` | server/generated/c-client/codec.gen.h:2248-2272 | The decoder and its chunk loop compute exactly the file whose round trip is proved, with at most 32 octets of the arena for each value in its tree. |
| `RecordDecoders.ReadImport` | server/generated/c-client/codec.gen.h:6035-6061 | The decoder and its file loop compute exactly the request whose round trip and order laws are proved, with at most 80 octets for each value, all three list levels together. |
| `RecordDecoders.ReadReport` | server/generated/c-client/codec.gen.h:4964-5009 | The decoder computes exactly the report whose round trip and order laws are proved, and keeps all that is stored in the arena. |
| `RecordDecoders.ReadSettings` | server/generated/c-client/codec.gen.h:6181-6203 | The decoder and its entry loop compute exactly the settings whose round trip is proved, with two arena arrays of pointers. |
| `RecordDecoders.ReadVariant` | server/generated/c-client/codec.gen.h:3167-3723 | The op check and the argument reads of all twenty variants compute exactly the command the laws speak of, with at most 80 octets of the arena for each value in the record. |
| `RecordDecoders.ReadCommand` | server/generated/c-client/codec.gen.h:3815-3903 | The switch on the index computes exactly the tagged sum the laws speak of. |
| `RecordEncoders.EncodeQueueItem` | server/generated/c-client/codec.gen.h:2895-2923 | Appends exactly the encoding of the item, failing exactly when it does not fit. |
| `RecordEncoders.EncodeQueue` | server/generated/c-client/codec.gen.h:2970-2973 | The queue loop appends exactly the encoding of the list. |
| `RecordEncoders.PlayerStateCount` | server/generated/c-client/codec.gen.h:2959-2964 | The conditional count is the number of pairs written. |
| `RecordEncoders.EncodePlayerState` | server/generated/c-client/codec.gen.h:2958-3001 | Appends exactly the encoding of the state, failing exactly when it does not fit. |
| `RecordEncoders.EncodeChunk` | server/generated/c-client/codec.gen.h:2197-2209 | Appends exactly the encoding of the chunk. |
| `RecordEncoders.EncodeFile` | server/generated/c-client/codec.gen.h:2228-2245 | Appends exactly the encoding of the file and its chunks. |
| `RecordEncoders.EncodeImport` | server/generated/c-client/codec.gen.h:6016-6032 | Appends exactly the encoding of the request with both nested lists. |
| `RecordEncoders.ReportCount` | server/generated/c-client/codec.gen.h:4924-4930 | The conditional count is the number of pairs written, for all 64 subsets. |
| `RecordEncoders.EncodeReport` | server/generated/c-client/codec.gen.h:4923-4961 | Appends exactly the encoding of the report. |
| `RecordEncoders.EncodeEntries` | server/generated/c-client/codec.gen.h:6172-6176 | The entry loop appends the map head and every entry in the caller's order. |
| `RecordEncoders.EncodeSettings` | server/generated/c-client/codec.gen.h:6168-6178 | Appends exactly the encoding of the settings. |
| `CommandEncoder.PairCountExact` | server/generated/c-client/codec.gen.h:3147-3705 | In all twenty variants the count announced is the number of pairs written. |
| `CommandEncoder.EncodePayload` | server/generated/c-client/codec.gen.h:3147-3705 | Appends exactly the encoding of the variant's record. |
| `CommandEncoder.EncodeCommand` | server/generated/c-client/codec.gen.h:3726-3812 | Appends exactly the index and the record as an array of two. |
| `Payloads.PlayerStateToOctets` | server/generated/c-client/codec.gen.h:7680-7687 | A fresh buffer ends up holding exactly the encoding, whenever it fits the address space. |
| `Payloads.PlayerStateFromOctets` | server/generated/c-client/codec.gen.h:7692-7699 | A state is read from bytes exactly as specified, the whole decode taking at most 256 octets of the arena for each octet of input plus a constant; on success the arena is valid and every string stands in it with its NUL, on either failure every block is freed. |
| `Payloads.ImportToOctets` | server/generated/c-client/codec.gen.h:9681-9688 | A fresh buffer ends up holding exactly the encoding of the import request, whenever it fits the address space. |
| `Payloads.ImportFromOctets` | server/generated/c-client/codec.gen.h:9693-9700 | An import request is read from bytes exactly as specified, the whole decode taking at most 256 octets of the arena for each octet of input plus a constant; on success the arena is valid and every string stands in it with its NUL, on either failure every block is freed. |
| `Payloads.ReportToOctets` | server/generated/c-client/codec.gen.h:8945-8952 | A fresh buffer ends up holding exactly the encoding of the node report, whenever it fits the address space. |
| `Payloads.ReportFromOctets` | server/generated/c-client/codec.gen.h:8957-8964 | A node report is read from bytes exactly as specified, the whole decode taking at most 256 octets of the arena for each octet of input plus a constant; on success the arena is valid and every string stands in it with its NUL, on either failure every block is freed. |
| `Payloads.SettingsToOctets` | server/generated/c-client/codec.gen.h:9796-9803 | A fresh buffer ends up holding exactly the encoding of the settings, whenever it fits the address space. |
| `Payloads.SettingsFromOctets` | server/generated/c-client/codec.gen.h:9808-9815 | Settings are read from bytes exactly as specified, the whole decode taking at most 256 octets of the arena for each octet of input plus a constant; on success the arena is valid and every string stands in it with its NUL, on either failure every block is freed. |
| `Payloads.CommandToOctets` | server/generated/c-client/codec.gen.h:8232-8239 | A fresh buffer ends up holding exactly the encoding of the command, whenever it fits the address space. |
| `Payloads.CommandFromOctets` | server/generated/c-client/codec.gen.h:8244-8251 | A command is read from bytes exactly as specified, the whole decode taking at most 256 octets of the arena for each octet of input plus a constant; on success the arena is valid and every string stands in it with its NUL, on either failure every block is freed. |
| `Der.ReadElement` | ios/IchoiCore/ConnectionSecurity.swift:80-104 | An element starts at the offset, is at least two octets long, ends inside the input, and its content is its tail. |
| `Der.ElementAt` | ios/IchoiCore/ConnectionSecurity.swift:80-104 | The cursor and the octet loop read exactly that element. |
| `Der.ElementSound` | ios/IchoiCore/ConnectionSecurity.swift:80-104 | Every element read is the encoding, short or long form, of its tag and content. |
| `Der.ElementComplete` | ios/IchoiCore/ConnectionSecurity.swift:80-104 | Any tag and content below 2^32 octets, in either form and before any suffix, reads back as that tag and content. |
| `Der.Skip` | ios/IchoiCore/ConnectionSecurity.swift:112-115 | Every element passed advances the offset by at least two octets. |
| `Der.SubjectPublicKeyInfo` | ios/IchoiCore/ConnectionSecurity.swift:107-118 | The offset loop computes exactly the specified walk. |
| `Der.WalkFindsTheKey` | ios/IchoiCore/ConnectionSecurity.swift:107-118 | For every certificate laid out as RFC 5280 section 4.1 with the identifier octets of X.690 section 8.1.2, version present or absent, any field contents, the result is exactly the encoding of the SubjectPublicKeyInfo when that is a SEQUENCE, and nothing otherwise. |
| `Der.WalkComplete` | ios/IchoiCore/ConnectionSecurity.swift:107-118 | Two opened SEQUENCEs, a version tagged [0] or none, and five whole elements are all the walk needs. |
| `Der.WalkSound` | ios/IchoiCore/ConnectionSecurity.swift:107-118 | Whenever the walk returns something, the input has those parts and the result is the element after them. |

## Left out

- The other record codecs, and the entry points of records not listed above: copies of the same patterns.
- `ArenaMemory.Arena.Alloc`: malloc, calloc and realloc are taken to succeed, so a failure means an overflow; absolute pointer alignment is not modelled, only block offsets.
- `Reader.DecodeValue`: above 2^58 octets of input a failure may also come from arena arithmetic overflowing, so there only success is tied to the specification.
- `ArenaMemory.Arena.Put`: a slot holds a value or a pair, and a pointer in it is modelled by the value it leads to; the octets that represent a slot are not modelled, only that no others change.
- `EarlyChecks.ChecksLoseNothing`: for inputs of at most SIZE_MAX / 24 octets; beyond that the second half of the check can reject on its own.
- `RecordDecoders.ReadQueue`: the array of structs is reserved with its exact size, but its elements are collected in a sequence; above MAX_INPUT octets of input, where the product of count and size could wrap, only success is tied to the specification, and writes past an array so shortened are not modelled. The same holds for the other list loops.
- `RecordDecoders.ReadPlayerState`: the decoders build the record at the end instead of filling a struct field by field, so what a failed decode leaves in the struct is not modelled. The same holds for the other record decoders.
- `Floats.SingleSpecialKept`: a NaN keeps its payload and is made quiet when it is widened, as the usual hardware does; C leaves that open.
- `PlayerRecords.PlayerStateWire`: required strings are never NULL; the encoder writes NULL as the empty text.
- sizeof is fixed for 64-bit pointers (values 24 octets, pairs 16, block headers 24, the record structs as in `TypedStorage`), and size_t has 64 bits.
- Shifts and masks are written as arithmetic on octets; the C integer conversions they rely on are not modelled.
- Enumeration arguments outside their constants, which the encoders would use as an array index.
- `csilc_as_f64`, `csilc_get_bytes`, `csilc_get_tagged_text`, `csilc_get_decimal`, timestamps and `csilc_w_f32`: single-branch readers and writers used by records left out.
- `Der.ElementAt`: Swift's 64-bit offsets cannot overflow here, as lengths are below 2^32, and are unbounded integers; the whole-array conversion from Data is not modelled.
- Hashing and pinning of the key, certificate trust evaluation, redirects, keychain and sessions: platform libraries and I/O.
- `client.gen.h`, the other language clients, the server, the user interfaces and the build tooling.
