# A verified model of the HTTP/2 stack

The repository is an HTTP/2 stack: HPACK header compression (RFC 7541), the frame layer (sections 4
and 6 of RFC 7540), and the state machines of a client and of a server connection. This project
models it from the bits of a Huffman code up to two endpoints joined by byte channels, and proves
that the layers fit together.

Code that updates state in place is modelled by classes and loops. Each method is proved against a
function on values, and the properties are proved about those functions. The files follow the
layers:

- Bits and words: `Bytes`, `Bits`.
- Huffman coding: `PrefixCodes` (any code whose intervals tile the 30-bit numbers is a complete
  prefix code), `HuffmanTable` (the concrete table tiles), `HuffmanCanonical` (which symbol has which
  code), `HuffmanStrings` (what encodings and
  decodings mean, without a tree), `HuffmanTree`, `Huffman`, `HuffmanDecode` (the shift register, the
  construction of the tree and the walk over it), `HuffmanPadding`.
- HPACK: `Integers`, `Tables`, `StaticTable`, `StaticOrder`, `HpackCoding` (what is written and what
  any bytes decode to), `HpackSession` (runs of blocks), `HpackFormat` (the representations, byte by
  byte), `HpackEncoder`, `HpackDecoder`, `HpackErrors`, `HpackGrowth`.
- Frames: `Frames`, `FrameCoding`, `FrameStreams` (whole streams and pieces of them), `WireFormat`
  (every field in its place, in numbers), `FrameEncoder`, `FrameDecoder`.
- Connections: `FlowControl`, `Streams`, `Endpoints` (the state and the handlers that client and
  server have in common, as a value), `ClientProtocol`, `ServerProtocol`, and the objects that
  compute them, `ConnectionCore`, `Connection`, `ServerConnection`. The source writes the common
  handlers out twice, in `src/connection/mod.rs` and `src/connection/server.rs`; here they exist once.
- Runs: `Chunking`, `Moves` (client and server as runs of one machine), `Accounting` (the connection
  window), `StreamCredit`, `StreamStates` (what a stream's state says about the traffic), `Guarded`,
  `ServerLifecycle`, `Phases` (the state of a connection), `Reports` (what is reported, answered and
  kept of the frames handled), `Departures` and `ServerDepartures` (runs
  that end where the standard would not have them).
- Both sides together: `PlainTraffic`, `Channels`, `Delivery`, `Network`, `EndToEnd`, `Notices`,
  `StreamLimits`, `NetworkDepartures`.

## How it is modelled

The two HPACK tables of a session are never exchanged. What keeps them in agreement is that the
encoder's entries are a prefix of the decoder's and its table is not larger; equality would be
wrong, because the encoder may shrink its table without saying so. `SessionCorrect` keeps this
relation over every run, and `FollowsExactly` says when it can be lost: when a peer's settings make
the encoder's table larger than the decoder's, nothing announces it.

A round trip says nothing about a number that both directions share. So the formats are also stated
from outside, in the numbers of the standards: the lengths of the Huffman codes and that the code is
canonical, the order of the static table, every representation of HPACK and which of them is chosen,
every field, flag and setting of a frame, and what a connection reports of the frames it handles.

Windows are 32-bit integers that wrap around, as they do in a release build; a debug build would
stop at the same point. So the laws about them come in two kinds: congruences that hold in every
reachable state, and exact ones with the condition under which no overflow happens. One flow control
object counts what was sent and what was received. Giving the received bytes back therefore also
gives back the sent ones, for which the peer sends increments too, so the credit in circulation
grows with the traffic. `ClientOverflows` says where that ends and `WindowWraps` is a run that gets
there; `ClientOverspends` says exactly when an endpoint has sent more than it was granted, and
`ConnectionOverdrawn` is a run in which it has.

A transport is a queue of bytes that takes any part of what it is offered, and delivers what it took
in pieces of any size. What has been written, and what has been reported, is kept as ghost state next
to the buffers. For each stream the ledger also marks how long both logs were when it was opened, so
that what happened on it since then can be told from them.

Where the code departs from its comments, or from the standards, the model follows the code:

- The Huffman decoder's error is described as "not all 1s" (`src/hpack/huffman.rs:1063`), but the
  check walks right from the node that was reached and accepts other padding. `DecodedOk` states the
  check, `CanonicalExactly` its distance from section 5.2 of RFC 7541.
- `remove_padding` says that the padding must not exceed the rest of the payload
  (`src/frame/decode.rs:474`), but refuses an equal length too: `PaddedDataDecodes`.
- Negative windows are cast to unsigned words before they are compared (`src/connection/mod.rs:545`,
  `src/connection/server.rs:493`): `AllowanceRespectsWindows` says when that matters, and
  `StreamOverdrawn` is a run in which it does.
- A settings change moves the stream windows unchecked (`src/connection/stream.rs:133`):
  `SettingSolvent` is the exact condition for one setting, `ClientNeverOverdrawn` and
  `ServerNeverOverdrawn` say what a peer must not do over a whole run.
- A request that ends its stream leaves the stream open (`src/connection/mod.rs:508`):
  `RequestStaysOpen` is the case, `ClientEndAgrees` says exactly when a client's stream state tells
  that the stream was ended. On a server it always does (`ServerEndAgrees`).
- Data can be sent on a stream whatever its state is, because nothing asks `can_send`
  (`src/connection/stream.rs:60-65`): `SendIgnoresState`, `SentExactly` and the run `DataAfterEnd`.
  `ServerGuards` and `ClientGuards` say what asking would tell, `AskingSuffices` what it would achieve.
- Identifiers are used again after 2^30 requests (`src/connection/mod.rs:504`): `IdentifierReused` is
  the run, `ClientStepAdvances` says exactly when a closed stream is opened again.
- A connection that drains does not always go on draining: the first settings open it again
  (`src/connection/server.rs:277`, `src/connection/mod.rs:344`), and a server that admits the preface
  only then waits for settings (`src/connection/server.rs:133-176`). `ServerEndsDraining` and
  `ClientEndsDraining` say that there is no other way; `DrainingEnds`, `SettingsEndDraining` and
  `PrefaceEndsDraining` are the runs.
- A client that is fed before its transport is ready can forget its preface, or send it late
  (`src/connection/mod.rs:173-178`): `PrefaceForgotten`, `PrefaceLate`, and `PrefaceExactly` for when.
- A server does not look at the frame size that its peer allows (`src/connection/server.rs:493-498`),
  and a client's decoder never gets past a frame that is too large: `LargeFrame` and `ResponseStuck`
  are runs, `ServerFrameSize` says when one send writes such a frame, `ClientReceives` what it costs.

## Model

| member | source | states |
|---|---|---|
| `PrefixCodes.TiledIsPrefixCode` | `src/hpack/huffman.rs:17-1016` | Any table whose codes, as intervals of 30-bit numbers, tile [0, 2^30) in sorted order is prefix-free and complete: no code begins another and no bit string can leave the code tree. |
| `HuffmanTable.TableIsFitting` | `src/hpack/huffman.rs:17-1016` | Every entry of the concrete table has 5 to 30 bits and a code that fits them. |
| `HuffmanTable.BookIsTiled` | `src/hpack/huffman.rs:17-1016` | The 257 entries, in an order that is itself checked to be a permutation, tile [0, 2^30). |
| `HuffmanTable.BookIsHpackCode` | `src/hpack/huffman.rs:17-1016` | So the concrete table is a complete prefix code whose end-of-string code is thirty ones; which symbol has which code is stated by HuffmanCanonical. |
| `HuffmanCanonical.CodeLengths` | `src/hpack/huffman.rs:17-1016` | The length of the code of every symbol, in numbers: each of the 257 symbols stands in one of 21 sets. |
| `HuffmanCanonical.CodesInOrder` | `src/hpack/huffman.rs:17-1016` | A shorter code, or one of equal length for a smaller symbol, lies in front of the other in [0, 2^30). |
| `HuffmanCanonical.Canonical` | `src/hpack/huffman.rs:17-1016` | The code is canonical: of two codes of equal length, that of the smaller symbol is the smaller number. |
| `HuffmanCanonical.CanonicalIsUnique` | `src/hpack/huffman.rs:17-1016` | No other code has these lengths and tiles in that order, so the lengths determine every bit of the table. |
| `Huffman.EncodedLen` | `src/hpack/huffman.rs:1019-1026` | The predicted length is the length of the encoding. |
| `Huffman.ShiftInPending` | `src/hpack/huffman.rs:1037-1040` | Shifting a code into the 64-bit register, which is never masked and loses its oldest bits, still leaves exactly the pending bits in the low part. |
| `Huffman.EmitPending` | `src/hpack/huffman.rs:1042-1045` | Emitting a byte from the register moves the first eight pending bits to the output. |
| `Huffman.CompleteLastByte` | `src/hpack/huffman.rs:1048-1053` | The last byte holds the remaining bits followed by ones. |
| `Huffman.PutCode` | `src/hpack/huffman.rs:1034-1046` | After one symbol, output and register together hold exactly the codes so far, and fewer than eight bits are pending. |
| `Huffman.Encode` | `src/hpack/huffman.rs:1029-1054` | Appends the codes of the bytes, padded with ones to a whole byte. |
| `HuffmanStrings.UniqueParse` | `src/hpack/huffman.rs:1167-1241` | A bit string splits into codes and an unfinished or end-of-string tail in at most one way. |
| `HuffmanStrings.DecodedOk` | `src/hpack/huffman.rs:1221-1240` | The decoder accepts s exactly when the bits are the codes of s and at most seven more that, followed by all but one of as many ones, stay inside the code tree: the check that the code really makes. |
| `HuffmanStrings.DecodedEos` | `src/hpack/huffman.rs:1195-1197` | It reports an end-of-string symbol exactly when one occurs where a symbol is expected. |
| `HuffmanStrings.DecodedElse` | `src/hpack/huffman.rs:1177-1240` | Every other bit string is refused for its padding; the error for an invalid code never occurs. |
| `HuffmanStrings.RoundTrip` | `src/hpack/huffman.rs:1244-1309` | For every byte string, decoding the encoding gives it back: the padding stays on the path to the end-of-string code. |
| `HuffmanStrings.EncodingInjective` | `src/hpack/huffman.rs:1029-1054` | Different strings are encoded differently. |
| `HuffmanPadding.CanonicalExactly` | `src/hpack/huffman.rs:1221-1237` | Accepted bytes are what the encoder writes exactly when the padding is ones, which the decoder does not enforce (section 5.2 of RFC 7541). |
| `HuffmanPadding.ZeroPaddingAccepted` | `src/hpack/huffman.rs:1221-1237` | A concrete input that is accepted with a zero padding bit. |
| `HuffmanTree.NoCollision` | `src/hpack/huffman.rs:1113-1116` | The collision panic is unreachable: a leaf is never on the way to another code. |
| `HuffmanTree.CodeIsFresh` | `src/hpack/huffman.rs:1120-1136` | A code that is planted does not overwrite an earlier path. |
| `HuffmanTree.GrownIsDecodeTree` | `src/hpack/huffman.rs:1095-1161` | Once all codes are planted, every path leads to the right node and the tree is full, so the decoder never meets a missing child. |
| `Huffman.PlantBit` | `src/hpack/huffman.rs:1108-1157` | One bit of one code: the nodes for earlier codes stay where they are, and the path grows by the right node. |
| `Huffman.BuildDecodeTree` | `src/hpack/huffman.rs:1095-1161` | The vector of nodes is the decode tree of the code, and its indices fit 16 bits. |
| `HuffmanDecode.PaddingMeaning` | `src/hpack/huffman.rs:1221-1237` | Walking right from the current node succeeds exactly when the tail followed by all but one of as many ones is inside the tree. |
| `HuffmanDecode.WalkDecodes` | `src/hpack/huffman.rs:1167-1241` | Walking the tree bit by bit refines the definition that mentions no tree, for every bit string. |
| `HuffmanDecode.CheckPadding` | `src/hpack/huffman.rs:1225-1236` | The loop that walks right computes the padding check. |
| `HuffmanDecode.DecodeWith` | `src/hpack/huffman.rs:1167-1241` | The loop over bytes and bits, with its padding count, computes the walk over all bits. |
| `HuffmanDecode.Decode` | `src/hpack/huffman.rs:1167-1241` | The decoder appends the decoded string or reports the error that the definition gives. |
| `Integers.EncodeInteger` | `src/hpack/encode.rs:135-149` | Appends the prefix integer. |
| `Integers.ShiftedComparison` | `src/hpack/decode.rs:247-249` | The guard before the shift is the comparison that the shift would overflow. |
| `Integers.DecodeInteger` | `src/hpack/decode.rs:225-263` | The loop in machine words refines the definition in unbounded arithmetic, on inputs of every length, for a word of any size. |
| `Integers.IntegerExact` | `src/hpack/decode.rs:316-347` | A value is returned exactly when the digits end within the input, sum to it, and no partial sum leaves the word. |
| `Integers.ContinuedInvalid` | `src/hpack/decode.rs:247-253` | On the digits: InvalidInteger exactly when some digit that is reached is at a shift outside the word or makes a partial sum too large. |
| `Integers.ContinuedIncomplete` | `src/hpack/decode.rs:240-242` | On the digits: Incomplete exactly when every digit announces another one and none overflows. |
| `Integers.IntegerErrors` | `src/hpack/decode.rs:225-263` | On whole inputs of every length: which of the two errors occurs, exactly; with IntegerExact this classifies every input. |
| `Integers.IntegerOnRoundTrip` | `src/hpack/decode.rs:413-425` | What was written reads back with the number of bytes written, for words of any size. |
| `Integers.IntegerRoundTrip` | `src/hpack/decode.rs:413-425` | The same for 64-bit words, every prefix width, every flag and any bytes after it. |
| `HpackFormat.PrefixIsPower` | `src/hpack/decode.rs:225-263` | A prefix of n bits holds the numbers below 2^n - 1, and its bits are the remainder by 2^n. |
| `HpackFormat.IntegerFormat` | `src/hpack/encode.rs:135-149` | A number is the prefix if it is below 2^n - 1, and otherwise a full prefix and the shortest digits of base 128 whose sum is the rest. |
| `HpackFormat.IntegerExamples` | `src/hpack/encode.rs:135-149` | The examples 10 and 1337 of Appendix C.1 of RFC 7541, in octets. |
| `Tables.FitIsLongest` | `src/hpack/table.rs:480-488` | Of a list of entries, the part kept is the longest prefix within the size limit. |
| `Tables.FitMonotone` | `src/hpack/table.rs:426-429` | What is kept grows with the entries and with the limit. |
| `Tables.FitTwice` | `src/hpack/table.rs:426-429` | Shrinking twice keeps what shrinking once to the smaller size keeps. |
| `Tables.FitDropLast` | `src/hpack/table.rs:444-449` | Evicting the oldest entry of a list that does not fit loses nothing that fits. |
| `Tables.SearchIsFirst` | `src/hpack/table.rs:462-477` | The search reports the first equal entry, or else the first with the name, or that there is none. |
| `Tables.FindEntry` | `src/hpack/table.rs:378-393` | The single pass that remembers a name match computes that search; both tables use it. |
| `Tables.DynamicTable.Insert` | `src/hpack/table.rs:437-458` | Afterwards the entries are the longest prefix of the new entry and the old ones that fits, the size is their sum, and the branch for an empty table is dead. |
| `Tables.DynamicTable.SetMaxSize` | `src/hpack/table.rs:426-429` | Afterwards the entries are the longest prefix of the old ones that fits the new size. |
| `Tables.DynamicTable.Evict` | `src/hpack/table.rs:480-488` | Pops the oldest entries until the rest fits; the branch for an empty table is dead. |
| `Tables.DynamicTable.Find` | `src/hpack/table.rs:462-477` | The first match in the dynamic table. |
| `HpackCoding.StandardIsValid` | `src/hpack/table.rs:54-365` | The codec of the standard meets what everything below asks of a codec. |
| `StaticOrder.EntriesAscend` | `src/hpack/table.rs:54-365` | The static table is sorted by name and then by value, but for one place, so no two of its entries can be exchanged. |
| `StaticOrder.AcceptIsLate` | `src/hpack/table.rs:54-365` | That place is "accept", which stands behind the names that it begins. |
| `StaticOrder.EntriesWithValue` | `src/hpack/table.rs:54-365` | Exactly the entries 2 to 14 and 16 have a value. |
| `StaticOrder.StaticValues` | `src/hpack/table.rs:54-365` | What those values are. |
| `HpackCoding.StringEnd` | `src/hpack/decode.rs:265-277` | The end of a string is the sum of both lengths if that lies within the input; InvalidInteger exactly when it leaves the word, Incomplete exactly when it fits the word but not the input. |
| `HpackCoding.FieldOf` | `src/hpack/decode.rs:98-123` | Whatever the bytes are: a representation that is understood takes between one and all of them, and the table stays valid either way; which field it is and what it does to the table is stated by HpackFormat. |
| `HpackCoding.BlockOf` | `src/hpack/decode.rs:81-94` | Whatever the bytes are: the table is valid after a block, also after one that an error stopped midway. |
| `HpackFormat.TableByFirstByte` | `src/hpack/decode.rs:98-123` | Whatever the bytes are: a decoded field enters the table exactly if its first byte is 0x40 to 0x7f, 0x20 to 0x3f sets a size that is within the limit, and nothing else changes the table, no error either. |
| `HpackFormat.IndexedDecodes` | `src/hpack/decode.rs:126-135` | For every index: 1 to 61 is the static entry, 62 and on the dynamic ones, newest first; 0 and everything beyond is refused with its number. The table stays as it is. |
| `HpackFormat.NewNameDecodes` | `src/hpack/decode.rs:126-183` | A literal with its name spelled out, behind 0x40, 0x00 or 0x10, either string with or without Huffman codes: the field, all of its bytes and none of those behind them; only 0x40 inserts it. |
| `HpackFormat.IndexedNameDecodes` | `src/hpack/decode.rs:126-183` | So is a literal whose name is given by an index with 6 bits behind 0x40, and with 4 bits behind 0x00 and 0x10. |
| `HpackFormat.NoSuchName` | `src/hpack/decode.rs:202-221` | A name at an index that does not exist is refused with its number. |
| `HpackFormat.SizeUpdateDecodes` | `src/hpack/decode.rs:186-199` | A size up to the limit is taken over; a size above it is refused, and changes nothing. |
| `HpackFormat.BlockGoesOn` | `src/hpack/decode.rs:81-94` | Whatever follows what an encoder wrote: its fields come first, and the rest is decoded with the table that they leave. |
| `HpackFormat.BlockBreaksOff` | `src/hpack/decode.rs:81-94` | The first representation that is broken decides about the block, and the table keeps what came before it. |
| `HpackSession.StringRoundTrip` | `src/hpack/decode.rs:280-302` | A string literal reads back, Huffman coded or not, whatever follows it. |
| `HpackFormat.ShorterString` | `src/hpack/encode.rs:112-126` | A string is written with Huffman codes exactly if they are enabled and shorter; the first bit says so, the length is that of what follows, and what follows is the shorter of the two. |
| `HpackSession.RepresentLookup` | `src/hpack/encode.rs:55-89` | The index that the encoder chooses means the same field, or the same name, to a decoder with a related table. |
| `HpackFormat.EncodesKnown` | `src/hpack/encode.rs:55-89` | A field that is in a table is written as the 7-bit index of the first equal entry behind 0x80, static first, and the table stays as it is. |
| `HpackFormat.EncodesUnknown` | `src/hpack/encode.rs:55-89` | A field that is in no table is written as a literal, first byte 0x40 to 0x7f, and inserted; its name is the 6-bit index of the first entry with that name, static first, or spelled out. |
| `HpackSession.InsertRelated` | `src/hpack/table.rs:437-458` | Inserting a field on both sides keeps the tables related. |
| `HpackSession.FieldRoundTrip` | `src/hpack/encode.rs:55-109` | One field, whatever follows it: the decoder yields it, takes the bytes that were written for it, and the tables stay related. |
| `HpackSession.ResizeRelated` | `src/hpack/encode.rs:43-45` | Shrinking the encoder silently keeps the encoder entries a prefix of the decoder entries. |
| `HpackSession.UpdateRelated` | `src/hpack/decode.rs:186-199` | A size update that is not below the encoder table keeps the tables related. |
| `HpackSession.ActionRoundTrip` | `src/hpack/encode.rs:38-131` | Each thing the owner of an encoder may do: the decoder follows. |
| `HpackSession.BlockRoundTrip` | `src/hpack/decode.rs:81-94` | A block of any such actions decodes to exactly the fields encoded. |
| `HpackSession.SessionCorrect` | `src/hpack/encode.rs:43-131` | Session correctness: over every admissible run of blocks, with size changes, size updates and Huffman on or off, each block decodes in order to its fields and the tables are related at the end. |
| `HpackEncoder.Encoder.Encode` | `src/hpack/encode.rs:48-52` | Appends the block, and leaves the table that the definition gives. |
| `HpackEncoder.Encoder.EncodeHeader` | `src/hpack/encode.rs:55-89` | Appends the bytes, and leaves the table, that EncodesKnown and EncodesUnknown describe. |
| `HpackEncoder.Encoder.EncodeString` | `src/hpack/encode.rs:112-126` | Huffman coding is used exactly when it is enabled and shorter. |
| `HpackEncoder.Encoder.DoSetTableSize` | `src/hpack/encode.rs:43-45` | Resizes the table and writes nothing. |
| `HpackEncoder.Encoder.EncodeTableSizeUpdate` | `src/hpack/encode.rs:129-131` | Writes a size update and leaves the table alone. |
| `HpackEncoder.HeadersRoundTrip` | `src/hpack/encode.rs:48-52` | A list of fields, encoded the way the connections do, decodes to itself and the tables stay related. |
| `HpackDecoder.Decoder.Decode` | `src/hpack/decode.rs:81-94` | Total on every input: computes the definition, and the table is valid afterwards even if an error stopped the block midway. |
| `HpackDecoder.Decoder.DecodeHeader` | `src/hpack/decode.rs:98-123` | One representation, with the table change it makes, as IndexedDecodes to SizeUpdateDecodes describe them; a successful step takes between one and all of the remaining bytes. |
| `HpackDecoder.Decoder.DecodeLiteral` | `src/hpack/decode.rs:138-159` | A literal with its name by index or spelled out. |
| `HpackDecoder.Decoder.DecodeTableSizeUpdate` | `src/hpack/decode.rs:186-199` | Resizes the table within the limit, refuses a larger size. |
| `HpackDecoder.Decoder.DecodeString` | `src/hpack/decode.rs:280-302` | A string literal, with every slice in range. |
| `HpackDecoder.Decoder.GetHeader` | `src/hpack/decode.rs:202-221` | Looks an index up in the static table, then in the dynamic one; 0 and everything beyond is an error. |
| `HpackGrowth.HarmlessFollows` | `src/hpack/encode.rs:43-45` | With an encoder table that is not larger, or holds nothing, everything that is written decodes to itself. |
| `HpackGrowth.FillerTwice` | `src/hpack/encode.rs:43-45` | With a larger encoder table, a field that only the encoder can keep, sent twice, ends in an index error. |
| `HpackGrowth.FollowsExactly` | `src/hpack/encode.rs:43-45` | So the decoder follows all future blocks exactly when the encoder table is not larger than its own, or is below 32 bytes. |
| `HpackGrowth.StandardNamesPresent` | `src/hpack/table.rs:54-365` | The condition on the static table that this needs holds of the real one. |
| `FrameCoding.FlagsRoundTrip` | `src/frame/encode.rs:94-129` | Each flag that the encoder sets is the one that the decoder reads, and padding is never set. |
| `FrameCoding.HeaderRoundTrip` | `src/frame/encode.rs:56-77` | The nine bytes of a header read back. |
| `WireFormat.WordsAreBigEndian` | `src/frame/encode.rs:56-77` | Words are written and read with the most significant byte first. |
| `WireFormat.HeaderLayout` | `src/frame/encode.rs:56-77` | Every frame begins with three bytes of length, its type, its flags, and four bytes of identifier whose first bit is clear; the identifier is 0 for frames about the connection. |
| `WireFormat.HeaderRead` | `src/frame/decode.rs:75-98` | Any nine bytes are read that way, the first bit of the identifier being ignored. |
| `WireFormat.FrameNumbers` | `src/frame/types.rs:9-51` | The type and the flags of every kind of frame, in numbers. |
| `WireFormat.ReadNumbers` | `src/frame/decode.rs:101-120` | Whatever is parsed: its kind is that of the number, its flags those of the bits, its identifier that of the header. |
| `WireFormat.PriorityLayout` | `src/frame/encode.rs:94-143` | A priority: the exclusive bit, 31 bits of dependency, the weight. |
| `WireFormat.PriorityRead` | `src/frame/decode.rs:148-230` | And it is read that way. |
| `WireFormat.PayloadLayout` | `src/frame/encode.rs:80-271` | What stands where in the payload of every kind. |
| `WireFormat.SettingNumbers` | `src/frame/types.rs:256-266` | The identifiers of the six settings, 1 to 6, in 16 bits, and the value in 32. |
| `WireFormat.SettingAccepted` | `src/frame/decode.rs:307-325` | For every identifier and value: an entry is refused, with both, exactly if identifier 2 has more than 1, 4 has 2^31 or more, or 5 is not within 16384 to 2^24 - 1; and which setting it is read as. |
| `WireFormat.SettingsInOrder` | `src/frame/decode.rs:263-304` | A payload of several entries is read entry by entry, up to the first that is refused. |
| `WireFormat.AcceptedExactly` | `src/frame/decode.rs:101-485` | For every header and payload: which are accepted, by type, identifier, flags, padding and length. |
| `WireFormat.RefusedBecause` | `src/frame/decode.rs:101-485` | And why the others are not: the error, with its numbers. |
| `WireFormat.AttemptExactly` | `src/frame/decode.rs:39-72` | For every buffer: more bytes are needed exactly before the header or the frame is complete, a frame is too large exactly if its length is, whether or not the rest of it is there, and otherwise it is taken off as a whole. |
| `FrameCoding.SettingsRoundTrip` | `src/frame/decode.rs:289-301` | A list of valid settings reads back; their numbers are stated by SettingNumbers and SettingAccepted. |
| `FrameCoding.PayloadRoundTrip` | `src/frame/encode.rs:80-271` | The payload of every kind of frame parses to the frame. |
| `FrameCoding.FrameRoundTrip` | `src/frame/decode.rs:39-72` | A well-formed frame within the limit decodes to itself and leaves what follows it. |
| `FrameEncoder.Encoder.Encode` | `src/frame/encode.rs:38-52` | Appends the encoding of the frame, for all eleven kinds. |
| `FrameEncoder.Encoder.WriteHeader` | `src/frame/encode.rs:56-77` | Appends the frame header; only the low 24 bits of the length are written. |
| `FrameEncoder.Encoder.EncodeHeaders` | `src/frame/encode.rs:94-129` | Builds the flags step by step, and appends priority and header block. |
| `FrameEncoder.Encoder.EncodeSettings` | `src/frame/encode.rs:154-178` | An acknowledgement carries no settings. |
| `FrameEncoder.Encoder.PutSettings` | `src/frame/encode.rs:172-177` | The loop over the settings appends each of them. |
| `FrameDecoder.Decoder.Decode` | `src/frame/decode.rs:39-72` | Takes a frame if a whole one is there; bytes of an incomplete or oversized frame stay, those of a malformed one are gone. |
| `FrameDecoder.Decoder.Parse` | `src/frame/decode.rs:101-120` | The cursor over the payload computes the parse of each kind. |
| `FrameDecoder.Decoder.StripPadding` | `src/frame/decode.rs:464-485` | Removes the pad length and the padding, or refuses. |
| `FrameDecoder.Decoder.TakeSettings` | `src/frame/decode.rs:289-301` | The loop stops at the first setting that is out of range. |
| `FrameStreams.ParsedWellFormed` | `src/frame/decode.rs:101-461` | Whatever is parsed is well formed, and its plain payload is not longer than what was parsed. |
| `FrameStreams.DecoderNormalises` | `src/frame/decode.rs:39-72` | Normalisation: every frame returned on any bytes is well formed, re-encodes to no more bytes than it took and decodes to itself again, padding and reserved bits lost. |
| `FrameStreams.PaddedDataDecodes` | `src/frame/decode.rs:464-485` | A padded DATA frame is accepted, and its padding removed, exactly when data is left; one of nothing but padding, which section 6.1 of RFC 7540 allows, is refused. |
| `FrameStreams.AllPaddingRefused` | `src/frame/decode.rs:464-485` | In every kind of frame that can be padded, a payload of nothing but padding is refused, whatever the other flags are. |
| `FrameStreams.PaddedBlockParses` | `src/frame/decode.rs:148-197` | A padded header block, with or without a priority, loses its padding exactly when something else is left. |
| `FrameStreams.PaddedPromiseParses` | `src/frame/decode.rs:328-361` | So does a padded promise, and the first bit of the promised identifier is ignored. |
| `FrameStreams.DecodeFrameAppend` | `src/frame/decode.rs:39-72` | More bytes change nothing about a frame or an error that was decided. |
| `FrameStreams.DecodeAllAppend` | `src/connection/mod.rs:258-272` | Decoding a buffer and then what is appended to it is decoding it all. |
| `FrameStreams.ChunksDoNotMatter` | `src/connection/mod.rs:258-272` | Chunk independence: two ways of cutting one stream give the same frames, the same error and the same bytes left over. |
| `FrameStreams.StreamRoundTrip` | `src/frame/encode.rs:38-271` | Any sequence of well-formed frames, encoded one after the other and followed by an incomplete tail, decodes to the sequence and leaves the tail. |
| `FrameStreams.DecodedAreSendable` | `src/frame/decode.rs:39-72` | All frames that a buffer yields are well formed and within the limit. |
| `FrameStreams.PrefixDecodes` | `src/frame/decode.rs:39-72` | Any piece of such a stream yields the frames that are complete in it, in order, up to the first that is too large. |
| `FlowControl.FlowControl.IncreaseWindow` | `src/connection/flow_control.rs:45-53` | Credits an increment exactly when the window stays within 2^31 - 1. |
| `FlowControl.FlowControl.Consume` | `src/connection/flow_control.rs:56-59` | Takes bytes out of the window, in wrapping 32-bit arithmetic. |
| `FlowControl.FlowControl.ResetPending` | `src/connection/flow_control.rs:72-75` | Gives the consumed bytes back, unchecked. |
| `FlowControl.ReceiveStaysNonNegative` | `src/connection/flow_control.rs:56-75` | When data arrives, the window stays non-negative exactly when the credit in circulation fits a window or nothing is due yet; the half-window threshold is what makes it so. |
| `FlowControl.ReceiveKeepsCredit` | `src/connection/flow_control.rs:56-75` | Consuming and giving back keeps the window congruent to the credit not waiting, whatever overflows there are. |
| `Streams.Stream.SendData` | `src/connection/stream.rs:83-85` | Takes bytes out of the send window. |
| `Streams.Stream.SendEndStream` | `src/connection/stream.rs:88-94` | Afterwards nothing more may be sent, and receiving is as it was; what that means over a run is stated by ServerGuards and ClientGuards. |
| `Streams.Stream.ReceiveData` | `src/connection/stream.rs:97-100` | Takes bytes out of the receive window and counts them, both in wrapping arithmetic; ServerStreamsTold says that they stay the initial window less, and the count of, the bytes reported. |
| `Streams.Stream.ReceiveEndStream` | `src/connection/stream.rs:103-109` | Afterwards nothing more may be received, and sending is as it was. |
| `Streams.Stream.IncreaseSendWindow` | `src/connection/stream.rs:121-129` | Credits an increment exactly when the window stays within 2^31 - 1. |
| `Streams.Stream.AdjustSendWindow` | `src/connection/stream.rs:132-134` | Moves the window by the change of the initial size, unchecked. |
| `Streams.StreamTable.AdjustAll` | `src/connection/mod.rs:317-325` | Every stream, and nothing else, is adjusted once. |
| `ConnectionCore.ConnectionCore.ApplySetting` | `src/connection/mod.rs:309-336` | Each setting changes what it names: the HPACK table, the remote settings, all windows, or the frame limit. |
| `ConnectionCore.ConnectionCore.HandleSettings` | `src/connection/mod.rs:302-353` | Applies the settings in order, acknowledges them, and opens the connection the first time; server.rs has the same handler. |
| `ConnectionCore.ConnectionCore.HandleWindowUpdate` | `src/connection/mod.rs:383-405` | Credits the connection or a stream, or reports an overflow; an unknown stream is ignored. |
| `ConnectionCore.ConnectionCore.HandleData` | `src/connection/mod.rs:439-472` | Updates the stream and the window, announces what is given back, and reports the data. |
| `ConnectionCore.ConnectionCore.HandleRstStream` | `src/connection/mod.rs:475-486` | Closes the stream if there is one, and reports. |
| `ConnectionCore.ConnectionCore.HandleShared` | `src/connection/mod.rs:275-299` | The dispatch of all frames that both kinds of connection treat alike; what they are reported as and answered with is stated by Reports. |
| `WireFormat.PrefaceOctets` | `src/connection/mod.rs:181-212` | The 24 octets of the preface. |
| `WireFormat.AnnouncementOctets` | `src/connection/mod.rs:181-212` | The 27 octets of the settings that follow it, and that a server begins with. |
| `Reports.Beginnings` | `src/connection/mod.rs:139-158` | What a connection begins with: HPACK tables of 4096 bytes with Huffman coding on, a window of 65535, and the default settings. |
| `Reports.ClientReports` | `src/connection/mod.rs:258-488` | Over every run of a client: the events for DATA, RST_STREAM, GOAWAY, CONTINUATION and undecodable frames are those of the frames handled, in order and with their numbers; each PING is answered once with its payload, and settings with one acknowledgement; of the remote settings and of the encoder table size the last value received is kept; and Huffman coding stays on. |
| `Reports.ServerReports` | `src/connection/server.rs:131-441` | The same over every run of a server, which also reports promises and a wrong preface. |
| `Reports.Ignored` | `src/connection/mod.rs:275-299` | Acknowledgements, PRIORITY and frames of unknown types change nothing at all, and at a client neither does a promise. |
| `Reports.OverflowReported` | `src/connection/mod.rs:383-405` | An increment that a window has no room for is reported with its stream and size, and changes nothing; any other one is credited. |
| `Reports.RequestReported` | `src/connection/server.rs:339-392` | For every HEADERS frame a server reports exactly one event: why the identifier is refused, the error of the block, or the request; and when the identifier counts as used. |
| `Reports.ResponseReported` | `src/connection/mod.rs:408-436` | So does a client, whatever the identifier is; either keeps the table that decoding leaves. |
| `ConnectionCore.ConnectionCore.SendData` | `src/connection/mod.rs:531-581` | Sends as much as both windows and the limit allow, or refuses without changing anything. |
| `ConnectionCore.ConnectionCore.WriteHeaders` | `src/connection/mod.rs:511-524` | Encodes the fields with the connection's HPACK table and writes one HEADERS frame. |
| `ConnectionCore.ConnectionCore.HandOver` | `src/connection/mod.rs:215-221` | What is taken is the front of what was written and not taken yet; nothing else changes. |
| `ConnectionCore.ConnectionCore.PollEvents` | `src/connection/mod.rs:584-586` | Returns the events since the last call, each once. |
| `Connection.Connection.OnTransportReady` | `src/connection/mod.rs:173-178` | The preface and the settings are written, once. |
| `Connection.Connection.Flush` | `src/connection/mod.rs:215-221` | The transport may take any number of the waiting bytes; the order of what was written does not change. |
| `Connection.Connection.FeedData` | `src/connection/mod.rs:233-236` | Computes the protocol step: all complete frames of the buffer are handled in order. |
| `Connection.Connection.ProcessFrames` | `src/connection/mod.rs:258-272` | The loop over the buffer handles exactly the frames that decoding the whole buffer gives, and terminates. |
| `Connection.Connection.HandleHeaders` | `src/connection/mod.rs:408-436` | A block that cannot be decoded is reported; the table keeps what was learned. |
| `Connection.Connection.StartRequest` | `src/connection/mod.rs:491-528` | Refused unless open; otherwise a new stream and its HEADERS frame. The stream stays open even if it was ended. |
| `Connection.Connection.SendData` | `src/connection/mod.rs:531-581` | Limited by the peer's maximum frame size as well. |
| `ServerConnection.ServerConnection.Process` | `src/connection/server.rs:131-155` | Nothing happens before the whole preface is there; a wrong one is reported and left; otherwise the settings go out and the frames are handled. |
| `ServerConnection.ServerConnection.ProcessFrames` | `src/connection/server.rs:186-200` | The loop over the buffer, as for the client. |
| `ServerConnection.ServerConnection.HandleHeaders` | `src/connection/server.rs:339-392` | Even and old identifiers are refused; a new one counts as used before its block is decoded, and gets a stream only if the block is sound. |
| `ServerConnection.ServerConnection.SendHeaders` | `src/connection/server.rs:444-476` | Refused without a stream; otherwise the HEADERS frame, and the end of the stream. |
| `ServerConnection.ServerConnection.SendData` | `src/connection/server.rs:479-527` | Limited by the windows only. |
| `ServerConnection.ServerConnection.SendGoAway` | `src/connection/server.rs:530-539` | Names the last identifier and starts draining. |
| `ServerConnection.ServerConnection.ResetStream` | `src/connection/server.rs:542-553` | Writes RST_STREAM, and closes the stream if there is one. |
| `ServerConnection.ServerConnection.RemoveStream` | `src/connection/server.rs:576-578` | The stream is gone; everything else stays. |
| `ServerConnection.ServerConnection.AdvanceSend` | `src/connection/server.rs:566-568` | The caller takes the front of what is waiting. |
| `Chunking.ClientChunks` | `src/connection/mod.rs:233-236` | A client that is fed a stream in pieces ends in the state of one that is fed it at once, if the decoder meets no error. |
| `Chunking.ServerChunks` | `src/connection/server.rs:125-128` | The same for a server, also if the preface is cut. |
| `Moves.ClientRunMoves` | `src/connection/mod.rs:173-581` | Every run of a client is a run of the machine that both sides share, so what each move of that machine keeps holds in it. |
| `Moves.ServerRunMoves` | `src/connection/server.rs:117-578` | Every run of a server is one too. |
| `Accounting.DataBalanced` | `src/connection/mod.rs:439-472` | Data of up to a frame keeps the books balanced as long as the credit in circulation fits a window. |
| `Accounting.SendBalanced` | `src/connection/mod.rs:531-581` | Sending keeps the books balanced: the cast of the connection window is sound. |
| `Accounting.MovesBalanced` | `src/connection/flow_control.rs:21-75` | Over any run of the shared machine: window + consumed = 65535 + accepted increments, the window is not negative, announced + waiting = sent + received, and every announcement is at least half of the initial window. |
| `Accounting.ClientBalanced` | `src/connection/mod.rs:439-581` | So it is for every run of a client in which the credit in circulation stays within 2^31 - 1. |
| `Accounting.ServerBalanced` | `src/connection/server.rs:395-527` | And for every such run of a server. |
| `Accounting.AnnouncementsAccepted` | `src/frame/decode.rs:418-443` | Every increment announced is non-zero and decodes to itself at the peer, if there is room for one more frame. |
| `Accounting.ClientOverflows` | `src/connection/flow_control.rs:72-75` | In every reachable state of a client, giving back what was consumed leaves a non-negative window exactly when the credit in circulation is within 2^31 - 1. |
| `Accounting.ServerOverflows` | `src/connection/flow_control.rs:72-75` | The same for a server. |
| `Accounting.ClientOverspends` | `src/connection/flow_control.rs:21-75` | In every reachable state of a client within that limit, more was sent than its peer granted exactly when more was announced than was received or is left in the window. |
| `Accounting.ServerOverspends` | `src/connection/flow_control.rs:21-75` | The same for a server. |
| `Accounting.ClientSendOverspends` | `src/connection/mod.rs:531-581` | The guard that sending does not have: in any such state, a send of n bytes overspends exactly if the bytes announced and n are together more than the bytes received and what is left in the window. |
| `Accounting.ServerSendOverspends` | `src/connection/server.rs:479-527` | The same for a server. |
| `StreamCredit.ResizedHeld` | `src/connection/mod.rs:317-325` | A new initial window size moves every stream's window and balance by the same amount, in wrapping arithmetic. |
| `StreamCredit.ClientCreditHeld` | `src/connection/mod.rs:317-568` | Stream credit conservation: in every reachable state of a client each send window is the two's complement of the current initial size plus the accepted increments minus the bytes sent on it. |
| `StreamCredit.ServerCreditHeld` | `src/connection/server.rs:248-527` | The same for a server. |
| `StreamCredit.SolventWindow` | `src/connection/stream.rs:73-75` | Where no balance is out of range, the window is the balance and no more was sent than was granted. |
| `StreamCredit.SettingSolvent` | `src/connection/stream.rs:132-134` | A setting keeps the streams solvent exactly when it leaves every window within 0 to 2^31 - 1. |
| `StreamCredit.RaisingFits` | `src/connection/stream.rs:132-134` | An initial size that is not lowered can only fail at the upper end. |
| `StreamCredit.SendSolvent` | `src/connection/mod.rs:538-568` | Sending never overdraws a solvent stream. |
| `StreamCredit.UpdateSolvent` | `src/connection/stream.rs:121-129` | No increment makes a stream insolvent. |
| `StreamCredit.ClientNeverOverdrawn` | `src/connection/mod.rs:302-581` | Over every run of a new client whose peer never lowers the initial window size, nor raises it beyond what the increments of any stream leave room for: no window is negative, and no stream sends more than its initial size and its increments. |
| `StreamCredit.ServerNeverOverdrawn` | `src/connection/server.rs:233-527` | The same for a server. |
| `StreamCredit.OverdrawnExactly` | `src/connection/stream.rs:73-75` | Without any condition on the settings: a send window is negative exactly when its stream is overdrawn, as long as 32 bits can hold the balance. |
| `StreamCredit.AllowanceRespectsWindows` | `src/connection/mod.rs:544-549` | Bytes that are sent respect both windows exactly when neither is negative: the cast to an unsigned word hides the sign. |
| `StreamCredit.AllowanceIsLeast` | `src/connection/mod.rs:544-549` | What goes out is one of the four limits and not above any of them, except that a negative window is none. |
| `Departures.WindowWraps` | `src/connection/flow_control.rs:72-75` | A run of a new client after which its connection window is -2^31: the peer fills the window, returns the credit for one byte and sends two frames of data. |
| `Departures.StreamOverdrawn` | `src/connection/mod.rs:531-581` | A run after which a send window is -1, because a setting lowered the initial size, and the next 100 bytes are sent at once. |
| `Departures.ConnectionOverdrawn` | `src/connection/flow_control.rs:72-75` | A run in which a client sends 80000 bytes to a peer that granted 65535, because one received byte made it give back what it had sent. |
| `Departures.DataAfterEnd` | `src/connection/mod.rs:491-581` | A run whose last two frames are HEADERS that end their stream and DATA on the same stream. |
| `Departures.IdentifierReused` | `src/connection/mod.rs:503-509` | A run of 2^30 requests after which the next request gets identifier 1 again, and the stream that was half-closed is open once more. |
| `Departures.PrefaceForgotten` | `src/connection/mod.rs:173-178` | A client that is fed settings before its transport is ready is open, sends requests, and never sends its preface, against section 3.5 of RFC 7540. |
| `Departures.PrefaceLate` | `src/connection/mod.rs:181-212` | A client that is fed a PING before its transport is ready answers it in front of the preface. |
| `Departures.DrainingEnds` | `src/connection/mod.rs:344-380` | A run in which a client that drains, after a GOAWAY, is open again once the first settings arrive. |
| `ServerDepartures.LargeFrame` | `src/connection/server.rs:493-498` | A run in which a server writes a DATA frame of 20000 bytes to a client that allows 16384. |
| `ServerDepartures.PrefaceEndsDraining` | `src/connection/server.rs:133-176` | A run in which a server that was told to drain waits for settings again after the preface. |
| `ServerDepartures.SettingsEndDraining` | `src/connection/server.rs:277-281` | A run in which a server that drains is open again after the first settings. |
| `StreamStates.ClientStreamsTold` | `src/connection/mod.rs:389-581` | In every reachable state of a client, with the log of frames and events since a stream was opened: its state is the one that the END_STREAM of its DATA frames, the END_STREAM of the peer and resets determine; its receive window is the initial one less the bytes reported, its counter their sum, and the ledger counts the bytes sent. |
| `StreamStates.ServerStreamsTold` | `src/connection/server.rs:339-578` | The same for a server, which also takes note of END_STREAM on its HEADERS. |
| `StreamStates.ServerEndAgrees` | `src/connection/stream.rs:88-94` | A stream of a server that was not reset is half-closed (local) or closed exactly when END_STREAM was written on it. |
| `StreamStates.ClientEndAgrees` | `src/connection/mod.rs:491-528` | On a client this is so exactly if a request that was started with the end of the stream was ended by data as well; without such data, exactly if it was not started with the end. |
| `StreamStates.ServerGuards` | `src/connection/stream.rs:60-70` | The two guards, which no connection asks, are right on a server: sending is allowed exactly if neither END_STREAM nor a reset was written and no reset arrived, receiving exactly if the peer has not ended or reset the stream and neither has the server. |
| `StreamStates.ClientGuards` | `src/connection/stream.rs:60-70` | On a client the guard for sending misses the END_STREAM of its own HEADERS, and nothing else. |
| `Guarded.AskingSuffices` | `src/connection/stream.rs:60-65` | Over every run of a server whose callers send headers and data only when the guard allows it, no HEADERS or DATA frame follows the end of its stream. |
| `Guarded.NotAskingBreaks` | `src/connection/server.rs:479-527` | A send without asking keeps that exactly if the stream has not been ended. |
| `StreamStates.SendIgnoresState` | `src/connection/mod.rs:531-581` | Sending has the same outcome and writes the same frames whatever the state of the stream is. |
| `StreamStates.SentExactly` | `src/connection/server.rs:479-527` | Something is sent exactly if the stream exists and, unless there is nothing to send, no window and no limit is zero. |
| `StreamStates.RequestStaysOpen` | `src/connection/mod.rs:491-528` | A request with the end of the stream leaves the stream open though END_STREAM was written, and a byte can still be sent on it exactly if no window and no limit is zero. |
| `StreamStates.ClientStepAdvances` | `src/connection/mod.rs:173-581` | A step of a client takes no stream back to an earlier state unless it opens the identifier again; a closed stream reopens exactly then. |
| `StreamStates.ClientAdvances` | `src/connection/mod.rs:173-581` | Until the identifiers run out, closed is for good on a client, and half-closed streams only close. |
| `StreamStates.ServerAdvances` | `src/connection/server.rs:117-578` | On a server closed is for good, and so is removed, over every run. |
| `ServerLifecycle.RunOrderly` | `src/connection/server.rs:131-578` | Over every run of a server: request identifiers are odd and strictly increasing, every stream has a used identifier, readiness was reported exactly once if the settings have arrived and not otherwise, and none of this is ever undone. |
| `ServerLifecycle.RemovedForGood` | `src/connection/server.rs:576-578` | A removed stream never comes back. |
| `ServerLifecycle.DrainingForGood` | `src/connection/server.rs:277-311` | Once the settings have arrived, draining is for good. |
| `ServerLifecycle.SettingsEndDraining` | `src/connection/server.rs:277-281` | Settings that are not an acknowledgement end draining exactly if they are the first. |
| `Phases.ServerEndsDraining` | `src/connection/server.rs:131-284` | A step of a server ends draining in exactly two ways: the preface is admitted and the frames behind it do not drain it again, or the first settings arrive and no GOAWAY follows them. |
| `Phases.ClientEndsDraining` | `src/connection/mod.rs:173-380` | A step of a client ends draining exactly if it is fed the first settings and no GOAWAY follows them. |
| `Phases.ClientDrainingForGood` | `src/connection/mod.rs:344-380` | A client that has the settings and drains does so for good, over every run. |
| `Phases.ServerStepPhase` | `src/connection/server.rs:131-311` | State and settings of a server over any step are what the frames handled, the preface and GOAWAY make of them. |
| `Phases.ClientStepPhase` | `src/connection/mod.rs:173-380` | The same for a client, where only the transport becoming ready comes in between. |
| `Phases.PrefaceExactly` | `src/connection/mod.rs:173-212` | A client that is fed before its transport is ready still sends its preface exactly if no settings and no GOAWAY were among it, and sends it first exactly if it has answered nothing either. |
| `Phases.ReadyFirst` | `src/connection/mod.rs:173-212` | Over every run that begins with the transport becoming ready, a client begins with the preface. |
| `ServerLifecycle.RequestOrderly` | `src/connection/server.rs:339-392` | A HEADERS frame keeps the order, whether it is accepted, refused, or has a broken block. |
| `PlainTraffic.SharedPlain` | `src/connection/mod.rs:275-299` | Handling a frame of the peer, an endpoint writes only well-formed frames and keeps its windows in range. |
| `PlainTraffic.SendPlain` | `src/connection/server.rs:479-527` | DATA frames fit their header, also those of the server, which does not look at the frame limit. |
| `Channels.ReadingDecodes` | `src/connection/mod.rs:258-272` | A reader that decodes what has arrived takes the next frames that were written: none is lost, repeated or reordered. |
| `Delivery.PendingHeaders` | `src/connection/mod.rs:491-528` | A header block behind others on the way will be decoded correctly when the other side gets there, though the tables differ now. |
| `Delivery.PendingFrame` | `src/connection/mod.rs:531-581` | Data and notices queue up in order behind header blocks, and frames that carry no message change nothing about those that do. |
| `Delivery.ServerFramesTaken` | `src/connection/server.rs:203-230` | Taking frames, the server reports the next of the messages on their way. |
| `Delivery.ClientFramesTaken` | `src/connection/mod.rs:275-299` | So does the client. |
| `Network.PrefaceArrives` | `src/connection/server.rs:133-149` | The first bytes that reach the server are the preface. |
| `Network.StepKeeps` | `src/connection/mod.rs:173-581` | Every step of the joined system keeps its invariant: calls on either side, and bytes delivered in pieces of any size. |
| `EndToEnd.ServerReceives` | `src/connection/server.rs:339-427` | End-to-end delivery to the server: the requests and data it has reported are, in order, the first of those that the client sent, with the same identifiers, headers, bytes and ends; once every byte has arrived, the next look at the buffer empties it and they are all reported. |
| `EndToEnd.ClientReceives` | `src/connection/mod.rs:408-472` | End-to-end delivery to the client: the response headers, data, GOAWAY and RST_STREAM it has reported are the first of those that the server sent; those in the first frame above 16384 bytes and behind it are never among them, and exactly those are missing once every byte has arrived. |
| `EndToEnd.ClientReceivesExactly` | `src/connection/mod.rs:258-272` | Then the buffer is empty exactly if the server wrote no frame above 16384 bytes, and everything is reported exactly if no message is in or behind one. |
| `EndToEnd.CarefulClientReceives` | `src/connection/server.rs:444-539` | If no caller of the server passes more than fits a frame of 16384 bytes, everything that it sent is reported in the end. |
| `EndToEnd.ServerFrameSize` | `src/connection/server.rs:493-498` | The frame that one send writes is within the limit exactly if the data or one of the two windows is. |
| `NetworkDepartures.ResponseStuck` | `src/connection/server.rs:493-498` | An allowed run of both sides in which every byte has arrived, the client reports nothing of the response and its buffer is stuck. |
| `EndToEnd.RequestsDelivered` | `src/connection/server.rs:339-392` | So the requests reported are the first of those started, and all of them once their bytes have arrived and been looked at. |
| `Network.LastIsRequest` | `src/connection/server.rs:530-539` | In every reachable joint state the last identifier of a server is that of the last request it reported. |
| `Notices.NoticesDelivered` | `src/connection/server.rs:530-553` | Over every joint run the GOAWAY and RST_STREAM events of the client are, in order, the first of the calls on the server, with their codes and streams and with the last request reported before the call; in the end they are all of them, if no frame is above the limit. |
| `EndToEnd.DataDelivered` | `src/connection/server.rs:395-427` | And on every stream, either way, the bytes received are the first of those sent; once all has arrived, they are all of them at the server, and at the client all but those in and behind the first frame above 16384 bytes. |
| `StreamLimits.StreamsAreLimited` | `src/connection/mod.rs:531-581` | Over every run of both sides at most 65535 bytes are sent on a stream each way, because no stream credit is ever returned, and its send window is what is left of them. |

## Left out

- EndToEnd.ServerReceives: is stated, like everything else about the joined system, for request header blocks of at most 16384 bytes, response header blocks that fit a frame header, identifiers below 2^31, less than 2^31 - 16384 bytes waiting to be credited, GOAWAY debug data that fits a frame and RST_STREAM on real streams, because beyond these the code writes frames that its own decoder refuses or reads differently.
- Accounting.ClientBalanced: is stated up to a credit in circulation of 2^31 - 1, because the window wraps around beyond it; ClientOverflows says so exactly.
- HpackGrowth.FollowsExactly: is about blocks of plain fields, because a size update can repair the tables.
- StreamCredit.ClientNeverOverdrawn: the condition on the peer's settings is sufficient for a run, not necessary, because a lowered size does no harm while little was sent; SettingSolvent is exact for one setting and OverdrawnExactly for one state.
- StreamStates.ClientAdvances: is stated until the identifiers run out, because then they are used again; ClientStepAdvances says exactly what happens in a step.
- What a connection does after a frame error: the source handles the buffer again at the next call, and an oversized frame stays in it forever.
- Errors of the transport: a failing send would stop a handler in the middle. All calls of the transport succeed here.
- TLS (`src/transport/tls.rs`), the `Transport` trait, and its plain implementation beyond a queue of bytes.
- The builders in `src/connection/settings.rs`; the announced settings are the defaults. Of the remote settings only those that a peer can change are kept.
- Names and texts of errors and error codes; an error code is a number here.
- CONTINUATION frames, pushed streams and priorities beyond their encoding: the connections ignore or refuse them.
- Debug builds, which stop where the model wraps around.
- Word sizes other than 64 bits for the connections and HPACK; integers are proved for any word size. Lengths of buffers are unbounded.
- Building the Huffman tree once for all decodings: the model builds it for each.
- Capacities and reservations of buffers, accessors, and the window methods that no connection calls (`src/connection/flow_control.rs:78-93`).
- The shortcuts that encode single frames (`src/frame/encode.rs:275-337`).
- Reading from the transport into the connection's buffer (`src/connection/mod.rs:239-255`); bytes arrive in the buffer directly, as with `feed_data`.
