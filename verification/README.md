# Verified models of the vendored protocol code

The application in this repository is user interface and Firebase plumbing. The code with hard
invariants is vendored under `BookUp/Pods`: the protobuf codec nanopb, and parts of BoringSSL. This
project models five of these components in Dafny and proves what they are for. Each loop and each
object of the sources is a method or a class here and is proved against a specification function;
the theorems are lemmas about those functions. `dafny verify dfyconfig.toml` checks everything.

| component | modules |
|---|---|
| nanopb, encoder and decoder for static fields | `PbWire`, `PbSchema`, `PbEncodeSpec`, `PbDecodeSpec` (specifications); `PbOStream`, `PbEncoder`, `PbIStream`, `PbIter`, `PbSeen`, `PbDecoder` (the code); `PbFormat`, `PbMeaning`, `PbRoundTrip`, `PbProjection`, `PbMerge` (theorems) |
| DTLS handshake transport | `DtlsFragment`, `DtlsReassembly`, `DtlsFlight` (specifications); `DtlsReceiver`, `DtlsSender` (the code); `DtlsNetwork`, `DtlsEpochs` (theorems over runs); `DtlsReplay` (record layer) |
| TLS write path | `TlsBuffer`, `TlsWriter` |
| TLS 1.0 to 1.2 handshake | `TlsHandshake`, `TlsStates` (machines); `TlsConnection` (their loops); `TlsRuns`, `TlsTrail`, `TlsScript`, `TlsAgreement` (theorems); `ChooseCipher` |
| reference count | `Refcount` |

`Bits` holds words as natural numbers with their bits, and `Options` a result that may be absent.

**nanopb.** A message type is a sequence of `Field` descriptors (`pb_field_t`) and a message a
sequence of cells, one per struct member; all members of a union share one. The configuration is that
of the Pods: 64-bit integers, no malloc, `PB_FIELD_32BIT`. Specification functions give the bytes a
message encodes to (`EncMsg`, after pb_encode.c 126-542) and the message that bytes decode to
(`DecMsg`, after pb_decode.c 182-1063); methods over a bounded output window and over an input with a
limit are proved to compute them, with what they read and write stated exactly. `PbFormat` and
`PbMeaning` say what these functions mean without naming them or their constants: a reader of the
wire grammar, defined on its own, finds in every encoding just the records that the message calls
for, and each record that is decoded has its stated effect, whatever the destination held. They follow the
Protocol Buffers Encoding specification, sections "Base 128 Varints", "Message Structure", "Packed
Repeated Fields" and "Last One Wins". The central result, `MsgRoundTrip`, is about two message types
at once, so the plain round trip and the transparency of unknown fields are both special cases of it;
it is an if-and-only-if, since a string that fills its buffer is written by the encoder and refused
by the decoder.

**DTLS.** Sender and receiver follow sections 4.2.2 to 4.2.4 of RFC 6347, the replay window section
4.1.2.6. `DtlsNetwork` composes them: the network may lose, repeat and reorder records, and a
transmission may be cut in any way that continues the flight, which is what the sender's methods
guarantee under any sequence of MTUs. The code and its comment disagree in one place: a fragment
exactly seven above the next number is not ignored like later ones but refused
(`ssl/d1_both.cc` lines 268 and 380); `HonestRefusal` states exactly which honest fragments are refused.
`DtlsEpochs` adds the change of keys: a receiver drops what is not of its read epoch, so the
encrypted Finished has to arrive behind it. When sealing fails in the middle of a packet, the cursor
has passed over pieces that no packet carries; the contract of `SendFlight` names them. Failures of
sealing and of the transport are counted (`faults`), so that a contract can say what happens when
nothing outside fails.

**TLS write path.** One invariant, `Ordered`, says that the bytes taken by the transport, the write
buffer and the rest of the pending flight make up all sealed records in order. The buffer's offset
has 16 bits: a buffer that reaches beyond 65536 bytes can wrap after a short write
(`ssl/ssl_buffer.cc` lines 47-97). `ShortWriteBreaksOrder` is such a write, `FlushKeepsRest` and
`RoomKeepsRest` say exactly when there is none, and the methods keep `Ordered` under that condition
on the sizes, which a caller can check. `FlushFlight` reports success without looking at the write
buffer when there is no flight, and its contract says so.

**TLS handshake.** The do_* functions of client and server are steps on a value, because the theorems
compose two of them; the loops that drive them are methods. Messages have a kind and an opaque body;
the body of a Finished stands for its sender and the transcript it was computed over. Sealing,
hashing and consuming a message are separate operations, placed in each state as in its source.
`TlsRuns` is about one endpoint against an arbitrary peer, `TlsTrail` about the states it leaves and
the checks made in them, with no do_* function named, and `TlsAgreement` about two honest ones over
in-order channels (sections 7.3 and 7.4.9 of RFC 5246).

**Reference count.** Threads interleave the compare-exchange loops step by step, with spurious
failures; the lock version is the specification they linearize to.

## Model

| member | source | states |
|---|---|---|
| PbWire.VarintInverts | BookUp/Pods/nanopb/pb_decode.c:250-270 | reading what pb_encode_varint wrote gives the value back and leaves the following bytes, for every 64-bit value; the ten-byte bound never cuts one off |
| PbWire.ReadVarintExactly | BookUp/Pods/nanopb/pb_decode.c:250-270 | on arbitrary bytes: a number ends at the first byte below 128, which has to be one of the first ten; its seven-bit groups count modulo 2^64; otherwise it is refused |
| PbWire.Varint64Length | BookUp/Pods/nanopb/pb_encode.c:574-594 | a 64-bit value takes one to ten bytes |
| PbWire.Varint32OnVarint | BookUp/Pods/nanopb/pb_decode.c:182-248 | the 32-bit reader on every 64-bit varint: exactly which numbers it accepts, and it gives their low word; a number from 2^63 on is accepted just if bit 31 is set and each seven-bit group from bit 35 to bit 62 is all zeros or all ones, while bits 32 to 34 are free |
| PbWire.Varint32OnInt32 | BookUp/Pods/nanopb/pb_decode.c:182-248 | so values below 2^32 come back, sign-extended negative 32-bit numbers give their low word, and nothing from 2^32 up to 2^63 is accepted |
| PbWire.Varint32TakesMore | BookUp/Pods/nanopb/pb_decode.c:216-226 | an instance of what is accepted although it is no 32-bit number: 0x8000000080000000 is read as 0x80000000 |
| PbWire.Varint32AgreesWith64 | BookUp/Pods/nanopb/pb_decode.c:182-270 | on arbitrary bytes: when the 32-bit reader accepts at most ten bytes, it consumes what the 64-bit reader consumes and returns its result modulo 2^32 |
| PbWire.ReadVarintPrefix | BookUp/Pods/nanopb/pb_decode.c:250-270 | what is read does not depend on the bytes behind it |
| PbWire.ReadVarint32Prefix | BookUp/Pods/nanopb/pb_decode.c:182-248 | likewise for the 32-bit reader |
| PbWire.ZigZagInverts | BookUp/Pods/nanopb/pb_decode.c:1240-1252 | decoding a zigzag number undoes the encoding, on all signed 64-bit values |
| PbWire.UnZigZagInverts | BookUp/Pods/nanopb/pb_encode.c:596-605 | and the other way round, on all unsigned 64-bit values |
| PbWire.LittleEndianInverts | BookUp/Pods/nanopb/pb_decode.c:1254-1287 | fixed32 and fixed64 come back from their bytes |
| PbWire.KeyInverts | BookUp/Pods/nanopb/pb_decode.c:293-314 | the key of a field is read back as its tag and wire type, for every tag that fits |
| PbSchema.CellOfProperties | BookUp/Pods/nanopb/pb_common.c:20-76 | which struct member a descriptor refers to: that of the first field of its union, and only the fields of a union refer to another's |
| PbSchema.SameCellExactly | BookUp/Pods/nanopb/pb_common.c:20-76 | two fields share their struct member just if all fields behind the first, up to the second, belong to its union |
| PbSchema.Find | BookUp/Pods/nanopb/pb_common.c:78-95 | the position found has the tag, and no position is found just if no field has it |
| PbIter.CellHasOnePlace | BookUp/Pods/nanopb/pb_common.c:20-76 | fields of one union have one data offset and one selector offset |
| PbIter.MembersApart | BookUp/Pods/nanopb/pb_common.c:20-76 | the next member lies behind the whole of the previous one, an array with all its entries |
| PbIter.FieldIter.Begin | BookUp/Pods/nanopb/pb_common.c:8-18 | the iterator starts at the first field, at its layout offset, and says whether there is a field |
| PbIter.FieldIter.Next | BookUp/Pods/nanopb/pb_common.c:20-76 | one step goes to the next field, or wraps round to the start; position, data offset, size offset and the number of required fields before the position stay right |
| PbIter.FieldIter.FindTag | BookUp/Pods/nanopb/pb_common.c:78-95 | from any position, within one lap, the iterator stops at a field with the tag just if there is one; an unknown tag leaves it where it was |
| PbSeen.MarkSeen | BookUp/Pods/nanopb/pb_decode.c:975-980 | setting one bit of fields_seen adds one index to the set the words stand for |
| PbSeen.CheckSeen | BookUp/Pods/nanopb/pb_decode.c:1026-1044 | the word-by-word check holds just if every required index below the count is in the set |
| PbOStream.OStream.BufWrite | BookUp/Pods/nanopb/pb_encode.c:72-98 | the bytes go to the window at the place behind what was written, and nowhere else |
| PbOStream.OStream.Write | BookUp/Pods/nanopb/pb_encode.c:101-119 | succeeds just if the bytes fit; then they are counted, and stored unless the stream only counts; otherwise nothing is counted |
| PbOStream.EmitsThen | BookUp/Pods/nanopb/pb_encode.c:101-119 | two outputs in a row are one output of the joined bytes |
| PbEncoder.EncodeVarint | BookUp/Pods/nanopb/pb_encode.c:574-594 | emits the shortest base-128 form |
| PbEncoder.VarintBytes | BookUp/Pods/nanopb/pb_encode.c:574-594 | the loop over seven-bit groups fills the buffer with the shortest base-128 form |
| PbEncoder.EncodeSvarint | BookUp/Pods/nanopb/pb_encode.c:596-605 | emits the varint of the zigzag number |
| PbEncoder.EncodeFixed32 | BookUp/Pods/nanopb/pb_encode.c:607-617 | emits the four bytes, least significant first |
| PbEncoder.EncodeFixed64 | BookUp/Pods/nanopb/pb_encode.c:619-633 | emits the eight bytes, least significant first |
| PbEncoder.EncodeTag | BookUp/Pods/nanopb/pb_encode.c:635-639 | emits the key |
| PbEncoder.EncodeTagForField | BookUp/Pods/nanopb/pb_encode.c:641-672 | emits the key with the wire type of the field's type, and fails for no supported type; the numbers on the wire are those of PbFormat.EncodedForm |
| PbEncoder.EncodeString | BookUp/Pods/nanopb/pb_encode.c:674-680 | emits the length and the bytes |
| PbEncoder.EncString | BookUp/Pods/nanopb/pb_encode.c:831-855 | walks the buffer to the terminator or to its end, and emits that string |
| PbEncoder.EncInt | BookUp/Pods/nanopb/pb_encode.c:734-791 | reads the member at its size and sign, and emits its varint; other sizes are refused |
| PbEncoder.EncodeValue | BookUp/Pods/nanopb/pb_encode.c:734-869 | each per-type encoder emits the specified bytes, or fails where the specification does |
| PbEncoder.EncodeSubmessage | BookUp/Pods/nanopb/pb_encode.c:682-730 | the sizing pass and the writing pass agree: the length prefix is the length of what follows, at every depth; sizing streams count the same number |
| PbEncoder.EncodeInto | BookUp/Pods/nanopb/pb_encode.c:703-730 | the substream of exactly the sized length is filled exactly, so that the check for a changed size cannot fail |
| PbEncoder.CheckProto3Default | BookUp/Pods/nanopb/pb_encode.c:215-303 | tells whether a proto3 singular member, down through submessages, is zero |
| PbEncoder.CheckAllDefault | BookUp/Pods/nanopb/pb_encode.c:250-266 | its loop stops at the first member that is not zero |
| PbEncoder.PackedSize | BookUp/Pods/nanopb/pb_encode.c:136-167 | the size found beforehand is the length of the packed values |
| PbEncoder.EncodeArray | BookUp/Pods/nanopb/pb_encode.c:126-211 | emits all entries, packed under one key or each under its own; too many entries are refused |
| PbEncoder.EncodePackedArray | BookUp/Pods/nanopb/pb_encode.c:136-186 | emits key, length and values; a sizing stream counts as many bytes |
| PbEncoder.EncodeBasicField | BookUp/Pods/nanopb/pb_encode.c:307-392 | emits the field according to its kind, its has_ flag, count or selector, or leaves it out |
| PbEncoder.Encode | BookUp/Pods/nanopb/pb_encode.c:494-516 | emits the whole message, field by field, never outside its window; succeeds just if the message can be encoded and fits |
| PbEncoder.GetEncodedSize | BookUp/Pods/nanopb/pb_encode.c:533-542 | succeeds just if the message can be encoded, and the size is the length of the encoding |
| PbEncoder.EncodeNullTerminated | BookUp/Pods/nanopb/pb_encode.c:523-531 | emits the message and one zero byte |
| PbIStream.IStream.Read | BookUp/Pods/nanopb/pb_decode.c:100-134 | hands over the next bytes, or fails and consumes nothing when there are too few |
| PbIStream.IStream.DecodeVarint | BookUp/Pods/nanopb/pb_decode.c:250-270 | the loop reads exactly the specified varint, with at most ten bytes |
| PbIStream.IStream.DecodeVarint32Eof | BookUp/Pods/nanopb/pb_decode.c:182-242 | the loop, with its eight-bit bit position and its rule for sign extension, reads exactly the specified 32-bit varint, and tells the end of the stream from a broken one |
| PbIStream.IStream.Varint32Rest | BookUp/Pods/nanopb/pb_decode.c:197-238 | the bytes after the first one |
| PbIStream.IStream.DecodeTag | BookUp/Pods/nanopb/pb_decode.c:293-314 | reads a key; a zero key and the end of the bytes both end the message |
| PbIStream.IStream.SkipVarint | BookUp/Pods/nanopb/pb_decode.c:273-282 | stops behind the last byte of the varint |
| PbIStream.IStream.SkipString | BookUp/Pods/nanopb/pb_decode.c:284-291 | skips a length and as many bytes |
| PbIStream.IStream.SkipField | BookUp/Pods/nanopb/pb_decode.c:316-326 | consumes exactly what the specification skips for the wire type |
| PbIStream.IStream.MakeSubstream | BookUp/Pods/nanopb/pb_decode.c:367-380 | the substream is the announced block, and the parent's limit goes back by its length |
| PbIStream.IStream.CloseSubstream | BookUp/Pods/nanopb/pb_decode.c:382-399 | what is left of the substream is skipped, and the parent goes on behind the block |
| PbDecoder.SetToDefaults | BookUp/Pods/nanopb/pb_decode.c:884-895 | every member gets the default of its kind, and union members none |
| PbDecoder.FieldSetToDefault | BookUp/Pods/nanopb/pb_decode.c:812-882 | flag, count, selector and value of one member are reset |
| PbDecoder.DecVarintInt | BookUp/Pods/nanopb/pb_decode.c:1289-1372 | the varint is cast to the member's size, and refused when that changes it |
| PbDecoder.DecFixed | BookUp/Pods/nanopb/pb_decode.c:1254-1287 | shifts and ors make up the little-endian word |
| PbDecoder.DecBlobBytes | BookUp/Pods/nanopb/pb_decode.c:1391-1461 | a block goes into its buffer just if it fits, a string with its terminator |
| PbDecoder.DecSubmessage | BookUp/Pods/nanopb/pb_decode.c:1463-1485 | the message in the block is merged into, or replaces, what was there |
| PbDecoder.DecodePackedArray | BookUp/Pods/nanopb/pb_decode.c:419-447 | entries are appended while there are bytes and room; leftover bytes are an error |
| PbDecoder.DecodeStaticField | BookUp/Pods/nanopb/pb_decode.c:401-475 | does to the member what the specification says for its kind and the wire type; what that is, PbMeaning.RecordDecoded states without it |
| PbDecoder.DecodeMember | BookUp/Pods/nanopb/pb_decode.c:460-470 | a union member is selected, a submessage in it initialised, and then decoded |
| PbDecoder.RequiredFieldsSeen | BookUp/Pods/nanopb/pb_decode.c:1005-1046 | running the iterator to the end counts the required fields; the check holds just if each of the first 64 has been seen |
| PbDecoder.DecodeNextField | BookUp/Pods/nanopb/pb_decode.c:923-989 | one round: the field with the tag is decoded, or an unknown field skipped |
| PbDecoder.DecodeNoInit | BookUp/Pods/nanopb/pb_decode.c:901-1049 | decodes the remaining bytes exactly as specified, for arbitrary bytes; fails just where the specification fails |
| PbDecoder.Decode | BookUp/Pods/nanopb/pb_decode.c:1051-1063 | starts from the defaults and decodes as specified |
| PbDecoder.DecodeDelimited | BookUp/Pods/nanopb/pb_decode.c:1080-1093 | the message comes out of the block that the length announces, and the stream goes on behind it |
| PbFormat.EncodedForm | BookUp/Pods/nanopb/pb_encode.c:307-542 | every encoding is a sequence of records that an independent reader takes apart: the number 8 * tag + w with w = 0, 1, 2 or 5, then a number, eight bytes, a length and as many bytes, or four bytes; their tags and payloads are, in order, those of the members: none for one that is unset or a proto3 zero, one block for all entries of a numeric array, otherwise one record a value |
| PbFormat.FixedOnTheWire | BookUp/Pods/nanopb/pb_encode.c:607-672 | an instance: a required fixed32 member with tag 1 and value 1 is 0D 01 00 00 00 |
| PbFormat.EncodesExactly | BookUp/Pods/nanopb/pb_encode.c:494-516 | a message can be encoded just if each value that is present is within the memory of its member and no array has more entries than room |
| PbMeaning.IntegerDecoded | BookUp/Pods/nanopb/pb_decode.c:1240-1372 | which number a payload denotes, for each type and size; it is decoded just if the member can hold it, and refused otherwise |
| PbMeaning.RecordDecoded | BookUp/Pods/nanopb/pb_decode.c:401-475 | a record of a known field at the head of the input, whatever the member held: the value becomes the member, with its flag set or its union selected, or joins the array; a payload that gives no value, and an array that is full, end in failure |
| PbMeaning.LastOneWins | BookUp/Pods/nanopb/pb_decode.c:401-475 | decoding the key and the encoded value of a field that is no submessage leaves the member at exactly this value, whatever it held |
| PbMeaning.RecordSkipped | BookUp/Pods/nanopb/pb_decode.c:316-326 | a record of no known field is passed over, whatever its payload |
| PbMeaning.LoopEnds | BookUp/Pods/nanopb/pb_decode.c:293-314 | the loop ends at the end of the bytes and behind a zero byte for a key; it fails on a key that is cut off, and on a tag zero if there is no field |
| PbMeaning.NoSuchType | BookUp/Pods/nanopb/pb_decode.c:316-326 | a record of an unknown field with one of the other four wire types is refused |
| PbMeaning.DefaultsAre | BookUp/Pods/nanopb/pb_decode.c:812-882 | before anything is decoded no flag is set, no union selected, no array entry there; other members are at the default of the descriptor, submessages at theirs |
| PbMeaning.LoopIsFold | BookUp/Pods/nanopb/pb_decode.c:901-997 | decoding a sequence of records is applying each of them in turn, known or unknown |
| PbMeaning.UnmentionedStay | BookUp/Pods/nanopb/pb_decode.c:901-997 | a member that no record mentions keeps what it held |
| PbMeaning.RequiredExactly | BookUp/Pods/nanopb/pb_decode.c:998-1046 | of records that can be applied, decoding succeeds just if each of the first 64 required fields is mentioned |
| PbMeaning.SubmessageDecoded | BookUp/Pods/nanopb/pb_decode.c:1463-1485 | a required or optional submessage is decoded into what the member holds |
| PbMeaning.SubmessagesMerge | BookUp/Pods/nanopb/pb_decode.c:1463-1485 | so a second occurrence applies its records to the first, and the members it does not mention stay |
| PbMeaning.UnionStartsAnew | BookUp/Pods/nanopb/pb_decode.c:460-470 | a submessage in a union starts from its defaults, even when it was selected before |
| PbRoundTrip.MsgRoundTrip | BookUp/Pods/nanopb/pb_decode.c:901-1063 | decoding under one message type what was encoded under a type with possibly more fields: every byte is consumed and the projection of the message is rebuilt just if each string leaves room for its terminator and each block length fits 32 bits; otherwise decoding fails |
| PbRoundTrip.SkipRoundTrip | BookUp/Pods/nanopb/pb_decode.c:316-326 | skipping consumes exactly one encoded value, for every type the encoder emits |
| PbRoundTrip.PackedRoundTrip | BookUp/Pods/nanopb/pb_decode.c:419-447 | packed values come back in order |
| PbRoundTrip.FieldRoundTrip | BookUp/Pods/nanopb/pb_decode.c:401-475 | one encoded field has exactly the effect of that field's values, known or unknown to the decoder |
| PbRoundTrip.LoopRoundTrip | BookUp/Pods/nanopb/pb_decode.c:916-996 | all encoded fields have their effects one after the other |
| PbRoundTrip.RequiredSeen | BookUp/Pods/nanopb/pb_decode.c:998-1046 | the encoder writes every required field, so the decoder finds none missing |
| PbProjection.ProjectIsCellwise | BookUp/Pods/nanopb/pb_encode.c:307-392 | what the projection is, member by member: values whose has_ flag is false, and members of other types, do not come through |
| PbProjection.ProjectNormal | BookUp/Pods/nanopb/pb_encode.c:494-516 | for the same type the projection of a message without leftovers is that message |
| PbProjection.RoundTrip | BookUp/Pods/nanopb/pb_decode.c:1051-1063 | pb_decode of what pb_encode wrote gives the same message and leaves no byte, just if the strings leave room for their terminators and lengths fit; otherwise it fails |
| PbProjection.FullStringIsRefused | BookUp/Pods/nanopb/pb_decode.c:1428-1461 | an instance: a string that fills its buffer is encoded, and refused by the decoder of the same type |
| PbMerge.LoopConcat | BookUp/Pods/nanopb/pb_decode.c:901-997 | the field loop over joined inputs is the loop over the first and then over the second |
| PbMerge.ConcatIsMerge | BookUp/Pods/nanopb/pb_decode.c:901-1049 | pb_decode_noinit of joined inputs: the messages are merged, and required fields may come from either |
| PbMerge.SuccessiveDecodesMerge | BookUp/Pods/nanopb/pb_decode.c:901-1049 | two decodings that succeed one after the other give the message of the joint one |
| PbMerge.ChunksDecoded | BookUp/Pods/nanopb/pb_decode.c:419-459 | any mixture of packed and unpacked chunks of an array gives the same array, and is refused just if the entries do not fit |
| PbMerge.LoopConforms | BookUp/Pods/nanopb/pb_decode.c:901-997 | arbitrary bytes never take a destination out of its memory: numbers stay in range, blocks in their buffers, counts at most the array size, selectors name members |
| PbMerge.DefaultsConform | BookUp/Pods/nanopb/pb_decode.c:884-895 | the initial message is within its memory |
| DtlsFragment.ParseInverts | BookUp/Pods/BoringSSL-GRPC/ssl/d1_both.cc:459-473 | a fragment on the wire is parsed back into its header, its body and what follows |
| DtlsFragment.FragmentLayout | BookUp/Pods/BoringSSL-GRPC/ssl/d1_both.cc:459-473 | where type, lengths, number, offset and body lie in a fragment, byte by byte, and that it is refused just if it is cut off |
| DtlsFragment.BitOfRange | BookUp/Pods/BoringSSL-GRPC/ssl/d1_both.cc:203-205 | bit_range sets exactly the bits from start up to end |
| DtlsFragment.MarkBits | BookUp/Pods/BoringSSL-GRPC/ssl/d1_both.cc:225-236 | the masks of the first and last byte and the loop between them set exactly the bits of the range, and clear none |
| DtlsFragment.AllMarked | BookUp/Pods/BoringSSL-GRPC/ssl/d1_both.cc:238-251 | the byte-wise check finds a complete mask just if every bit below the message length is set |
| DtlsReassembly.MarkedExactly | BookUp/Pods/BoringSSL-GRPC/ssl/d1_both.cc:207-251 | for any sequence of ranges, a byte is marked exactly when some range covered it |
| DtlsReassembly.CompleteExactly | BookUp/Pods/BoringSSL-GRPC/ssl/d1_both.cc:207-251 | a new message becomes complete exactly when the ranges cover all of it |
| DtlsReassembly.ReceiveFragment | BookUp/Pods/BoringSSL-GRPC/ssl/d1_both.cc:357-401 | a fragment keeps the ring in order: slot i holds a number with remainder i, inside the window |
| DtlsReassembly.AnyFragment | BookUp/Pods/BoringSSL-GRPC/ssl/d1_both.cc:265-401 | any fragment, honest or not: which are refused and with which alert, which are passed over, and which bytes the others bring |
| DtlsReassembly.CutOffFragment | BookUp/Pods/BoringSSL-GRPC/ssl/d1_both.cc:350-360 | one that is shorter than its header or than the length in it announces is refused as undecodable |
| DtlsReassembly.SlotSeq | BookUp/Pods/BoringSSL-GRPC/ssl/d1_both.cc:273-277 | a message found in the slot of an acceptable number has that number |
| DtlsReassembly.CurrentIsNext | BookUp/Pods/BoringSSL-GRPC/ssl/d1_both.cc:255-259 | the message that is handed out has the next number |
| DtlsReassembly.Advance | BookUp/Pods/BoringSSL-GRPC/ssl/d1_both.cc:426-438 | moving on keeps the ring in order |
| DtlsReceiver.HmFragment.constructor | BookUp/Pods/BoringSSL-GRPC/ssl/d1_both.cc:152-199 | a new message has its header in front and no byte received; an empty one is complete at once |
| DtlsReceiver.HmFragment.Mark | BookUp/Pods/BoringSSL-GRPC/ssl/d1_both.cc:207-251 | the range is marked, and the mask dropped just when the message has become complete |
| DtlsReceiver.HmFragment.Receive | BookUp/Pods/BoringSSL-GRPC/ssl/d1_both.cc:397-401 | the bytes are stored and marked, and no other byte changes |
| DtlsReceiver.HmFragment.CompleteIsNull | BookUp/Pods/BoringSSL-GRPC/ssl/d1_both.cc:255-259 | the mask pointer is null just if every byte has arrived |
| DtlsReceiver.Receiver.GetIncomingMessage | BookUp/Pods/BoringSSL-GRPC/ssl/d1_both.cc:265-295 | the slot's message is returned or created, or the fragment refused with the specified alert; the message found always has the fragment's number; other slots stay |
| DtlsReceiver.Receiver.TakeFragment | BookUp/Pods/BoringSSL-GRPC/ssl/d1_both.cc:362-401 | one round of the loop does to the ring exactly what ReceiveFragment says |
| DtlsReceiver.Receiver.OpenHandshake | BookUp/Pods/BoringSSL-GRPC/ssl/d1_both.cc:297-405 | all fragments of a record are received in order until one is refused; other record types are refused, discarded or flagged |
| DtlsReceiver.Receiver.OpenChangeCipherSpec | BookUp/Pods/BoringSSL-GRPC/ssl/d1_both.cc:475-493 | success uses the ChangeCipherSpec up, and comes just with one that was seen before or arrives now |
| DtlsReceiver.Receiver.GetMessage | BookUp/Pods/BoringSSL-GRPC/ssl/d1_both.cc:408-424 | hands out type, body and raw bytes of the next message just if it is complete |
| DtlsReceiver.Receiver.NextMessage | BookUp/Pods/BoringSSL-GRPC/ssl/d1_both.cc:426-433 | the slot is freed and the next number awaited; other slots stay |
| DtlsSender.Sender.MessageRead | BookUp/Pods/BoringSSL-GRPC/ssl/d1_both.cc:434-437 | a message that is read after a complete flight is noted as the reply to it |
| DtlsReceiver.Receiver.HasUnprocessedHandshakeData | BookUp/Pods/BoringSSL-GRPC/ssl/d1_both.cc:440-457 | true just if a ChangeCipherSpec is pending or a slot other than that of the current message is occupied |
| DtlsFlight.TilesSendBodies | BookUp/Pods/BoringSSL-GRPC/ssl/d1_both.cc:644-777 | pieces that lead from a cursor to the end of the flight carry each message body from there on exactly once and in order |
| DtlsFlight.TilesCover | BookUp/Pods/BoringSSL-GRPC/ssl/d1_both.cc:644-777 | every byte of every message lies in some piece, and an empty message has one |
| DtlsFlight.TilesThen | BookUp/Pods/BoringSSL-GRPC/ssl/d1_both.cc:782-827 | packets in a row continue each other |
| DtlsSender.SerializeIsWhole | BookUp/Pods/BoringSSL-GRPC/ssl/d1_both.cc:511-537 | a finished message is one fragment that covers the message |
| DtlsSender.Sender.AddOutgoing | BookUp/Pods/BoringSSL-GRPC/ssl/d1_both.cc:555-594 | an entry joins the flight under the current epoch, or opens a new one if the old was complete; an eighth entry is refused |
| DtlsSender.Sender.AddMessage | BookUp/Pods/BoringSSL-GRPC/ssl/d1_both.cc:511-598 | the message is queued under the next number with its type and body |
| DtlsSender.Sender.AddChangeCipherSpec | BookUp/Pods/BoringSSL-GRPC/ssl/d1_both.cc:600-602 | a ChangeCipherSpec is queued, and takes no number |
| DtlsSender.Sender.ClearOutgoing | BookUp/Pods/BoringSSL-GRPC/ssl/d1_both.cc:500-509 | the flight and the cursor are reset |
| DtlsSender.Sender.UpdateMtu | BookUp/Pods/BoringSSL-GRPC/ssl/d1_both.cc:615-633 | the MTU afterwards: a value below 228 is replaced by the transport's answer if that is from 228 up to 2^30, otherwise by 1472; with queries switched off it stays |
| DtlsSender.Sender.SealNextMessage | BookUp/Pods/BoringSSL-GRPC/ssl/d1_both.cc:644-734 | seals as much of the message at the cursor as fits, with the right header, and moves the cursor behind it; or nothing when not even one byte fits |
| DtlsSender.Sender.SealNextPacket | BookUp/Pods/BoringSSL-GRPC/ssl/d1_both.cc:739-780 | a packet is not empty, fits, continues the flight without gap or overlap, and is as full as it can be; it is refused just when the first piece does not fit or sealing fails |
| DtlsSender.Sender.SendFlight | BookUp/Pods/BoringSSL-GRPC/ssl/d1_both.cc:782-827 | what the transport took continues the flight from the old cursor, under the epochs of the messages, and the cursor stands behind it also when the transport refuses; the MTU is updated first; when nothing outside fails and the MTU has room for a byte of every message, all is sent and flushed and the result is 1; only a failure to seal passes over pieces |
| DtlsSender.Sender.FlushFlight | BookUp/Pods/BoringSSL-GRPC/ssl/d1_both.cc:829-834 | marks the flight complete, starts the timer, and sends, with the MTU and the success of SendFlight |
| DtlsSender.Sender.Retransmit | BookUp/Pods/BoringSSL-GRPC/ssl/d1_both.cc:836-845 | sends the flight from its start, whatever the cursor was, with the MTU and the success of SendFlight |
| DtlsSender.Sender.CheckTimeoutNum | BookUp/Pods/BoringSSL-GRPC/ssl/d1_lib.cc:168-187 | counts timeouts, changes the MTU after the second, and gives up after the twelfth |
| DtlsSender.Sender.DoubleTimeout | BookUp/Pods/BoringSSL-GRPC/ssl/d1_lib.cc:155-160 | doubles the 32-bit duration up to the ceiling |
| DtlsSender.Sender.StartTimer | BookUp/Pods/BoringSSL-GRPC/ssl/d1_lib.cc:120-136 | the timer is set to now plus the duration, seconds and microseconds normalised; a stopped timer starts with the initial duration, a running one keeps its own |
| DtlsSender.Sender.StopTimer | BookUp/Pods/BoringSSL-GRPC/ssl/d1_lib.cc:162-166 | the timer, its count and its duration are reset |
| DtlsSender.Sender.GetTimeout | BookUp/Pods/BoringSSL-GRPC/ssl/d1_lib.cc:197-245 | whether a timer runs, and how much time is left on the clock of seconds and microseconds; less than 15 ms is nothing |
| DtlsSender.Sender.IsTimerExpired | BookUp/Pods/BoringSSL-GRPC/ssl/d1_lib.cc:138-153 | a timer has expired just if it runs and less than 15 ms are left |
| DtlsSender.Sender.HandleTimeout | BookUp/Pods/BoringSSL-GRPC/ssl/d1_lib.cc:247-267 | nothing happens without an expired timer; the thirteenth timeout fails; otherwise the duration doubles, the timer starts from now, and the whole flight is sent again, from the third timeout on under the MTU that the transport falls back to |
| DtlsSender.BackoffDoubles | BookUp/Pods/BoringSSL-GRPC/ssl/d1_lib.cc:155-160 | after k timeouts the duration is the initial one times 2^k, up to the ceiling; for an initial duration of 2^31 ms or more the first doubling wraps around |
| DtlsSender.Sender.SetWriteState | BookUp/Pods/BoringSSL-GRPC/ssl/dtls_method.cc:97-110 | messages queued just before a key change are still sealed with the old keys and overhead |
| DtlsSender.Sender.OnHandshakeComplete | BookUp/Pods/BoringSSL-GRPC/ssl/dtls_method.cc:71-79 | the timer stops, and a flight that was answered is dropped |
| DtlsNetwork.DeliveredInOrder | BookUp/Pods/BoringSSL-GRPC/ssl/d1_both.cc:297-438 | in every run over a network that loses, repeats and reorders, with any cuts and retransmissions, the messages returned are the queued ones in order, each with its type and whole body, none left out and none repeated |
| DtlsNetwork.InvStep | BookUp/Pods/BoringSSL-GRPC/ssl/d1_both.cc:297-438 | every step of sender, network and receiver keeps the invariant of that theorem |
| DtlsNetwork.OneFragment | BookUp/Pods/BoringSSL-GRPC/ssl/d1_both.cc:459-473 | a record of the sender is one fragment to the receiver |
| DtlsNetwork.TransportIsPlains | BookUp/Pods/BoringSSL-GRPC/ssl/d1_both.cc:782-827 | the records that the sender's methods hand over are those the network model takes |
| DtlsNetwork.HonestRefusal | BookUp/Pods/BoringSSL-GRPC/ssl/d1_both.cc:364-389 | which honest fragments a receiver refuses: too long ones, other numbers in the encrypted epoch, and the number seven above the next; the last is refused although larger ones are ignored |
| DtlsNetwork.AllBytesArrive | BookUp/Pods/BoringSSL-GRPC/ssl/d1_both.cc:362-401 | in whatever order and however often fragments arrive, every byte that one of them brings is there |
| DtlsNetwork.MessageCompletes | BookUp/Pods/BoringSSL-GRPC/ssl/d1_both.cc:644-845 | when all pieces that a transmission makes of a message in the window arrive, among any other fragments, the message becomes complete with its body |
| DtlsNetwork.FlightCompletes | BookUp/Pods/BoringSSL-GRPC/ssl/d1_both.cc:644-845 | when all records of one transmission of a flight arrive within one read epoch, among any others, every message of it in the window becomes complete with its body |
| DtlsNetwork.FlightIsDelivered | BookUp/Pods/BoringSSL-GRPC/ssl/d1_both.cc:408-438 | and the messages from the next number on can then be taken, in order |
| DtlsEpochs.BeforeTheChange | BookUp/Pods/BoringSSL-GRPC/ssl/dtls_method.cc:81-95 | records are dropped unless they are of the read epoch; when those of the messages before the ChangeCipherSpec arrive, the messages are returned in order, none is refused, and the ring is empty, so the keys may change |
| DtlsEpochs.AcrossTheChange | BookUp/Pods/BoringSSL-GRPC/ssl/dtls_record.cc:225-235 | when then the records of the encrypted Finished arrive in the new epoch, from this or another transmission, it is returned as well, whatever else arrives and when |
| DtlsEpochs.ReceiveNothingFrom | BookUp/Pods/BoringSSL-GRPC/ssl/d1_both.cc:379-398 | fragments of earlier messages put nothing of later ones into the ring |
| DtlsReplay.ToU64 | BookUp/Pods/BoringSSL-GRPC/ssl/dtls_record.cc:128-136 | the shifts and ors give the big-endian number |
| DtlsReplay.RecordLayout | BookUp/Pods/BoringSSL-GRPC/ssl/dtls_record.cc:190-226 | where type, version, epoch, number, length and body lie in a record, byte by byte, and that it is malformed just if it is cut off or longer than 16704 bytes |
| DtlsReplay.Reader.ShouldDiscard | BookUp/Pods/BoringSSL-GRPC/ssl/dtls_record.cc:140-151 | a number is discarded just if it has been recorded or is 64 or more below the maximum |
| DtlsReplay.Reader.Record | BookUp/Pods/BoringSSL-GRPC/ssl/dtls_record.cc:155-175 | the window then stands for the set with the number added |
| DtlsReplay.Reader.OpenRecord | BookUp/Pods/BoringSSL-GRPC/ssl/dtls_record.cc:177-259 | a record is accepted, and recorded, just if it is well-formed, of the current epoch, not a replay, authentic and not too long; in every other case the set stays |
| DtlsReplay.Reader.SetReadState | BookUp/Pods/BoringSSL-GRPC/ssl/dtls_method.cc:81-95 | a new epoch starts with nothing recorded; unprocessed data forbids it |
| DtlsReplay.SlideShows | BookUp/Pods/BoringSSL-GRPC/ssl/dtls_record.cc:160-170 | shifting the word slides the window over the set |
| DtlsReplay.AcceptedOnce | BookUp/Pods/BoringSSL-GRPC/ssl/dtls_record.cc:140-259 | over any sequence offered within an epoch no number is accepted twice |
| DtlsReplay.OnlyStaleAreLost | BookUp/Pods/BoringSSL-GRPC/ssl/dtls_record.cc:140-259 | every number offered is accepted in the end, unless it came 64 or more behind |
| TlsBuffer.SSLBuffer.EnsureCap | BookUp/Pods/BoringSSL-GRPC/ssl/ssl_buffer.cc:47-81 | succeeds just if at most 65535 bytes are asked for and they are there or can be allocated; the contents stay, at the old offset or at a new one below eight |
| TlsBuffer.SSLBuffer.Append | BookUp/Pods/BoringSSL-GRPC/ssl/ssl_buffer.cc:83-88 | the bytes join the contents |
| TlsBuffer.SSLBuffer.Consume | BookUp/Pods/BoringSSL-GRPC/ssl/ssl_buffer.cc:90-97 | the first bytes go and the rest stays, unless the offset wraps around |
| TlsBuffer.ConsumeKeepsRest | BookUp/Pods/BoringSSL-GRPC/ssl/ssl_buffer.cc:90-97 | after a short write the rest is the right one, whatever the bytes, just if nothing is left or the offset does not wrap |
| TlsBuffer.FlushKeepsRest | BookUp/Pods/BoringSSL-GRPC/ssl/ssl_buffer.cc:239-252 | before a flush: every short write of it leaves the right bytes, whatever they are, just if offset and size together are at most 65536 |
| TlsBuffer.RoomKeepsRest | BookUp/Pods/BoringSSL-GRPC/ssl/s3_pkt.cc:237-251 | before a record is sealed: that is so for every alignment, every sealed length and every short write, just if the room asked for is at most 65529 bytes |
| TlsBuffer.ShortWriteBreaksOrder | BookUp/Pods/BoringSSL-GRPC/ssl/ssl_buffer.cc:90-97 | an instance of the failure: 65535 bytes at offset 7 of which a write takes 65529; what would be written next is not what was sealed |
| TlsWriter.ChunksCarryMessage | BookUp/Pods/BoringSSL-GRPC/ssl/s3_both.cc:184-205 | the records of a message carry it, each byte once and in order, all as long as the limit but the last; an empty message has one |
| TlsWriter.Writer.AddRecordToFlight | BookUp/Pods/BoringSSL-GRPC/ssl/s3_both.cc:135-165 | a sealed record joins the flight, and the order of all sealed bytes is kept |
| TlsWriter.Writer.AddMessage | BookUp/Pods/BoringSSL-GRPC/ssl/s3_both.cc:184-205 | the records of the message are sealed in order, at least one |
| TlsWriter.Writer.AddChangeCipherSpec | BookUp/Pods/BoringSSL-GRPC/ssl/s3_both.cc:207-218 | one such record is sealed |
| TlsWriter.Writer.FlushFlight | BookUp/Pods/BoringSSL-GRPC/ssl/s3_both.cc:231-279 | the write buffer goes first; success means that everything sealed has been taken and flushed, provided there was a flight, and comes whenever nothing outside fails and no alert has closed the connection |
| TlsWriter.Writer.WriteBufferFlush | BookUp/Pods/BoringSSL-GRPC/ssl/ssl_buffer.cc:239-252 | short writes and failures keep the order; success empties the buffer |
| TlsWriter.Writer.WritePending | BookUp/Pods/BoringSSL-GRPC/ssl/s3_pkt.cc:202-219 | a retry with another type, with fewer bytes, or, unless the buffer may move, from another address than the pending call had, is refused with nothing changed; a proper one succeeds unless the transport fails, and reports the pending length |
| TlsWriter.Writer.DoWrite | BookUp/Pods/BoringSSL-GRPC/ssl/s3_pkt.cc:221-289 | a record is sealed once however often the call is repeated, behind the flight; a bad retry changes nothing; a call that is none succeeds when nothing outside fails and there is room; the order is kept if the flight's rest, the data and the overhead together are at most 65529 bytes, or more than 65535 and refused; all cases of what is pending afterwards |
| TlsWriter.Writer.WriteAppData | BookUp/Pods/BoringSSL-GRPC/ssl/s3_pkt.cc:129-200 | over calls that repeat a write with the same bytes or more, a result k means that exactly the first k bytes have been sealed, once and in order, in records as long as may be; every call that is a bad retry of the pending chunk, or shorter than what was written, is refused with nothing changed, and every other one succeeds when nothing outside fails; after a closing alert it refuses and sends nothing |
| TlsWriter.Writer.WriteChunk | BookUp/Pods/BoringSSL-GRPC/ssl/s3_pkt.cc:158-199 | one record of the loop advances that progress by what it returns |
| TlsWriter.Writer.ProgressFits | BookUp/Pods/BoringSSL-GRPC/ssl/s3_pkt.cc:129-200 | the progress of a write is progress of any longer write, and a finished write leaves the next at its start |
| TlsWriter.Writer.DispatchAlert | BookUp/Pods/BoringSSL-GRPC/ssl/s3_pkt.cc:405-423 | the alert is sealed once and does not overtake other data; a fatal one is flushed |
| TlsWriter.Writer.SendAlert | BookUp/Pods/BoringSSL-GRPC/ssl/s3_pkt.cc:377-403 | the first closing alert is recorded, and sent if nothing is being written, otherwise left for later with nothing sent; a second one is refused and nothing is sent |
| Refcount.LockCount.Increment | BookUp/Pods/BoringSSL-GRPC/crypto/refcount_lock.c:29-35 | one more, except that 0xFFFFFFFF stays |
| Refcount.LockCount.DecrementAndTestZero | BookUp/Pods/BoringSSL-GRPC/crypto/refcount_lock.c:37-51 | one less and whether that is zero, except that 0xFFFFFFFF stays; abort at zero |
| Refcount.Linearizes | BookUp/Pods/BoringSSL-GRPC/crypto/refcount_c11.c:37-65 | every interleaving of the loops, with any spurious failures, is a sequence of operations under the lock with the same results, each between its call and its return |
| Refcount.InvNext | BookUp/Pods/BoringSSL-GRPC/crypto/refcount_c11.c:37-65 | each step of a thread keeps the invariant of that theorem |
| Refcount.CountIsConserved | BookUp/Pods/BoringSSL-GRPC/crypto/refcount_lock.c:29-51 | an unsaturated count is the initial one plus increments minus decrements |
| Refcount.MaxAbsorbs | BookUp/Pods/BoringSSL-GRPC/crypto/refcount_c11.c:37-65 | a saturated count stays, in every interleaving |
| Refcount.ZeroIsOwnStep | BookUp/Pods/BoringSSL-GRPC/crypto/refcount_c11.c:49-65 | a decrement reports zero exactly when its own step takes the count from one to zero |
| Refcount.ReleasedOnce | BookUp/Pods/BoringSSL-GRPC/crypto/refcount_c11.c:37-65 | without new references at zero, zero is reported exactly once, and just if it is reached |
| ChooseCipher.Choose | BookUp/Pods/BoringSSL-GRPC/ssl/handshake_server.cc:357-424 | by the server's preference on its list with its groups, otherwise on the client's list: a suite is found just if a group that ends has a usable shared one; it is of the first such group, and in it the earliest on the other list |
| ChooseCipher.BestIsUnique | BookUp/Pods/BoringSSL-GRPC/ssl/handshake_server.cc:357-424 | only one suite meets that description |
| ChooseCipher.WellFormedLists | BookUp/Pods/BoringSSL-GRPC/ssl/internal.h:1866-1894 | in a list whose last group ends every group ends, and without groups each position is its own |
| ChooseCipher.GroupEnd | BookUp/Pods/BoringSSL-GRPC/ssl/internal.h:1866-1894 | a group goes on over marked positions, and ends at the first unmarked one |
| ChooseCipher.Find | BookUp/Pods/BoringSSL-GRPC/ssl/handshake_server.cc:394-401 | the first position of a suite |
| TlsHandshake.Add | BookUp/Pods/BoringSSL-GRPC/ssl/s3_both.cc:184-205 | a message that is sent is sealed into the flight and then hashed, which keeps transcript, history and records in agreement |
| TlsHandshake.HashAndNext | BookUp/Pods/BoringSSL-GRPC/ssl/handshake.cc:215-222 | ssl_hash_message and next_message, one after the other: the transcript gets the message and the buffer loses it, which keeps transcript, history and records in agreement |
| TlsHandshake.NotByHalves | BookUp/Pods/BoringSSL-GRPC/ssl/handshake.cc:215-222 | sealing, hashing or consuming alone breaks that agreement, so no state may do one without the other |
| TlsHandshake.ReadFinished | BookUp/Pods/BoringSSL-GRPC/ssl/handshake.cc:380-429 | a Finished is consumed just if it was computed over the transcript before it |
| TlsHandshake.SendFinished | BookUp/Pods/BoringSSL-GRPC/ssl/handshake.cc:431-476 | the Finished that is sent covers the transcript before it |
| TlsRuns.MachineOk | BookUp/Pods/BoringSSL-GRPC/ssl/handshake.cc:612-623 | every state of either machine keeps the invariant and is left for one of lower rank, or waits unchanged |
| TlsRuns.TranscriptIsExact | BookUp/Pods/BoringSSL-GRPC/ssl/handshake.cc:215-222 | in every run against any peer, however often callbacks ask to be called again: the messages sent are those of the records written and of the flight, the messages consumed, with those unread, are those of the records opened, which are the first that arrived; the transcript interleaves both, each message once and in order; and each Finished covers the transcript as it stood |
| TlsRuns.RecordsPass | BookUp/Pods/BoringSSL-GRPC/ssl/handshake.cc:494-609 | records are opened in the order in which they arrive, and what was written is what the transport took |
| TlsRuns.HistoryInterleaves | BookUp/Pods/BoringSSL-GRPC/ssl/handshake.cc:215-222 | the messages of a history are those sent and those consumed, each once and in their order |
| TlsRuns.DoneMeans | BookUp/Pods/BoringSSL-GRPC/ssl/handshake_client.cc:1457-1705 | a handshake that is done has sent its Finished and verified its peer's, once each; changed each direction's keys once, after that direction's ChangeCipherSpec and before its Finished; with the server's Finished first just if the session is resumed |
| TlsTrail.MovesAreRight | BookUp/Pods/BoringSSL-GRPC/ssl/handshake_client.cc:385-1705 | in every run against any peer that has not failed, each move of the machine left its state for the next of the table, with nothing failed that had to be checked there, or waited with nothing changed |
| TlsTrail.TrailIsExact | BookUp/Pods/BoringSSL-GRPC/ssl/handshake_client.cc:1707-1789 | the states left are the first ones of the path, in order, each once |
| TlsTrail.FullClientPath | BookUp/Pods/BoringSSL-GRPC/ssl/handshake_client.cc:1707-1789 | the path of a client in a new session, state by state |
| TlsTrail.ResumedClientPath | BookUp/Pods/BoringSSL-GRPC/ssl/handshake_client.cc:1457-1705 | and in a resumed one |
| TlsTrail.FullServerPath | BookUp/Pods/BoringSSL-GRPC/ssl/handshake_server.cc:1539-1621 | the path of a server in a new session |
| TlsTrail.ResumedServerPath | BookUp/Pods/BoringSSL-GRPC/ssl/handshake_server.cc:1463-1537 | and in a resumed one |
| TlsTrail.FailEnds | BookUp/Pods/BoringSSL-GRPC/ssl/handshake_server.cc:1042-1056 | a check that fails ends the handshake: if the run has not failed, no move with a failure was made in a state that has something to check under its parameters |
| TlsTrail.RetryWaits | BookUp/Pods/BoringSSL-GRPC/ssl/handshake_server.cc:512-560 | a callback that asks for another call never advances a state in which the handshake waits for it |
| TlsTrail.DoneHasVerified | BookUp/Pods/BoringSSL-GRPC/ssl/handshake_client.cc:871-889 | a client that is done in a new session with certificates has verified the server's; a server that is done with a client's certificate has verified it and the signature of CertificateVerify |
| TlsTrail.TakenInOrder | BookUp/Pods/BoringSSL-GRPC/ssl/handshake_server.cc:949-1461 | the kinds of the messages consumed are those that the states on the path take, in this order |
| TlsConnection.Connection.DoHandshake | BookUp/Pods/BoringSSL-GRPC/ssl/handshake_client.cc:1707-1789 | the loop over the states ends, with the handshake done or waiting |
| TlsConnection.Connection.Resolve | BookUp/Pods/BoringSSL-GRPC/ssl/handshake.cc:494-609 | each kind of wait is resolved, or the call returns with the reason for it; records are read and written in order |
| TlsConnection.Connection.RunHandshake | BookUp/Pods/BoringSSL-GRPC/ssl/handshake.cc:491-628 | the loop ends; 1 means that both Finished messages and both key changes are behind it, the states have been left in order with every check made, and certificates that had to be verified have been; any other result means an error, an unfinished flush, a record that has not arrived, or a callback to be called again |
| TlsScript.StepGoes | BookUp/Pods/BoringSSL-GRPC/ssl/handshake_server.cc:1539-1621 | every state of either machine that does not fail follows the one run that both sides expect: it sends the entries that come next, none or some, or takes the one that comes next, or waits for it; with parameters that fit none fails |
| TlsScript.KeysMustFit | BookUp/Pods/BoringSSL-GRPC/ssl/handshake_client.cc:891-1071 | the client gets past ServerKeyExchange only if one is sent just where it is wanted and understood |
| TlsScript.CertificateMustFit | BookUp/Pods/BoringSSL-GRPC/ssl/handshake_server.cc:949-1040 | the server gets past the client's Certificate only if the client has one or it may be empty |
| TlsAgreement.SystemKeeps | BookUp/Pods/BoringSSL-GRPC/ssl/handshake.cc:491-628 | every move of either endpoint that does not fail keeps one of them behind the other by exactly the records on their way |
| TlsAgreement.NoDeadlock | BookUp/Pods/BoringSSL-GRPC/ssl/handshake.cc:491-628 | over in-order channels with agreed parameters neither side fails, and until both are done one of them can move |
| TlsAgreement.AgreedIsExact | BookUp/Pods/BoringSSL-GRPC/ssl/handshake.cc:491-628 | the parameters have to fit: some run of two honest endpoints ends in an error just if the session is new and either a ServerKeyExchange is missing, unexpected or not understood, or the server insists on a certificate that the client does not have |
| TlsAgreement.SameTranscript | BookUp/Pods/BoringSSL-GRPC/ssl/handshake.cc:380-476 | when both are done their transcripts are equal, and every Finished was computed and checked over the same part of it |
| TlsAgreement.CannotMoveIsExact | BookUp/Pods/BoringSSL-GRPC/ssl/handshake.cc:491-628 | an endpoint cannot move just if it is done or waits for a record that has not arrived |
| TlsAgreement.RunsEnd | BookUp/Pods/BoringSSL-GRPC/ssl/handshake.cc:491-628 | a run in which each move gets somewhere is no longer than what there is to do at first, so every such run comes to an end, which by MoreToGet is the end of the handshake on both sides |
| TlsAgreement.MoreToGet | BookUp/Pods/BoringSSL-GRPC/ssl/handshake.cc:491-628 | until both sides are done, one of them has a move that gets somewhere |
| TlsAgreement.MoveCounts | BookUp/Pods/BoringSSL-GRPC/ssl/handshake.cc:491-628 | each move that gets somewhere lowers a measure of the states, records and messages still to come for both sides |

## Left out

- nanopb: callback fields, extensions, pointer fields (PB_ENABLE_MALLOC), fixed-count arrays, the old callback style and the PB_WITHOUT_64BIT build depend on user code or on other configurations; error message strings carry no logic.
- nanopb: a message is a value with one cell per struct member instead of raw memory; member offsets are integers in `PbIter`. Decoding hands the new value back instead of updating the struct in place, so what a destination holds after a failed decoding is not modelled.
- nanopb: size_t does not overflow, as no object is as long as 2^63 bytes.
- nanopb: pb_decode_nullterminated, pb_encode_delimited and user streams would only add easy members.
- DtlsNetwork.DeliveredInOrder: covers fewer than 65536 queued messages, because the 16-bit handshake numbers wrap and 65536 is not a multiple of seven.
- DtlsReceiver.Receiver.OpenHandshake: starts from the opened record; opening it is in `DtlsReplay`, and failing allocations are not modelled.
- DtlsSender.Sender.SealNextMessage: sealing is opaque, a nondeterministic failure or a record at most the overhead longer than its plaintext; what the receiver opens is taken to be what was sealed.
- DtlsSender.Sender.StartTimer: the seconds of the clock do not overflow 64 bits.
- DtlsSender.Sender.SendFlight: the packet buffer is not modelled, and so neither that its allocation may fail.
- TlsWriter.Writer.WriteAppData: early data is left out, and the transport and tls_seal_record are nondeterministic (an error, or some bytes).
- TlsWriter.Writer.DoWrite: sizes do not overflow size_t, and key_update_pending, callbacks and rwstate are left out.
- TlsRuns.TranscriptIsExact: after an error, what the state holds is not modelled; nothing is done with it any more.
- TlsAgreement.NoDeadlock: takes the negotiated flags as agreed, and a record as one message; extensions, versions, key derivation and certificates are opaque. RunsEnd needs callbacks that stop asking for another call and writes that take something.
- TLS 1.3, early data, SSL 3.0, renegotiation, V2ClientHello, handoff and HelloVerifyRequest states: they are in files that are not part of this model, or only add cases.
- The do_* functions update one record value instead of the fields of SSL_HANDSHAKE in place; aliasing of these fields is not captured.
- Refcount.Linearizes: memory ordering is sequentially consistent, as the atomics' default; the lock version's abort happens under the lock, while here other threads may still run between the read of zero and the abort.
- ChooseCipher.Choose: the client's list comes parsed, or not at all; the masks of usable suites are inputs.
- Cryptography, certificates, the Swift application and the other Pods: no part of these components' logic.
