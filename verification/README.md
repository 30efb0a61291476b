# A verified model of the sofab codec

sofab is a streaming tag-length-value codec.  Its two engines are stateful: a
push decoder that takes a message in chunks of any size and keeps between two
feeds only the construct that could not complete, and an encoder that writes
into a fixed array, drains it through a sink, and holds sequence headers back
until their sequence has content.  Beside them stand the destination tables a
receiver declares, which may refer to each other in cycles, and the windowed
and blocked helpers both engines use.

This project models those parts and proves what they promise.

## How it is put together

| file | what it models |
|---|---|
| `Wire.dfy` | varints, ZigZag, little-endian words |
| `Utf8.dfy`, `Floats.dfy` | the windowed text check, the blocked float moves with their NaN repair |
| `Message.dfy` | events, canonical bytes, trees, pruning |
| `Framing.dfy` | lazy sequence framing as a machine over operations |
| `Encoder.dfy` | the `Encoder` class over arrays and sinks |
| `Schema.dfy` | compiled tables, the handler's answers, the caps |
| `Machine.dfy`, `Resets.dfy` | the decoder as a pure machine: one step over the bytes at hand; what a reset leaves in a slot |
| `Chunks.dfy` | feeds; chunking is invisible |
| `Locality.dfy`, `Overlays.dfy`, `Exposure.dfy`, `Shadows.dfy` | exactly where slots depend on the cutting, and that nothing but slots ever does |
| `Decoder.dfy` | the `Decoder` class: cursor, reassembly buffer, stacks, resumption; it runs the machine |
| `Session.dfy` | whole sessions with the two classes, and one class against the other |
| `RoundTrip.dfy`, `Bound.dfy`, `Handing.dfy`, `Skips.dfy`, `Skipped.dfy`, `Caps.dfy`, `Scopes.dfy`, `Union.dfy` | laws over whole runs: what a row or a handler takes of the bytes, what is skipped and where it ends, when a cap or a bound speaks, who hears what, what a union holds |
| `Completing.dfy`, `Receivers.dfy` | when a decode can still be completed; every receiver against a listener |
| `Vectors.dfy` | byte vectors of the format |
| `Binding.dfy`, `Declaring.dfy`, `Storage.dfy` | table objects, freezing, flat resets; from a binder call to what its row takes; what becomes of a frozen tree; storage safety |

The main results rest on each other in three steps.  The classes are proved
to do what a machine does: a finished writer is one `Framing.Step`, and
`Decoder.Feed` is one `Chunks.Feed`.  The machines are proved to have the laws:
`Framing.LazyWritesPruned`, `Overlays.DecodesIff`, `Shadows.ControlInvisible`,
`Scopes.CallsStayInOrder`, `Caps.CapVerdict`, `Unions.RunAgrees`,
`Storage.RunBelow`.  And the two machines are proved to be inverse to each
other: `RoundTrip.RoundTrip` and `RoundTrip.TranscodingNormalises`.
`Sessions.Transmit` puts the classes and the laws together, and
`Storage.DecodeOver` goes from the binder methods to the slots.

What the machines compute is stated apart from them.  Texts are encodings of
scalar values, varints weigh seven bits a byte, widening keeps the number a
pattern stands for.  A row takes exactly what its declaration allows
(`Bound.MappedVerdict`, from the binder call in `Declaring.AddedTakes`), a
handler is handed exactly what its answers allow (`Handing.VisitVerdict`), and
an option starts from exactly what the rows below it declare
(`Bindings.FrozenAsDeclared`).  A skip ends where a listener's walk does
(`Skipped.SkipEndsWithWalk`), every receiver sees the same messages
(`Receivers.ReceiversAgree`), and INCOMPLETE means that more bytes can help
(`Completing.CompletableIff`).

`dafny verify dfyconfig.toml` checks the project.

## Modelling decisions

* Bit operations are written as arithmetic on unbounded integers; 64-bit words
  are a subset type, and every store into a slot is taken modulo 2^64.
* A message's meaning is its list of events.  Floats are carried as the payload
  bytes of the wire, which are their raw bits.
* The handler is deterministic: each answer is a function of the visitor asked
  and of all it has been told and asked so far, announced lengths and counts
  included.  This is what "asking again gives the same answer" comes to, and
  chunk invariance needs it, because a suspended value asks for its destination
  again.  The control hooks (`on_field`, `on_schema_bound`,
  `on_sequence_begin`) are recorded like the typed ones, so that every law about
  the calls is one about the questions too; a hook the handler does not override
  counts as asked and answers its default.
* A destination a handler hands back is an item size and a number of bytes,
  checked as the code checks them: whether it can be written, whether its items
  are of a supported width that holds the declared element width, whether there
  are enough of them.  What is then written into it is the event's value; its
  own contents are not tracked.  A buffer the caller put into an `objects` slot
  is modelled with its contents.
* `Refused` stands for what stops a decode in the middle because of storage the
  caller supplied: the argument errors raised for a destination that is
  read-only, of the wrong item size or too short, and the plain `ValueError` of
  a memory view when a count slot would pass 2^64 - 1, which is none of the
  library's own errors.  None of them is latched by the code, and feeding on
  after one is not modelled.
* Chunking is promised to be invisible, and the binder takes array options laid
  over their own which slot.  For those the promise fails: an attempt that waits
  behind an element stored in the which slot leaves that element where the
  option's id was, and the next attempt takes the option for a new one.
  `Overlays.EmptyFeedShows` is the smallest such decode (`which_at=0`, an
  unsigned array of two at slot 0 with its count in slot 2, words 1, 9, 5, fed
  `0B 02 07` and then nothing at all: the empty feed resets the count).
  `Overlays.DecodesIff` gives the exact condition for decodes from the start: a
  message comes to a field of such an option while it is the option held, with
  more elements announced than reach the which slot, and the reset would change
  something beside the slots up to it.  `Exposure.ExposedIff` tells it from the
  tables: without such an option the cutting never shows; every one in the root
  table, and every one whose enclosing headers write beside its slots, does
  show.  What those headers write can shield it: `Exposure.OverlaidYetCalm` is a
  table tree where it does.  `Shadows.ControlInvisible` needs no condition: what
  the handler is told and asked, status, open scopes and bytes held never depend
  on the cutting, and where storage is refused in one cutting, what was told and
  asked before is the beginning of what it is in the other.
* `count_at` of an array: the documentation of the tables says a decode caught
  inside an array may already have written it.  The code writes it behind the
  payload, for every kind (src/sofab/decoder.py:1952-1954), and the model
  follows the code.
* One would have INCOMPLETE mean that some further bytes make the message whole.
  Two cases fail: the decoder looks at a word of a header once it is ended, and
  at a text once it is there, so bytes that begin only malformed ones (`87` at
  the start of a message, an end marker with no sequence open; or a string of
  two of which `FF` has arrived) leave it INCOMPLETE.  `Completing.CompletableIff`
  shows that these are the only cases: a listener's decode can be completed if
  and only if it has not ended, the word it waits in would not be malformed if a
  zero byte ended it, and the text it waits for can still become one.
* Refusal for room is decided on the bytes held plus the whole chunk, not on
  the construct's size (src/sofab/decoder.py:1334), and is stated so.

## Model

| member | source | states |
|---|---|---|
| Wire.ReadVarintBounds | src/sofab/decoder.py:626-666 | a decoded varint is below 2^64, takes at most ten bytes, and no encoding of a value is shorter than the canonical one; fewer than ten bytes are never called overlong |
| Wire.ReadVarintExtends | src/sofab/decoder.py:626-666 | a verdict on a varint is not changed by the bytes that follow |
| Wire.ReadInvertsVarint | src/sofab/_varint.py:30-44 | decoding inverts encoding for every 64-bit value, whatever follows; at most ten bytes |
| Wire.ReadsExactly | src/sofab/decoder.py:626-666 | the bytes up to the first below 128 read as the sum of their seven-bit groups, lowest first, if they are at most ten and the sum is below 2^64, and are overlong otherwise; without such a byte they are too few, or from ten on overlong |
| Wire.WritesExactly | src/sofab/_varint.py:30-44 | a written varint is one, carries the value, and ends in a zero byte for the value 0 alone |
| Wire.EncodeVarint | src/sofab/_varint.py:30-44 | the reference loop writes the canonical varint |
| Wire.ZigzagBijection | src/sofab/_varint.py:20-27 | ZigZag takes v to 2v or, below 0, to -2v - 1, and is a bijection between int64 and the 64-bit words |
| Wire.MaskIsIdle | src/sofab/encoder.py:412-440 | the unmasked form of the signed array loop is the masked one |
| Utf8.Utf8Valid | src/sofab/_core.py:238-274 | the windowed check accepts exactly the encodings of texts, of any length |
| Utf8.ValidIff | src/sofab/_core.py:238-274 | the octets accepted are exactly the concatenations of encodings of scalar values: code points up to 0x10FFFF without the surrogates, divided into groups of six bits, in as many octets as the value needs |
| Utf8.CheckWindow | src/sofab/_core.py:238-274 | one window either finds malformed text or makes progress, and what is carried to the next window decides the rest |
| Floats.HardwareIsExact | src/sofab/_core.py:33-83 | widening a non-NaN single and narrowing it again is the identity on bits |
| Floats.Fp32RoundTrip | src/sofab/_core.py:33-83 | widening and narrowing back yields the same 32 bits for every pattern, signaling NaNs included |
| Floats.HardwareLosesSignaling | src/sofab/_core.py:33-48 | the plain conversion differs from the bit-preserving one exactly on signaling NaNs |
| Floats.WidenKeepsNumber | src/sofab/_core.py:33-83 | a widened pattern stands for the same number, sign and exponent range included; infinities stay infinities and NaNs NaNs |
| Floats.UnpackFarrayInto | src/sofab/_core.py:189-228 | the blocked move fills exactly the destination range with the element-wise widening and touches nothing else |
| Floats.SlotsKeepWireBits | src/sofab/_core.py:189-228 | narrowing a slot it filled gives the element's wire bits back |
| Vectors.NestedWithArray | tests/test_vectors_ostream.py:89-114 | the shared vector of a nested sequence with a signed array, byte for byte |
| Vectors.FloatPayloads | tests/test_vectors_ostream.py:41-78 | the layout of a float and of an array of doubles, byte for byte |
| Vectors.TextAndBytes | tests/test_vectors_ostream.py:43-46 | the layout of a string and of a blob |
| Vectors.FourBytes | src/sofab/_core.py:33-83 | the bytes of a word count from the lowest up |
| Message.ForestNests | src/sofab/encoder.py:1326-1434 | the events of a tree nest properly and close every sequence they open |
| Framing.StepHoldsSuffix | src/sofab/encoder.py:1326-1434 | every operation keeps the held-back run equal to the contentless suffix of the open sequences |
| Framing.RunHoldsSuffix | src/sofab/encoder.py:805-840 | after any operations, accepted or refused, in any order, the run is that suffix and at most MAX_DEPTH long |
| Framing.LazyWritesPruned | src/sofab/encoder.py:1326-1434 | from any state, one pass over a tree's operations writes the pruned tree, or leaves the encoder as it was if nothing is left of it |
| Framing.OnePassIsCanonical | src/sofab/encoder.py:1326-1434 | a whole message comes out as the serialization of the pruned tree, with nothing held back |
| Framing.BalancedIsCanonical | src/sofab/encoder.py:1326-1434 | every balanced list of operations is the operations of a tree, and writes its pruned bytes |
| Encoding.PutInPlace | src/sofab/encoder.py:768-803 | the inlined codec writes the canonical varint behind what is there |
| Encoding.PutLong | src/sofab/encoder.py:353-371 | two groups a turn equal the reference codec for every value |
| Encoding.WroteIsStep | src/sofab/encoder.py:805-840 | a finished field write is one step of the framing machine |
| Encoding.Encoder.constructor | src/sofab/encoder.py:456-565 | all three construction shapes start with nothing put out, nothing held back, no sequence open |
| Encoding.Encoder.BufferSet | src/sofab/encoder.py:567-610 | on an encoder of any shape, an array is accepted exactly if the offset lies in it and a sink is left a byte; refused, nothing changes |
| Encoding.Encoder.Drain | src/sofab/encoder.py:669-729 | handing an array over, copied or replaced by another at any offset, never changes the bytes put out |
| Encoding.Encoder.Put | src/sofab/encoder.py:619-657 | a run split over any number of flushes comes out whole and in order; a lone array runs out exactly where the reserved prefix, the bytes out and the run exceed it, and then it is full and holds a prefix |
| Encoding.Encoder.HandOver | src/sofab/encoder.py:619-657 | the in-memory shortcut for long runs puts out the same bytes |
| Encoding.Encoder.EmitVarint | src/sofab/encoder.py:768-803 | the in-place form and the split form put out the same varint |
| Encoding.Encoder.CommitPending | src/sofab/encoder.py:825-840 | the held-back headers go out outermost first, once |
| Encoding.Encoder.WriteHeader | src/sofab/encoder.py:805-823 | an id out of range changes nothing; otherwise the held-back run and the header go out |
| Encoding.Encoder.WriteInt | src/sofab/encoder.py:236-292 | refused exactly outside the declared width or id range, before anything changes; otherwise the canonical field, out of array exactly where it does not fit |
| Encoding.Encoder.WriteFixlen | src/sofab/encoder.py:1068-1089 | refused exactly where the payload or the id is out of range, before anything changes; otherwise the canonical field |
| Encoding.Encoder.WriteFloats | src/sofab/encoder.py:1291-1314 | the same for float arrays, the element word present even when the array is empty |
| Encoding.Encoder.WriteInts | src/sofab/encoder.py:294-448 | count and id are settled before the header; the first element out of width is refused behind the header and the elements before it |
| Encoding.Encoder.WriteSequenceBegin | src/sofab/encoder.py:1326-1369 | one step of the framing machine, refused exactly at the depth limit or on a bad id |
| Encoding.Encoder.WriteSequenceEnd | src/sofab/encoder.py:1371-1397 | one step of the framing machine; without room the state is unchanged |
| Encoding.Encoder.WriteSequenceEndKeep | src/sofab/encoder.py:1399-1434 | one step of the framing machine, the frame kept |
| Encoding.Encoder.GetValue | src/sofab/encoder.py:748-766 | the result is every byte handed over and the tail, reserved prefixes included; where none was reserved, everything put out |
| Encoding.Encoder.Flush | src/sofab/encoder.py:741-746 | flushing leaves the bytes put out as they were, and with a sink hands all of them over |
| Sessions.PerformAll | src/sofab/encoder.py:567-729 | any calls, in range or not, with any declared width or bound, over any array size and any sink: the outcome is the framing machine's and mentions neither; what is refused changes nothing, but for an integer array with a bad element; without a sink, out of array exactly where what is written does not fit |
| Sessions.EncodeTree | src/sofab/encoder.py:1326-1434 | a tree written call by call comes out as its canonical bytes; without a sink exactly where the array holds them |
| Sessions.EncodeInto | src/sofab/encoder.py:567-600 | a lone array of just the message's size is enough and one byte less is not |
| Sessions.FeedChunks | src/sofab/decoder.py:1239-1390 | the class left as the machine is, fed the same chunks, and as one feed of all bytes would leave it wherever no array option lies over its own which slot; refused only where storage of the caller's is too small |
| Sessions.EncodeValue | src/sofab/encoder.py:748-766 | the in-memory encoder returns a tree's canonical bytes |
| Sessions.Transmit | src/sofab/decoder.py:1239-1306 | encoder class of any shape to decoder class: a tree, in pieces of any sizes, arrives COMPLETE as its pruned events; an array and a reassembly buffer that hold the message are always enough |
| Machine.StepSound | src/sofab/decoder.py:1486-1678 | every step keeps the invariant, the storage sizes and the calls made, and makes progress |
| Machine.ParseHeadBounds | src/sofab/decoder.py:849-1045 | an accepted header is in range, within the depth limit, and announces the value its tag says |
| Machine.ReadElemsBounds | src/sofab/decoder.py:705-845 | elements decoded one by one are within their width, and there are as many as counted |
| Chunks.StepLasts | src/sofab/decoder.py:610-624 | a step's verdict stands whatever bytes follow, on any tables; an attempt that ran out of bytes is absorbed by the next, in every state but the one DecodesIff names |
| Chunks.TakeMappedStands | src/sofab/decoder.py:1816-1954 | a verdict on a bound value stands whatever bytes follow, on any tables |
| Chunks.TakeMappedAbsorbed | src/sofab/decoder.py:1816-1954 | retaking a bound value, option and partly filled array included, equals taking it in one piece, in every state but the one DecodesIff names |
| Chunks.NotReady | src/sofab/decoder.py:1464-1484 | retrying a value before its bytes are there would change nothing |
| Chunks.RunLasts | src/sofab/decoder.py:1486-1678 | a run can be taken up where it waited |
| Chunks.FeedTwice | src/sofab/decoder.py:1239-1306 | two feeds in a row are one feed of both chunks |
| Chunks.ChunkingInvisible | src/sofab/decoder.py:1239-1390 | however the bytes are cut, events, order, slots, open scopes, bytes held and outcome are those of one feed, on tables without an overlaid option |
| Chunks.AnyTwoCuttings | src/sofab/decoder.py:1239-1390 | two cuttings of the same bytes give the same decode and status, on the same tables |
| Chunks.PrefixesAgree | src/sofab/decoder.py:1239-1306 | on any tables, a prefix delivers a prefix of the events, and an end reached on it is the end on every extension |
| Locality.StepLocal | src/sofab/decoder.py:610-624 | a step takes no notice of bytes beyond those it uses |
| Locality.VisitsLocal | src/sofab/decoder.py:1486-1678 | whatever a run comes through, it comes through with any bytes behind those used up to there |
| Resets.ObjectsRest | src/sofab/decoder.py:1791-1814 | a reset that has been replayed changes no object and no buffer when replayed again |
| Overlays.StirringFails | src/sofab/decoder.py:1836-1841 | in the state named by DecodesIff, some elements and then an empty feed leave other slots than the elements alone |
| Overlays.DecodesIff | src/sofab/decoder.py:1836-1841 | over every storage, message and cutting, decodes from the start agree, slots included, if and only if none comes to a field of an overlaid option that is held, with more elements announced than reach its which slot and a reset that would show |
| Overlays.EmptyFeedShows | src/sofab/decoder.py:1836-1841 | the smallest such table, from the start of a decode, with both outcomes |
| Exposure.ExposedFails | src/sofab/binding.py:853-917 | every overlaid row behind headers that write beside its slots has storage and a message, from the start of a decode, that an empty feed shows |
| Exposure.RootFails | src/sofab/binding.py:853-917 | every overlaid row of the root table does |
| Exposure.ExposedIff | src/sofab/binding.py:853-917 | told from the tables: no overlaid option, no dependence on the cutting; and where every overlaid option is exposed, only then |
| Exposure.OverlaidYetCalm | src/sofab/decoder.py:1585-1602 | a tree with an overlaid option that its enclosing header shields, where no decode depends on the cutting |
| Shadows.ControlInvisible | src/sofab/decoder.py:1239-1390 | on any tables, unless storage is refused: hooks and questions, their order, status, open scopes and bytes held do not depend on the cutting; where it is refused, the hooks and questions of one cutting begin those of the other |
| Decoding.ReadWindow | src/sofab/decoder.py:812-827 | the unchecked ten-byte window reads what the checked varint reads |
| Decoding.FastIsSound | src/sofab/decoder.py:768-772 | where the hoisted test is off, no one-byte element can be out of width |
| Decoding.Decoder.constructor | src/sofab/decoder.py:305-608 | a new decoder stands for a decode that has been fed nothing |
| Decoding.Decoder.Varint | src/sofab/decoder.py:626-666 | reads the varint at the cursor, or rewinds to the start of the call in flight |
| Decoding.Decoder.ReadVarints | src/sofab/decoder.py:705-845 | decides as decoding the elements one by one would, at the first that is overlong, out of width or truncated, and writes only the slots of the elements decoded |
| Decoding.Decoder.DrainDiscard | src/sofab/decoder.py:1121-1175 | drops what is at hand of a remainder and keeps only a count of the rest |
| Decoding.Decoder.SkipPending | src/sofab/decoder.py:1063-1119 | skips a pending value of any kind, one rejected by a cap included |
| Decoding.Decoder.FixlenWord | src/sofab/decoder.py:913-981 | the fixlen word, with the shortcut for caps at the ceiling changing nothing |
| Decoding.Decoder.CountWord | src/sofab/decoder.py:999-1013 | the count word of an integer array, likewise |
| Decoding.Decoder.ElementWords | src/sofab/decoder.py:1015-1045 | the count and element words of a fixlen array, likewise |
| Decoding.Decoder.NextWire | src/sofab/decoder.py:849-1045 | one header, the pending value skipped first, for every wire type and every way of running out |
| Decoding.Decoder.SettleBound | src/sofab/decoder.py:1733-1769 | a declared bound rejects what exceeds it and otherwise takes the cap off |
| Decoding.Decoder.ResetOption | src/sofab/decoder.py:1771-1814 | replays the three flat lists, up to a destination that refuses its default |
| Decoding.Decoder.SelectOption | src/sofab/decoder.py:1833-1841 | resets an option that takes over, leaves the held one alone, and records the id |
| Decoding.Decoder.MappedField | src/sofab/decoder.py:1816-1954 | a bound field: option, bound, value and arrival, or its bytes left for the next attempt; Bound.MappedVerdict says which values it takes |
| Decoding.Decoder.VisitValue | src/sofab/decoder.py:2051-2174 | a value of any kind handed to its hook, refused for a destination that does not suit it, or its bytes left for the next attempt |
| Decoding.Decoder.VisitVarints | src/sofab/decoder.py:2311-2389 | an integer array by either route, the cap answered once the route is known and a destination checked for item width and size; Handing.VisitVerdict says which elements it hands over |
| Decoding.Decoder.EndScope | src/sofab/decoder.py:1537-1560 | an end closes to whoever opened that scope and brings back the enclosing table and handler |
| Decoding.Decoder.EnterBound | src/sofab/decoder.py:1585-1602 | descends into the table a row names, the occurrence counted after the reset |
| Decoding.Decoder.EnterVisitor | src/sofab/decoder.py:1603-1638 | offers a sequence to the handler and descends as it answers |
| Decoding.Decoder.Handle | src/sofab/decoder.py:1537-1678 | decides what a header means: for a table, for the handler, who is told id, tag and announced length or count, or for nobody |
| Decoding.Decoder.SchemaBound | src/sofab/decoder.py:1680-1731 | the bound hook is asked for strings, blobs and arrays only, with the wire's tag and length, and recorded |
| Decoding.Decoder.SkipSequence | src/sofab/decoder.py:1177-1210 | skips a sequence as the machine does, keeping the ground made when the bytes run out; Skipped.SequenceSkips and Skipped.SkipEndsWithWalk say where it ends |
| Decoding.Decoder.TakeUp | src/sofab/decoder.py:1491-1515 | finishes the value or the skip the last feed left, or waits without touching it |
| Decoding.Decoder.DrivePush | src/sofab/decoder.py:1486-1678 | a drive over the bytes at hand is the machine's run over them |
| Decoding.Decoder.Reassemble | src/sofab/decoder.py:1308-1343 | presents the held bytes followed by the chunk; refused exactly where both together exceed the buffer |
| Decoding.Decoder.Slide | src/sofab/decoder.py:1330-1333 | moving the held bytes to the front keeps them |
| Decoding.Decoder.Retain | src/sofab/decoder.py:1345-1390 | keeps exactly the unconsumed tail, or nothing once the decode has ended |
| Decoding.Decoder.Feed | src/sofab/decoder.py:1239-1390 | unless refused for room, one feed of the machine with its status; refused exactly on held plus chunk, and then nothing changed |
| Decoding.Decoder.StackHeights | src/sofab/decoder.py:1537-1638 | between feeds the table stack is as high as the depth, child depths rise below it, no index reaches the ceiling |
| RoundTrip.ListenerListens | src/sofab/visitor.py:36-110 | there are handlers that take every field and walk every sequence, so that the round trips speak of something |
| RoundTrip.EncodedIsHeard | src/sofab/decoder.py:2051-2174 | every well-nested list of in-range events, encoded, decodes COMPLETE to itself |
| RoundTrip.RoundTrip | src/sofab/encoder.py:1326-1434 | what lazy framing writes of a tree, cut into any feeds, decodes COMPLETE to the events of the pruned tree |
| RoundTrip.EventsHeard | src/sofab/decoder.py:849-1045 | the events of any COMPLETE message are in range, nest, and are written in no more bytes |
| RoundTrip.KeptFrames | src/sofab/encoder.py:1399-1434 | with every frame kept, output and held-back run together are the plain encoding |
| RoundTrip.TranscodingNormalises | src/sofab/decoder.py:849-1045 | re-encoding any COMPLETE message gives the same events, never more bytes, and a fixed point |
| Bound.FieldLands | src/sofab/decoder.py:1842-1954 | a bound value of any kind, as the encoder writes it, is taken whole and ends in the row's storage: integers, normalized booleans, widened singles that narrow back to the wire bits, built or copied payloads; its arrival is recorded |
| Bound.MappedVerdict | src/sofab/decoder.py:1816-2049 | whatever bytes follow, a bound field is taken exactly if a listener would be handed an event from them that suits the row: of its kind, integer or elements within the declared width, no longer than declared, a text that is one; then its value is in the row's storage. What does not suit, or is malformed for a listener, ends the decode INVALID; without a buffer where one is needed, or over a cap nothing spares it from, it is never taken |
| Bound.OutsideIsInvalid | src/sofab/decoder.py:705-845 | an element outside the row's width ends the decode INVALID whatever follows it |
| Bound.CarriesIsTag | src/sofab/binding.py:131-145 | the wire type and subtype of a row's kind are those of the fields it takes |
| Bound.BoundFieldRuns | src/sofab/decoder.py:1486-1678 | header and value of a bound field, from one field boundary to the next, with no call made and no scope changed |
| Handing.VisitVerdict | src/sofab/decoder.py:2051-2421 | whatever bytes follow, a value the handler wants is handed over exactly if a listener would be handed it and its elements are within the width the handler declared, and otherwise ends the decode INVALID or waits; before that an offered buffer that does not do ends it, and a cap does unless a buffer was offered |
| Handing.OutsideEnds | src/sofab/decoder.py:2311-2389 | an element outside the width the handler declared ends the decode INVALID whatever follows it |
| Handing.DoesIff | src/sofab/decoder.py:161-190 | a buffer does exactly if it can be written, has the items the kind needs, none of them too narrow for the declared width, and enough of them |
| Skips.DropAgreesWithRead | src/sofab/decoder.py:1146-1175 | dropping varints ends where reading them unbounded would, for the same reason |
| Skips.SkipAgreesWithRead | src/sofab/decoder.py:1063-1119 | skipping a value waits, fails and ends where delivering it would, save that text is not validated and no destination is asked for |
| Skips.ChunkedSkipAgrees | src/sofab/decoder.py:1121-1175 | the same for a skip spread over any chunks |
| Skips.HeldIsOneConstruct | src/sofab/decoder.py:1345-1390 | what is held is less than one construct, and of a skipped payload not one byte |
| Skipped.SequenceSkips | src/sofab/decoder.py:1177-1210 | a skip passes over contents of any depth and their end marker, to the walk over what follows, with slots, scopes and calls unchanged |
| Skipped.DeclinedRuns | src/sofab/decoder.py:1573-1638 | a sequence nobody enters, markers and all, is gone from the run, but for the question |
| Skipped.SkipEndsWithWalk | src/sofab/decoder.py:1177-1210 | over any bytes a skip ends, runs short or fails where a listener's walk through the same sequence comes back to that depth, runs short or fails; a text that is none is the one difference |
| Skipped.EndRuns | src/sofab/decoder.py:1177-1210 | where a skip ends, the walk goes on as if the bytes had not been there |
| Skipped.SkipOverFeeds | src/sofab/decoder.py:1121-1210 | the same over any cutting into feeds, on any tables, with nothing held behind it |
| Skipped.SequenceRouted | src/sofab/decoder.py:1573-1638 | a sequence goes to the table of the row that is one, else to the handler unless the table is closed, who walks on, names a child or declines |
| Skipped.SequenceRestores | src/sofab/decoder.py:1516-1549 | over any bytes and whoever takes the sequence, behind its end marker scopes, table and handler are those from before it |
| Scopes.CallsStayInOrder | src/sofab/decoder.py:1537-1732 | over any feeds, replayed against the handler's answers: fields and questions go to who is handling, ends to who was handling the scope they close; a value is handed over right behind its questions, each asked once and answered in its favour, in the buffer offered for it if there was one, which then holds it; every element of an integer array is within the width declared for it, every string is text; at COMPLETE no scope is open and no value due |
| Scopes.EveryDecodeInOrder | src/sofab/decoder.py:1537-1732 | the same from the start of a message, whatever ends it |
| Scopes.CloseInOrder | src/sofab/decoder.py:1537-1560 | a child handler is popped exactly at its own scope's end |
| Scopes.ClosedIsSilent | src/sofab/decoder.py:1573-1583 | no step taken inside a closed table calls a hook or asks a question |
| Scopes.ClosedAsksNothing | src/sofab/decoder.py:1573-1583 | no step taken inside a closed table depends on the handler: any other makes it the same step |
| Scopes.ClosedKeepsHandlerOut | src/sofab/decoder.py:1537-1678 | both laws at every step of every feed of every decode |
| Caps.CapVerdict | src/sofab/decoder.py:951-981 | a field ends the decode with a Limit exactly if it is wanted, over its cap, unbounded by the schema and would have to be built |
| Caps.Routed | src/sofab/decoder.py:1558-1678 | a field goes to the row of its id and tag; one whose id a row names with another tag is left to be skipped unheard, and so is any other in a closed table or without a handler; else the handler decides |
| Caps.BoundVerdict | src/sofab/decoder.py:1733-1769 | a wanted, selectable field over the bound its schema declares ends the decode INVALID at its header, whatever its payload, cap or no cap; before the first payload byte of a field in range nothing else does |
| Caps.LimitedIff | src/sofab/decoder.py:2323-2348 | the verdict depends on no payload byte |
| Caps.CapsOnlyCut | src/sofab/decoder.py:422-424 | until a cap speaks the decode is the uncapped one, and then a prefix of it |
| Caps.CappedDecode | src/sofab/decoder.py:1239-1306 | a status other than Limit is the status without caps |
| Completing.CompletableIff | src/sofab/decoder.py:1239-1306 | a listener's decode of any bytes can be completed by further ones if and only if it has not ended and is not waiting in a word, or a text, that no bytes make good |
| Receivers.ReceiversAgree | src/sofab/decoder.py:1486-1678 | over any bytes, the status of any receiver, whatever its tables, handler and caps, is a listener's, unless a verdict of its own ended the decode; a text that is none in a field it skips is the one difference |
| Unions.ReadySent | src/sofab/decoder.py:1842-1954 | taking a value puts in each slot of `words` what was sent for it and leaves the others alone |
| Unions.ReadyStored | src/sofab/decoder.py:1881-1905 | taking a string or a blob puts the built value, or the payload over what the buffer held, in its slot of `objects` and leaves the others alone |
| Unions.RunAgrees | src/sofab/decoder.py:1771-1849 | over a run, on any tables: every which slot holds its last correctly typed option or what an enclosing option that took over since was reset to, or what a value or count laid over it left; any other slot, words or objects, shared or not, what was sent last over its last reset |
| Unions.UnionOverFeeds | src/sofab/decoder.py:1583-1600 | the same over any feeds, suspended values included, and as of one feed on tables without an overlaid option |
| Unions.LastOptionHeld | src/sofab/decoder.py:1836-1841 | a which slot that no reset, value or count goes to holds the last of its options to arrive |
| Nesting.ResetIsDeclared | src/sofab/binding.py:1063-1110 | the row a decoder has for an option carries exactly the slots and values that the rows below it declare |
| Nesting.SlotStarts | src/sofab/binding.py:1063-1110 | an option that takes over starts every slot below it on whose value the rows agree at the value declared there: a scalar at its default or 0, elements at those declared, a string or a blob at its default or empty, a buffer of the caller's with the declared payload at its front and the rest as it was, a count at what arrives so |
| Nesting.BelowWins | src/sofab/binding.py:1079-1108 | where an option's own row and rows below it name the same slot, it starts at what one of those below declares |
| Nesting.OuterSwitch | src/sofab/binding.py:1085-1100 | when an outer union switches, a union nested in the new option holds its own default option |
| Nesting.InnerSlots | src/sofab/binding.py:1085-1110 | and the slots of that default option, and of every row of a nested table that is no union, start at what those rows declare, the caller's buffers included |
| Bindings.Binding.Add | src/sofab/binding.py:853-917 | a row is accepted exactly if the table is not frozen, the id is free, every number is in range and the default is allowed; then it is behind the others, indexed, and covered by the stated sizes |
| Declaring.AddedTakes | src/sofab/binding.py:501-917 | the row of one binder call takes exactly the fields of its kind that the call allows: integers within the sides of the width it states, booleans of any value, strings and blobs up to a length if it states one, arrays up to its count; and puts them where it says |
| Declaring.NeedsAreLeast | src/sofab/binding.py:878-897 | the sizes a row asks for are the least that hold every slot it names, but for an array of capacity 0 |
| Bindings.Binding.Sequence | src/sofab/binding.py:831-851 | a frozen table takes no child, and a frozen child is bound by no table still being built |
| Bindings.Reachable | src/sofab/binding.py:474-487 | the walk ends on cyclic tables and finds exactly the reachable ones, each once |
| Bindings.OptionReset | src/sofab/binding.py:1063-1110 | the flattening ends on cyclic tables, visits exactly the tables below the option, each once and in the order of the walk, and lists exactly what the rows below the option declare |
| Bindings.FlatIsRecursive | src/sofab/binding.py:1063-1110 | the flat lists hold exactly the items of the recursive meaning |
| Bindings.FrozenAsDeclared | src/sofab/binding.py:198-252 | behind freezing, every option's row carries for each row that starts over with it the declared bits or 0, the declared elements, the declared bytes or the empty value, and the arrival, each at its slot; of a nested union the which slot and the default option alone; and nothing else |
| Bindings.Freeze | src/sofab/binding.py:445-472 | exactly the reachable tables are frozen, every row of a union with its which slot and its reset, item by item in replay order; no other table changes |
| Bindings.FlattenedAlike | src/sofab/binding.py:445-472 | a reset depends on the rows below its option alone, so freezing again changes nothing |
| Bindings.TreeSizes | src/sofab/binding.py:434-443 | the sizes are the maxima over the reachable tables |
| Compiling.TreeIsSafe | src/sofab/binding.py:853-917 | no row or reset of a frozen tree names a slot at or above its sizes |
| Compiling.BindStorage | src/sofab/decoder.py:1431-1462 | storage is refused exactly where it is smaller than the largest table of the tree states, and otherwise no row or reset names a slot at or above those sizes |
| Compiling.AddLater | src/sofab/binding.py:866-870 | any later binder call, on a table of a frozen tree or on another, leaves the tree, its sizes and its compiled tables as they are |
| Compiling.SequenceLater | src/sofab/binding.py:845-851 | the same of a sequence row; none is added to the tree and none is bound to it from outside |
| Compiling.FreezeLater | src/sofab/binding.py:445-472 | freezing another root that shares tables with a frozen tree leaves the tree as it is |
| Storage.StepBelow | src/sofab/decoder.py:1816-1954 | no step writes at or above the sizes its tables stay below |
| Storage.RunBelow | src/sofab/decoder.py:1431-1462 | whatever bytes arrive, the slots above the sizes stay as the caller prepared them |
| Storage.DecodeOver | src/sofab/decoder.py:1431-1462 | binder to slots: any tree is bound unless the storage is smaller than its sizes, and whatever is then fed, refused or not, every slot at or above the sizes is as the caller prepared it |

## Left out

- The native accelerator, its compiled tables and the parity of the two engines.
- `collectors.py` and `float_arrays.py`: self-contained, easy members only.
- `Decoder.reset`, re-entrancy guards and message texts; feeding on after a `Refused` end.
- Decoding.Decoder.VisitValue: checks a destination a handler returns as the source does, but does not model its contents, nor what an array that ends early has written into it.
- Decoding.Decoder.VisitVarints: the same of an integer array's destination.
- Rounding narrowing of ordinary floats: floats travel as bit patterns, and only conversions that are exact are modelled.
- Sticky mode, the writer shape's I/O, sink re-entry into the encoder, `bytearray` and `memoryview` lifetimes.
- The boolean-array writers and the bounded string and blob writers: they add a check in front of a modelled writer.
- Default coercion in the binder: stored patterns are taken as given, and nothing is claimed about a default lying in its field's domain.
- The cached result of `_tree_sizes`: sizes are recomputed.
- Encoding.Encoder.WriteInts: does not claim atomicity where an element is out of width, because the source refuses it behind the header it has written.
- Encoding.Encoder.BufferSet: does not keep undrained bytes, because the source drops them.
- Decoding.Decoder.Feed: once a tail was lost for lack of room it says what the storage and the calls are, and not how the decode goes on, because the source loses those bytes.
- Shadows.ControlInvisible: where storage is refused in one cutting it does not say that the other refuses it too, because a sequence counter or a buffer among the slots that differ may be what is refused.
- Exposure.ExposedIff: does not tell from the tables alone what becomes of an overlaid option whose enclosing headers write its slots; Overlays.DecodesIff decides it by the states a decode comes to.
