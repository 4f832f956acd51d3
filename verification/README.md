# nghttp2, verified in Dafny

This project models the parts of the nghttp2 library in which a small mistake goes
unnoticed until much later, and proves what they are for:

- **HPACK** (`lib/nghttp2_hd.c`, `lib/nghttp2_hd_huffman.c`, `mkhufftbl.py`; RFC 7541).
  `HuffmanTree`, `HuffmanTable`, `HuffmanCode`, `HuffmanRoom` and `HuffmanCodec` go from the code tree and
  the generator of the nibble automaton to the encoder that ORs bits into a chunk chain and
  the resumable decoder. `HpackInteger`, `HpackTable`, `HpackContext`, `HpackEncoder`,
  `HpackDeflater`, `HpackDecoder` and `HpackInflater` are the codec itself: functions on values
  that say what a block means, and classes that do the same in place on a ring buffer and
  chunks. `HpackSearch` says that the encoder makes the best of its tables, `HpackGrammar` which octets
  are a block and that the decoder takes exactly those, and `HpackLimits` that no octets make its table
  too large. `HpackRoundTrip`, `HpackFragmentation`, `HpackConnection`, `HpackBound` and
  `HpackStatic` hold the theorems about whole connections.
- **The priority tree** (`lib/nghttp2_stream.c`, `lib/nghttp2_pq.c`, parts of
  `lib/nghttp2_session.c`; section 5.3 of RFC 7540). `PriorityQueue` is the heap, `StreamSchedule`
  the queues and the choice of the next stream, `StreamFairness` what the virtual clock
  guarantees, `StreamReturns` that it does so when streams leave the queues and come back, `StreamLinks` the intrusive links, `StreamForest` the tree operations and
  `StreamTree` the session's view of them.
- **Frames** (`lib/nghttp2_frame.c`, `lib/nghttp2_buf.c`; sections 4.1, 6.1, 6.2, 6.6 and 6.10 of
  RFC 7540). `Bufs` is the chunk chain, `Framing` the frames, and `HeadersOnWire` takes a header
  list from the encoder over padded HEADERS and CONTINUATION frames to the decoder.
- **Flow control** (`FlowControl`; section 6.9 of RFC 7540), the **stream map** (`StreamMap`) and
  the **checks of HTTP messages** (`HttpMessages`; section 8.1 of RFC 7540).

Files depend on each other only through `import`; `dafny verify dfyconfig.toml` takes them all.

## How it is built

Every part has a description on values (what bytes a header list becomes, which stream has
which parent, what is left of a window) and, where the source works in place, methods and
classes with the source's loops that are proved equal to it. The theorems are about the
descriptions and hold for all inputs and all runs.

Sizes, cycles and lengths are unbounded integers except where their width matters: the ring
buffer's counter wraps at 2^64, HPACK integers are refused beyond 32 bits, limits are 32-bit
values, the flow-control ledger is on 32-bit integers, content lengths on 63 bits, and frame
lengths and identifiers are cut to 24 and 31 bits. Memory is never short. A dictionary (the
static table with the numbering of names) is a parameter of the HPACK modules; `HpackStatic`
supplies the one of RFC 7541 and of the source.

## Findings

Where the source does not meet a property in general, the model does what the source does,
shows an input, and states exactly when the property holds:

- **Consuming octets.** `nghttp2_session_consume_connection(session, 0x80000000)`: the test of
  `session_update_consumed_size` subtracts unsigned numbers, so a number beyond 2^31 - 1 is
  accepted, and the sum wraps to a negative number (`FlowControl.TooMuchIsAccepted`). The function
  does what is intended iff the number is at most 2^31 - 1 (`FlowControl.ConsumedAsIntendedIff`);
  the number consumed stays non-negative iff every number given is at most that or wraps to a
  non-negative sum (`FlowControl.StaysValidIff`). The peer's credit is right in any case.
- **Empty increments.** A window of 65535 of which 65535 octets were received, reduced by 65535:
  consuming 0 octets then queues a WINDOW_UPDATE of increment 0, which section 6.9 of RFC 7540 makes
  an error (`FlowControl.ZeroIncrementSent`). Such a frame is sent iff the window is of at most one
  octet and exactly nothing is to be given back (`FlowControl.ZeroIncrementIff`); while octets of a
  reduction are owed, none is sent (`FlowControl.NoneWhileOwed`).
- **Removal after the key was raised.** `nghttp2_stream_reschedule` raises the key of a stream
  before it removes the stream from the heap. A queue of six shows the heap broken
  (`StreamSchedule.RaisedRemovalBreaks`). The order survives iff the stream is first or last, or its
  replacement happens to move the right way (`StreamSchedule.RaisedRemovalIff`). The stream just
  chosen is first in every queue above it, and for that one all queues stay right
  (`StreamSchedule.Reschedule`).
- **The bound on a header block.** One field with a name and a value of 2^28 + 127 octets each, in
  an encoder with two changes of the limit to announce, takes one octet more than
  `nghttp2_hd_deflate_bound` says (`HpackBound.WorstBlock`, `HpackBound.WorstIsReachable`). The bound
  suffices iff the overheads (a first octet and two length prefixes, or for a name of less than three
  octets a long index and one prefix) sum to at most twelve octets per field
  (`HpackBound.BoundSufficesIff`), so always if names and values are below 2^28 octets
  (`HpackBound.ShortIsModerate`).
- **Deferring for no reason.** `nghttp2_stream_defer_item` may be given no reason at all, says its
  header file. An item of an only stream, deferred for no reason, is active but not in the queue of
  the root (`StreamTree.DeferForNoReason`). The queues stay right iff there is a reason, or the stream
  was deferred before, has something queued below it or has no parent
  (`StreamTree.StreamTree.Defer`). Both callers in the session give a reason.
- **Blocks that do not decode.** A block without fields, and a field without name and with a value
  of 65535 octets (`HpackStatic.BlocksRefused`): a block decodes iff it has a field and every field
  fits the decoder's buffer when its turn comes (`HpackConnection.BlockDecodesIff`).
- **A raised limit.** Section 4.2 of RFC 7541 asks for a change of the table's size when the encoder
  changes it, which a raise of the limit does not force it to do. `nghttp2_hd_inflate_change_table_size`
  expects one after every call: with the limit raised, the octet 0x82 alone is refused, which was
  accepted before (`HpackGrammar.RaisedLimitRefuses`). After any change a block is taken iff it would
  be taken anyway and begins with a change of the size (`HpackGrammar.UpdateIsDemanded`). This encoder
  always sends one.
- **Long shifts.** Five octets 0x80 after a full prefix and any octet after them make `decode_length`
  shift a 32-bit integer by 35 bits, which C leaves undefined (`HpackInteger.LongShift`). All shifts are short iff five
  accepted groups are not followed by more (`HpackInteger.ShortShiftsIff`); encoder output never
  is (`HpackInteger.EncodedShiftsAreShort`).
- **Frame headers.** A length of 2^24 or an identifier of 2^31 is cut: a header survives packing iff
  they have 24 and 31 bits (`Framing.HdRoundTripIff`).
- **Empty DATA before the final response** is accepted after an interim response
  (`HttpMessages.EmptyDataIsAccepted`), where DATA with octets is not;
  `HttpMessages.ResponseAcceptedIff` has it among what may come early.
- **Moving a stream below one of its own.** Section 5.3.3 of RFC 7540 moves the new parent to the
  stream's former parent; `nghttp2_session_reprioritize_stream` moves it to the root. In the chain of
  1, 3 and 5, moving 3 below 5 puts 5 below the root and not below 1
  (`StreamTree.MoveBelowOwnChild`). The parents are those of the standard iff the new parent was not
  below the stream or the stream was just below the root (`StreamTree.ConformsIff`, and the contract
  of `StreamTree.StreamTree.Reprioritize`); only that new parent's place ever differs.

## Model

| member | source | states |
|---|---|---|
| HuffmanTree.BuildGivesTree | mkhufftbl.py:297-313 | Entering the codes of a complete tree one by one, in any order, builds exactly that tree. |
| HuffmanTree.TraverseSelects | mkhufftbl.py:327-355 | The traversal's list of transitions has, at the number four bits stand for, the node and symbol those bits lead to, and nothing where EOS completes. |
| HuffmanTree.TableIsWalk | mkhufftbl.py:315-390 | For every complete code tree with codes of four bits or more, every pending node and every nibble: the generated table fails iff the bit walk completes EOS, emits exactly the walk's symbols, moves to the node the walk is at and accepts iff the bits left over are at most seven ones. |
| HuffmanTree.AtMostOneSymbol | mkhufftbl.py:327-348 | No nibble completes two symbols, so the generator's assertion never fires. |
| HuffmanTable.SymbolTableHasTree | lib/nghttp2_hd_huffman_data.c:29-285 | There is a complete tree of 257 leaves in which the way to every leaf spells the length and the code the source has for its symbol. |
| HuffmanTable.CodeTreeIsSource | lib/nghttp2_hd_huffman_data.c:29-285 | The 257 codes of the source are the leaves of one complete tree whose codes have 5 to 30 bits. |
| HuffmanCode.EverySymbolHasCode | lib/nghttp2_hd_huffman_data.c:29-285 | Every symbol has a leaf, and the table entry spells the way to it. |
| HuffmanCode.TableBuildsTree | mkhufftbl.py:297-313 | Entering the 257 codes builds the code tree with no node missing. |
| HuffmanCode.SourceTableIsSymTable | lib/nghttp2_hd_huffman_data.c:29-285 | The 257 entries of the source give every symbol the code of the tree, which is what the encoder asks of its table. |
| HuffmanCode.EosIsAllOnes | lib/nghttp2_hd_huffman_data.c:285 | EOS is thirty ones, so padding with ones never completes a symbol. |
| HuffmanCode.TableStep | lib/nghttp2_hd_huffman.c:188-227 | One row access of the automaton is four steps of the bit walk, in every decoder context that is reached. |
| HuffmanCode.GeneratedTableDecodes | mkhufftbl.py:315-390 | The generated table answers like the walk in every context that is reached, which is what the decoder asks of its table. |
| HuffmanCode.DecodeEncode | lib/nghttp2_hd_huffman.c:126-227 | Decoding the encoding of any string gives the string back, leaves only padding and is accepted. |
| HuffmanCode.AcceptedIsEncoding | lib/nghttp2_hd_huffman.c:188-227 | A string the decoder accepts is the encoding of what it decodes to. |
| HuffmanCode.AcceptsIffEncoding | lib/nghttp2_hd_huffman.c:188-227 | The decoder accepts exactly the outputs of the encoder. |
| HuffmanCode.EncodeLength | lib/nghttp2_hd_huffman.c:115-124 | The encoding has the predicted number of octets. |
| HuffmanRoom.StringFits | lib/nghttp2_hd_huffman.c:43-164 | When a string fits a chunk chain: if its predicted size fits even when three octets of every further chunk are lost, only if it fits when none is, and in the last chunk iff it fits. |
| HuffmanCodec.HuffEncode | lib/nghttp2_hd_huffman.c:43-164 | In every chunk layout the encoder appends exactly the encoding, and it succeeds iff every code has a place: the rest of a code goes to the next chunk when it does not fit, and octets at the end of a chunk are lost. With one chunk that is iff the predicted count fits. |
| HuffmanCodec.HuffEncodeCount | lib/nghttp2_hd_huffman.c:115-124 | The counting loop gives the length of the encoding. |
| HuffmanCodec.HuffDecode | lib/nghttp2_hd_huffman.c:188-227 | With any table that answers like the walk, the nibble loop writes what the bit walk emits, stops with an error exactly where it must and resumes from any context. |
| HuffmanCodec.DecodeIntoConcat | lib/nghttp2_hd_huffman.c:188-227 | Decoding in two calls is decoding in one, for every cut. |
| Bufs.BufChain.AllocChain | lib/nghttp2_buf.c:265-296 | The next chunk is taken or allocated, and this fails iff the last of the allowed chunks is in use; what is stored stays. |
| Bufs.BufChain.Add | lib/nghttp2_buf.c:259-328 | Data is appended as a whole iff the room reported suffices, otherwise nothing changes. |
| Bufs.BufChain.AddB | lib/nghttp2_buf.c:330-359 | One octet is appended iff there is a free octet or another chunk. |
| Bufs.BufChain.Remove | lib/nghttp2_buf.c:400-433 | The copy is the concatenation of all chunks. |
| Bufs.BufChain.Reset | lib/nghttp2_buf.c:453-484 | The chain is empty and keeps at most the chunks it may keep. |
| Bufs.PackedRoom | lib/nghttp2_buf.c:259-263 | In a chain filled octet by octet, stored octets and room add up to the capacity. |
| HpackInteger.IntRoundTrip | lib/nghttp2_hd.c:799-896 | Every 32-bit number with every prefix decodes to itself and what follows it stays unread. |
| HpackInteger.IntRefuses | lib/nghttp2_hd.c:839-896 | A number of more than 32 bits is refused. |
| HpackInteger.IntConcat | lib/nghttp2_hd.c:839-896 | An integer may be cut anywhere and resumed. |
| HpackInteger.ShortShiftsIff | lib/nghttp2_hd.c:864-885 | The loop shifts by less than 32 bits, where C defines the shift, iff no octet follows five groups that were accepted and marked to go on. |
| HpackInteger.LongShift | lib/nghttp2_hd.c:864-885 | Five octets 0x80 and any octet after them lead to a shift of 35 bits, whatever the prefix. |
| HpackInteger.EncodedShiftsAreShort | lib/nghttp2_hd.c:799-820 | What the encoder writes for a 32-bit number is read with short shifts only, whatever follows it. |
| HpackInteger.CountEncodedLength | lib/nghttp2_hd.c:782-797 | The counting loop gives the length of the encoding. |
| HpackInteger.EncodeLength | lib/nghttp2_hd.c:799-820 | The loop writes the encoding, the upper bits of the first octet kept. |
| HpackInteger.DecodeLength | lib/nghttp2_hd.c:839-896 | The loop reads as much of an integer as there is and reports value, shift and what is left. |
| HpackTable.EvictIsMinimal | lib/nghttp2_hd.c:1084-1112 | Eviction removes the shortest run of oldest entries that makes room. |
| HpackTable.TableFits | lib/nghttp2_hd.c:1084-1158 | After an insertion the table fits its limit; an entry larger than the limit empties it. |
| HpackTable.ShrinkTwice | lib/nghttp2_hd.c:1228-1244 | Shrinking to one limit and then another is shrinking to the smaller. |
| HpackTable.ShrinkThrough | lib/nghttp2_hd.c:1228-1277 | Shrinking through any sequence of limits is shrinking to the least of them. |
| HpackContext.RingBuf.Get | lib/nghttp2_hd.c:580-584 | The ring holds the newest entry first, through wrap-around of its counter at 2^64. |
| HpackContext.RingBuf.Reserve | lib/nghttp2_hd.c:586-609 | Growth keeps all entries in order. |
| HpackContext.RingBuf.PushFront | lib/nghttp2_hd.c:625-639 | The ring refines a sequence: an entry comes in front of all others, with growth as needed. |
| HpackContext.RingBuf.PopBack | lib/nghttp2_hd.c:641-644 | The oldest entry goes. |
| HpackContext.HdContext.AddIncremental | lib/nghttp2_hd.c:1084-1158 | The stored table becomes the table after eviction and insertion, and the recorded size stays the sum of the entries. |
| HpackContext.HdContext.SetLimit | lib/nghttp2_hd.c:1228-1244 | The stored table is shrunk to the new limit. |
| HpackEncoder.SearchSound | lib/nghttp2_hd.c:1174-1226 | A search names only an entry with the field's name and reports a match only for the same value. |
| HpackSearch.SearchIsBest | lib/nghttp2_hd.c:1174-1226 | For every valid table: the search reports a match iff some entry of the joint address space has the field's name and value and the field may be indexed, and then the first of them; otherwise the first entry of the name, or none iff there is none. |
| HpackSearch.FieldIsBest | lib/nghttp2_hd.c:1312-1389 | What is written is the index of the first entry that has the field iff there is one and it may be used, else a literal with the first index of the name, else both strings; the table changes only with a literal that is to be indexed. |
| HpackSearch.RepeatIsIndexed | lib/nghttp2_hd.c:1312-1389 | A field that is to be indexed and fits the table is written in full at most once: sent again at once, it is an index and changes nothing. |
| HpackEncoder.EncoderStaysValid | lib/nghttp2_hd.c:1246-1441 | Blocks and limit changes keep every encoder's table within its limit and its numbering right. |
| HpackDeflater.Deflater.ChangeTableSize | lib/nghttp2_hd.c:1246-1260 | The encoder's limit, the least limit to announce and the table change as described. |
| HpackDeflater.Deflater.DeflateNv | lib/nghttp2_hd.c:1312-1389 | One field: the representation chosen is appended to the chain and the table changes with it. |
| HpackDeflater.Deflater.DeflateHdBufs | lib/nghttp2_hd.c:1391-1441 | A block is appended to the chain, announcements first; a failure makes the encoder bad, and a bad encoder does nothing. |
| HpackDeflater.Deflater.DeflateHd | lib/nghttp2_hd.c:1443-1473 | Into one buffer a block is written iff it fits. |
| HpackDecoder.StepProgresses | lib/nghttp2_hd.c:1942-2306 | Every round of the 13-state machine consumes input or moves to a state of lower rank, so a call ends. |
| HpackDecoder.FeedIsCalls | lib/nghttp2_hd.c:1942-2306 | Calling again after every field reads the input as a whole. |
| HpackInflater.Inflater.ChangeTableSize | lib/nghttp2_hd.c:1262-1277 | A limit change is accepted iff the decoder is between blocks. |
| HpackInflater.Inflater.InflateHd | lib/nghttp2_hd.c:1942-2306 | One call returns the next field, or the end of input, or the error, as the state machine says, and an error makes the decoder bad. |
| HpackInflater.Inflater.InflateBlock | lib/nghttp2_session.c:3064-3167 | The session's loop of calls yields all fields of a piece of a block, in order. |
| HpackLimits.FeedIsBounded | lib/nghttp2_hd.c:1942-2306 | Whatever octets arrive in whatever state, the decoder's limit stays at most the one set and its table within its limit. |
| HpackLimits.AlwaysBounded | lib/nghttp2_hd.c:1262-2306 | Over every run of octets, limits set and ends of blocks the table is within its limit and that within the limit last set. |
| HpackLimits.InitiallyBounded | lib/nghttp2_hd.c:693-730 | A new decoder is within its limit. |
| HpackLimits.NewDecoderIsBounded | lib/nghttp2_hd.c:693-730 | A new decoder whose limit is not changed has a table of at most 4096 octets, whatever arrives. |
| HpackGrammar.IntParses | lib/nghttp2_hd.c:839-896 | For every string: an integer is read iff it is one as section 5.1 of RFC 7541 describes it, ends within the string and has 32 bits; value and rest agree. |
| HpackGrammar.TextDecodes | lib/nghttp2_hd.c:1608-1631 | For every payload: the Huffman text it encodes comes out iff it encodes one and there is room. |
| HpackGrammar.FieldParses | lib/nghttp2_hd.c:1964-2271 | For every string: the decoder delivers a field iff the string begins with a representation (an index from 1 to the number of entries, or a literal with well-formed strings that fit); field, table and rest are those of the grammar. |
| HpackGrammar.UpdateParses | lib/nghttp2_hd.c:1964-2033 | A change of the table's size is accepted iff it is a well-formed integer of at most the limit set. |
| HpackGrammar.DecodesIffParses | lib/nghttp2_hd.c:1942-2306 | For every string of octets and every state between blocks: it is accepted iff it is a block by a grammar that knows nothing of states (changes of the size first, up to the limit, present if expected, then at least one field); fields, table and limit are those of the grammar. |
| HpackGrammar.LimitIsExact | lib/nghttp2_hd.c:2018-2033 | A block with a change of the size to 128, 256, ... or 16384 octets is accepted iff that is at most the limit set. |
| HpackGrammar.UpdateIsDemanded | lib/nghttp2_hd.c:1262-1277 | After every change of the limit a block is accepted iff it would be anyway and begins with a change of the size. |
| HpackGrammar.RaisedLimitRefuses | lib/nghttp2_hd.c:1262-1277 | A block that was accepted is refused after the limit was raised. |
| HpackFragmentation.FragmentationIsInvisible | lib/nghttp2_hd.c:1942-2306 | For every block and every way of cutting it, inside integers and Huffman strings too, the fields, the final state and success or error are those of one run. |
| HpackConnection.AnnouncementDecodes | lib/nghttp2_hd.c:1401-1423 | The least and the last of all limits set since the last block are accepted and leave the decoder with the encoder's table and limit. |
| HpackConnection.ChangeKeepsSynced | lib/nghttp2_hd.c:1246-1277 | A limit change at both ends keeps them in step. |
| HpackConnection.BlockDecodes | lib/nghttp2_hd.c:1312-1441 | A block decodes to the fields it was made of, in order and with their never-indexed marks, and leaves both tables equal. |
| HpackConnection.BlockDecodesIff | lib/nghttp2_hd.c:2277-2306 | A block decodes iff it has a field and all fields fit into the decoder's buffer when their turn comes. |
| HpackConnection.SmallFieldsFit | lib/nghttp2_hd.c:709 | Fields of up to 65534 octets fit whatever the tables hold. |
| HpackConnection.NeverIndexedStaysOut | lib/nghttp2_hd.c:1297-1310 | A never-indexed field enters no table and is received as never-indexed. |
| HpackConnection.ConnectionStaysInSync | lib/nghttp2_hd.c:1246-1441 | Over every run of blocks and limit changes the lists received are the lists sent, and encoder and decoder end in step. |
| HpackStatic.RfcDictionaryIsValid | lib/nghttp2_hd.c:45-495 | The static table and the lookup of names by length and last letter agree on every name. |
| HpackStatic.RfcDictionaryIsGrouped | lib/nghttp2_hd.c:45-124 | In the source's static table entries of one name follow each other, which the static search relies on. |
| HpackStatic.RfcFieldIsBest | lib/nghttp2_hd.c:1174-1226 | With the source's tables every search of every encoder state finds the best entry. |
| HpackStatic.ModeByName | lib/nghttp2_hd.c:1297-1336 | By names, not numbers: `authorization`, `cookie` of less than 20 octets and flagged fields are never indexed; the eight names listed and fields beyond three quarters of the table are not indexed; all others are. |
| HpackStatic.SensitiveStaysOut | lib/nghttp2_hd.c:1326-1336 | Those credentials, short cookies and flagged fields enter no table and are received as never-indexed. |
| HpackStatic.EveryConnectionStaysInSync | lib/nghttp2_hd.c:666-730 | From the initial states, with the real static table, no connection gets out of step. |
| HpackStatic.BlocksRefused | lib/nghttp2_hd.c:2277-2306 | From the initial states a block without fields is refused, and one of a field without name is decoded iff its value has at most 65534 octets. |
| HpackStatic.RfcBoundSufficesIff | lib/nghttp2_hd.c:1475-1499 | The same for the static table of the source, in which no name consists of zero octets. |
| HpackBound.DeflateBound | lib/nghttp2_hd.c:1475-1499 | The loop adds up the bound. |
| HpackBound.BlockBound | lib/nghttp2_hd.c:1475-1499 | The bound suffices in every encoder state, announcements included, for every list of fields whose overheads (length prefixes or an index) sum to at most twelve octets per field. |
| HpackBound.ShortIsModerate | lib/nghttp2_hd.c:1475-1499 | Lists of fields with names and values below 2^28 octets have no larger overhead. |
| HpackBound.DeflateIntoBound | lib/nghttp2_hd.c:1443-1499 | Deflating into a buffer of the size promised succeeds iff the block is within the bound, so never fails for such lists. |
| HpackBound.BoundSufficesIff | lib/nghttp2_hd.c:1475-1499 | For every list of lengths: the bound suffices for all fields of these lengths in every encoder state iff their overheads sum to at most twelve octets per field. |
| HpackBound.WorstBlock | lib/nghttp2_hd.c:1475-1499 | In one encoder state, for every list of lengths: fields of these lengths whose block is longer than the bound by what the length prefixes exceed eleven octets per field. |
| HpackBound.WorstIsReachable | lib/nghttp2_hd.c:1246-1260 | That encoder state is reached from the initial one by two changes of the limit. |
| HpackBound.LongestLengths | lib/nghttp2_hd.c:782-797 | A length prefix takes six octets from 2^28 + 127 on. |
| PriorityQueue.TopIsMinimal | lib/nghttp2_pq.c:88-94 | For every strict weak order no entry comes before the top. |
| PriorityQueue.PushKeepsHeap | lib/nghttp2_pq.c:54-86 | Pushing keeps the heap and adds exactly the entry. |
| PriorityQueue.PopKeepsHeap | lib/nghttp2_pq.c:96-124 | Popping keeps the heap and takes exactly the top. |
| PriorityQueue.RemoveKeepsHeap | lib/nghttp2_pq.c:126-148 | Removal from any position, with the key unchanged, keeps the heap and takes exactly that entry. |
| PriorityQueue.RemoveByIff | lib/nghttp2_pq.c:126-148 | After removing an inner entry the heap is right iff the replacement moves in the right direction. |
| PriorityQueue.RebuildMakesHeap | lib/nghttp2_pq.c:154-168 | Sifting down from the end makes a heap of any array. |
| PriorityQueue.Pq.PushEntry | lib/nghttp2_pq.c:66-86 | The array operation is the push above, and every entry's index is its position. |
| PriorityQueue.Pq.Top | lib/nghttp2_pq.c:88-94 | Reads the first entry, or that there is none. |
| PriorityQueue.Pq.PopEntry | lib/nghttp2_pq.c:117-124 | The array operation is the pop above, indices included. |
| PriorityQueue.Pq.RemoveEntry | lib/nghttp2_pq.c:126-148 | The array operation removes the entry found by its own index. |
| PriorityQueue.Pq.Update | lib/nghttp2_pq.c:154-168 | The array operation rebuilds the heap in place. |
| StreamSchedule.ObqPush | lib/nghttp2_stream.c:119-141 | Queues a stream with something to send and every stream above it: each that joins gets the last cycle of its parent and what its last write costs at its weight, streams queued before keep their cycles, nothing else changes, and no stream is queued wrongly. |
| StreamSchedule.ObqRemove | lib/nghttp2_stream.c:148-173 | Takes a stream out of its queue and every stream above it that has nothing left to send, and no other; those forget their cycles, all others keep theirs. |
| StreamSchedule.ObqMove | lib/nghttp2_stream.c:181-194 | Moves a queued stream to the queue of its new parent, at the cycle of one that joins it. |
| StreamSchedule.Reschedule | lib/nghttp2_stream.c:196-223 | The stream just chosen and all above it advance by exactly their stride, or start again at zero where they are alone, and learn the length of the write; no other stream changes; all queues stay right. |
| StreamSchedule.RaisedRemovalIff | lib/nghttp2_stream.c:211-215 | With the key raised before removal, the queue stays in order iff the stream is first or last or its replacement moves the right way. |
| StreamSchedule.RaisedRemovalBreaks | lib/nghttp2_stream.c:211-215 | A queue of six that is out of order after such a removal. |
| StreamSchedule.NextOutboundItem | lib/nghttp2_stream.c:849-863 | Finds a stream iff some stream below is active; it is active, no stream above it is, and the way to it is first in every queue; the descent ends. |
| StreamSchedule.ChosenIsEarliest | lib/nghttp2_stream.c:849-863 | On that way every stream has the least cycle among its queued siblings. |
| StreamSchedule.ChosenIsFirst | lib/nghttp2_stream.c:849-863 | The stream chosen is one that can be rescheduled without breaking a queue. |
| StreamFairness.ServiceIsFair | lib/nghttp2_stream.c:114-117 | In one queue, over every run: initial cycle and virtual service together of two siblings stay apart by at most the larger of one step and their initial distance. |
| StreamFairness.OctetsFollowWeight | lib/nghttp2_stream.c:114-117 | Octets written are in proportion to weight, up to one unit of virtual time a write. |
| StreamFairness.OctetsAreFair | lib/nghttp2_stream.c:114-117 | In one queue, over every run: octets of two siblings are in proportion to their weights up to that lead and one unit for each write. |
| StreamFairness.WaitingIsBounded | lib/nghttp2_stream.c:196-223 | While a sibling waits, the others are served only as often as their cycles stay at or below its own. |
| StreamFairness.WriteIsService | lib/nghttp2_stream.c:196-223 | A write anywhere below a stream is, in the queue of that stream, one service of its child with the least cycle. |
| StreamFairness.WriteElsewhere | lib/nghttp2_stream.c:196-223 | A write that is not below a stream leaves the cycles of its queue as they are. |
| StreamFairness.TreeRunIsRun | lib/nghttp2_stream.c:196-223 | For every run of choosing and rescheduling on a tree and every queue of two or more in it, what the queue sees is a run of services to the least cycle, and leaves the cycles the tree has in the end. |
| StreamFairness.TreeIsFair | lib/nghttp2_stream.c:114-117 | Over every such run of the tree the octets written at and below two streams of one queue are in proportion to their weights, up to the lead and one unit for each write. |
| StreamFairness.TreeWaitingIsBounded | lib/nghttp2_stream.c:196-223 | While nothing at or below a queued stream is written, the number of writes below its parent is bounded by how far its siblings are behind it. |
| StreamReturns.EventKeeps | lib/nghttp2_stream.c:114-223 | One write, waking or falling asleep: where a stream stands in its queue, or would stand on return, grows by at least what it gains over a queued sibling. |
| StreamReturns.ReturningIsFair | lib/nghttp2_stream.c:114-173 | Over every run of writes in which streams leave their queues and return at will: a stream gets no more virtual service than a sibling that stays queued, but for where it stood first and the charge for its last write. |
| StreamReturns.ReturningIsProportional | lib/nghttp2_stream.c:114-173 | The same in octets, in proportion to the weights, up to that and one unit for each write. |
| StreamLinks.LastSib | lib/nghttp2_stream.c:225-230 | Finds the last of the siblings. |
| StreamLinks.SetDepPrev | lib/nghttp2_stream.c:552-556 | Gives exactly the siblings from the first on their new parent. |
| StreamLinks.AddShape | lib/nghttp2_stream.c:558-583 | Linking a stream in front leaves lists of children that lead through exactly those children and back. |
| StreamLinks.TakeOut | lib/nghttp2_stream.c:585-659 | Unlinking puts the children of a stream in its place, in order, link by link. |
| StreamLinks.SpliceShape | lib/nghttp2_stream.c:585-659 | After unlinking all lists of children are right again. |
| StreamLinks.JoinKids | lib/nghttp2_stream.c:743-754 | All children of the new parent follow those of the stream inserted. |
| StreamLinks.InsertShape | lib/nghttp2_stream.c:511-583 | After insertion above the children all lists are right again. |
| StreamForest.DistributedWeight | lib/nghttp2_stream.c:232-237 | A share is from 1 to 256. |
| StreamForest.WeightIsShared | lib/nghttp2_stream.c:677-696 | The shares of all children add up to the weight shared, up to one for each. |
| StreamForest.LiftedIsRanked | lib/nghttp2_stream.c:501-550 | Moving a stream below one that is not below it, with or without its new parent's children, makes no cycle. |
| StreamForest.AllBelowRoot | lib/nghttp2_stream.c:844-847 | Every stream in the tree is below the root. |
| StreamForest.Activate | lib/nghttp2_stream.c:375-385 | After an item became active all queues are right, and streams that joined have the cycles of streams that join. |
| StreamForest.Deactivate | lib/nghttp2_stream.c:387-395 | After an item became inactive all queues are right; if it did not, iff the stream has something below it or no parent. |
| StreamForest.AddBelow | lib/nghttp2_stream.c:661-675 | The stream becomes the first child of its parent; links, sums and queues are right, a stream queued below the same parent as before keeps its cycle and every other queued one joined its queue. |
| StreamForest.RemoveSubtree | lib/nghttp2_stream.c:809-842 | The subtree is taken out whole; links, sums, queues and cycles are right. |
| StreamForest.RemoveStream | lib/nghttp2_stream.c:677-727 | The children take the stream's place with their share of its weight and join its parent's queue; links, sums and queues are right. |
| StreamForest.InsertNew | lib/nghttp2_stream.c:511-550 | The stream comes between its parent and all its children, which join its queue; links, sums and queues are right. |
| StreamForest.InsertSubtree | lib/nghttp2_stream.c:729-779 | The same for a stream with children of its own, which come first. |
| StreamForest.FreshStream | lib/nghttp2_stream.c:42-82 | A new stream disturbs nothing. |
| StreamForest.GoneStream | lib/nghttp2_session.c:1060-1082 | A stream without links may be freed. |
| StreamTree.StreamTree.constructor | lib/nghttp2_session.c:340-342 | The tree begins with the root alone. |
| StreamTree.StreamTree.Attach | lib/nghttp2_stream.c:397-420 | An item is attached, the streams that become queued join at the cycle due to them, and the tree stays consistent: parents, sums, queues and the flag of every stream. |
| StreamTree.StreamTree.Detach | lib/nghttp2_stream.c:422-430 | An item is detached, the streams that leave their queues forget their cycles and no other does, and the tree stays consistent. |
| StreamTree.StreamTree.Defer | lib/nghttp2_stream.c:432-441 | Reasons are added, and the tree stays consistent iff there is a reason, something queued below the stream or no parent. |
| StreamTree.DeferForNoReason | lib/nghttp2_stream.c:432-441 | A run: a stream is opened, gets an item and is deferred for no reason; it is active and the tree is not consistent. |
| StreamTree.StreamTree.Resume | lib/nghttp2_stream.c:443-456 | Reasons are taken away; the stream is queued again only when none is left, at the cycle of one that joins. |
| StreamTree.StreamTree.DepAdd | lib/nghttp2_stream.c:781-807 | Exactly the parent of the stream changes, and the sum of its new parent. |
| StreamTree.StreamTree.DepInsert | lib/nghttp2_stream.c:511-550 | Exactly the parents of the stream and of its new parent's children change. |
| StreamTree.StreamTree.DepInsertSubtree | lib/nghttp2_stream.c:729-779 | Exactly the parents section 5.3.3 of RFC 7540 names change. |
| StreamTree.StreamTree.DepRemove | lib/nghttp2_stream.c:677-727 | The stream leaves, its children get its parent and their shares of its weight, and the tree stays consistent. |
| StreamTree.StreamTree.DepRemoveSubtree | lib/nghttp2_stream.c:809-842 | Only the stream loses its parent. |
| StreamTree.StreamTree.FindAncestor | lib/nghttp2_stream.c:501-509 | Tells exactly whether a stream is below another; the climb ends. |
| StreamTree.StreamTree.Resolve | lib/nghttp2_session.c:631-650 | A priority that names an idle stream opens it below the root; one that names a stream outside the tree is replaced by the default. |
| StreamTree.StreamTree.Open | lib/nghttp2_session.c:832-974 | A stream is opened, anew or from idle, where its priority says, with nothing to send; all other streams keep items, deferrals and weights, but for the shares of its former children; the tree stays consistent. |
| StreamTree.StreamTree.Destroy | lib/nghttp2_session.c:1060-1082 | A stream leaves the tree and is forgotten; its children take its place with their shares, all others keep items, deferrals and weights; the tree stays consistent. |
| StreamTree.StreamTree.Reprioritize | lib/nghttp2_session.c:616-683 | Exactly the parents named by the priority change, after a new parent below the stream moved to the root; these are the parents section 5.3.3 of RFC 7540 asks for iff no parent had to move or the stream was just below the root; only the stream's weight changes; no cycle appears. |
| StreamTree.ConformsIff | lib/nghttp2_session.c:653-667 | The parents the source leaves are those of section 5.3.3 of RFC 7540 for every stream but a new parent that was below the stream, and for that one iff the stream was just below the root. |
| StreamTree.IdleConformsIff | lib/nghttp2_session.c:616-683 | The same for the priority as it is received, with idle streams opened and unknown ones replaced. |
| StreamTree.MoveBelowOwnChild | lib/nghttp2_session.c:653-667 | A run: the chain of 1, 3 and 5 is opened and 3 moved below 5; 5 is then below the root, where the standard has it below 1. |
| StreamTree.StreamTree.Next | lib/nghttp2_stream.c:849-863 | From the root a stream is found iff any stream in the tree is active. |
| StreamTree.StreamTree.Served | lib/nghttp2_session.c:2188-2192 | Rescheduling the stream found advances it and all above it, changes no other stream and keeps the tree consistent. |
| StreamTree.StreamTree.Send | lib/nghttp2_session.c:2055-2086 | Choosing and rescheduling over and over is a run of the tree: each write is of an active stream first in every queue above it, and the run ends early only when nothing in the tree is active. |
| StreamTree.SendingIsFair | lib/nghttp2_stream.c:114-117 | The proportion of octets to weights, for all runs on a consistent tree. |
| StreamTree.SendingStarvesNone | lib/nghttp2_stream.c:196-223 | The bound on waiting, for all runs on a consistent tree. |
| Framing.PackFrameHd | lib/nghttp2_frame.c:36-42 | The octets written are 24 bits of length, type, flags and 32 bits of identifier. |
| Framing.HdRoundTrip | lib/nghttp2_frame.c:36-50 | Unpacking undoes packing, up to 24 bits of length and 31 of identifier. |
| Framing.HdRoundTripIff | lib/nghttp2_frame.c:36-50 | A frame header survives packing iff its length has 24 bits and its identifier 31. |
| Framing.FramesRoundTrip | lib/nghttp2_frame.c:36-50 | Any sequence of frames written is read back as those frames. |
| Framing.FramesFormBlock | lib/nghttp2_frame.c:204-261 | One HEADERS or PUSH_PROMISE frame, then CONTINUATION frames of the same stream, and END_HEADERS on the last only. |
| Framing.PackHeadersShared | lib/nghttp2_frame.c:204-261 | The chain holds exactly the frames whose payloads are its chunks. |
| Framing.SetPad | lib/nghttp2_frame.c:813-840 | In place, the frame becomes the padded frame, or only its header does and the last octet of the old one stays behind it. |
| Framing.AddPad | lib/nghttp2_frame.c:842-885 | The first frame of the chain is padded and the others stay. |
| Framing.PaddingStrips | lib/nghttp2_session.c:4656-4689 | Padding strips back to the payload, and the frame grew by exactly the padding. |
| HeadersOnWire.PackPrioritySpec | lib/nghttp2_frame.c:301-308 | The octets written are the exclusive bit, 31 bits of identifier and the weight less one. |
| HeadersOnWire.PriorityRoundTrip | lib/nghttp2_frame.c:301-323 | Unpacking a priority gives it back. |
| HeadersOnWire.PackHeaders | lib/nghttp2_frame.c:263-299 | The chain holds the frames of the priority and the deflated block, and the encoder advanced by the block. |
| HeadersOnWire.PackPushPromise | lib/nghttp2_frame.c:483-516 | The chain holds the frames of the promised identifier and the deflated block. |
| HeadersOnWire.BlockIsReceived | lib/nghttp2_session.c:5124-5260 | From the frames, padded or not, the receiver gets exactly the pieces of the block. |
| HeadersOnWire.HeadersArrive | lib/nghttp2_frame.c:204-299 | However a block is cut into frames and padded, the receiver reads the frames, inflates the pieces and has the fields sent, and both ends are in step for the next block. |
| HeadersOnWire.AddChosenPad | lib/nghttp2_session.c:1639-1704 | The padding the application chooses is added to the first frame, or refused if it is too short or too long; every frame can be written. |
| HeadersOnWire.SendHeaders | lib/nghttp2_session.c:1804-1827 | A header list that fits is packed, padded as the application chooses, and arrives; both ends are in step for the next block. |
| FlowControl.StepConserves | lib/nghttp2_helper.c:170-229 | Every step keeps the window sound, a failure changes nothing, and the credit changes by what is put on the wire less what the peer sent, whatever number of octets (up to 2^64 - 1) is said to be consumed. |
| FlowControl.CreditIsConserved | lib/nghttp2_submit.c:334-377 | Over every run, with any numbers consumed, the peer's credit is what it was given less what it used, never negative and never above 2^31 - 1. |
| FlowControl.StepAccounts | lib/nghttp2_submit.c:334-377 | Every event: what is consumed and not given back, with the increment sent, grows by what is consumed, by the part of a submission beyond it and by what is given back automatically. |
| FlowControl.ConsumedIsAccounted | lib/nghttp2_submit.c:334-377 | Over every run: what is consumed and not given back, with all increments sent, is all that was consumed, submitted beyond it and given back automatically. |
| FlowControl.NeverMoreThanConsumed | lib/nghttp2_session.c:4458-4491 | In a run without such submissions and automatic updates, exactly what was consumed is given back or still to be given back. |
| FlowControl.ReopensIff | lib/nghttp2_helper.c:231-234 | Receiving and consuming send an increment iff what is to be given back makes up half the window, rounded down. |
| FlowControl.StaysValidIff | lib/nghttp2_session.c:4458-4491 | Over every run: all numbers consumed stay non-negative iff no number given is beyond 2^31 - 1 and wraps the sum around to a negative one. |
| FlowControl.ConsumedAsIntendedIff | lib/nghttp2_session.c:4458-4491 | The 64-bit test and the 32-bit sum do what unbounded integers would iff the number given is at most 2^31 - 1. |
| FlowControl.TooMuchIsAccepted | lib/nghttp2_session.c:4466-4471 | 2^31 octets are accepted from every valid window and leave a negative number consumed. |
| FlowControl.ZeroIncrementIff | lib/nghttp2_helper.c:231-234 | A WINDOW_UPDATE of increment zero is sent exactly when the window is of at most one octet and there is nothing to give back. |
| FlowControl.ZeroIncrementSent | lib/nghttp2_session.c:4458-4491 | A run of a receipt, a reduction and a consumption of nothing that sends an increment of zero. |
| FlowControl.NoneWhileOwed | lib/nghttp2_helper.c:214-234 | While the peer owes octets of a reduction, consuming gives nothing back. |
| FlowControl.AcceptedIffCredit | lib/nghttp2_session.c:4365-4373 | Octets are accepted iff the peer had the credit to send them. |
| FlowControl.ReductionIsUndoneIff | lib/nghttp2_helper.c:170-229 | A reduction and an equal increase cancel out unknown to the peer iff no more octets than that wait to be given back. |
| FlowControl.OverconsumedIff | lib/nghttp2_session.c:4466-4469 | The unsigned test sees an excess iff the number itself is not beyond 2^31 - 1. |
| FlowControl.Ledger.AdjustLocalWindowSize | lib/nghttp2_helper.c:170-229 | On 32-bit integers, without overflow, the four numbers change as described. |
| FlowControl.Ledger.SubmitWindowUpdate | lib/nghttp2_submit.c:334-377 | A submission succeeds, fails and sends an increment exactly as described. |
| FlowControl.Ledger.AdjustRecvWindowSize | lib/nghttp2_session.c:4365-4373 | The test accepts iff there is credit, without overflow. |
| FlowControl.Ledger.UpdateRecvWindowSize | lib/nghttp2_session.c:4387-4456 | A receipt is counted, and the window reopened once half of it is used. |
| FlowControl.Ledger.UpdateConsumedSize | lib/nghttp2_session.c:4458-4491 | For every number of 64 bits: refused, added with wrap-around, and given back once it makes up half the window, exactly as described. |
| StreamMap.Insert | lib/nghttp2_map.c:94-111 | Fails iff the key is there, else the table stands for the map with the entry added. |
| StreamMap.Resize | lib/nghttp2_map.c:114-139 | The new table stands for the same map. |
| StreamMap.StreamMap.Find | lib/nghttp2_map.c:158-168 | Finds exactly what the map has under the key. |
| StreamMap.StreamMap.Put | lib/nghttp2_map.c:141-156 | Fails iff the key is present, and then the contents stay even if the table grew; size and load stay right. |
| StreamMap.StreamMap.Remove | lib/nghttp2_map.c:170-188 | Fails iff the key is absent; exactly that key goes. |
| HttpMessages.ParseUint | lib/nghttp2_http.c:52-73 | The number is read, and refused exactly if it is none or has more than 63 bits. |
| HttpMessages.FieldsAcceptedIff | lib/nghttp2_http.c:115-333 | A block is accepted iff every field is right by itself, pseudo fields come first, unique names come once and CONNECT has no path or scheme; then exactly its summary is remembered. |
| HttpMessages.RequestAcceptedIff | lib/nghttp2_http.c:335-362 | A request is accepted iff its fields are right and it has those it must have. |
| HttpMessages.PromiseAcceptedIff | lib/nghttp2_http.c:335-362 | A promised request is accepted iff its fields are right and it has those it must have; then only its method is remembered, and that is not CONNECT. |
| HttpMessages.TrailersAcceptedIff | lib/nghttp2_http.c:287-333 | Trailers are accepted iff all fields are regular and right by themselves and repeat neither a content length nor the host of a request. |
| HttpMessages.ResponseAcceptedIff | lib/nghttp2_http.c:364-421 | A run of header blocks and data is accepted iff it is interim blocks, one final block, data within its content length (none for HEAD) and at most trailers, and if it has ended exactly the content length has come. |
| HttpMessages.PromisedResponseIff | lib/nghttp2_http.c:354-421 | After every promised request accepted, exactly the runs are accepted that are responses to its method. |
| HttpMessages.EmptyDataIsAccepted | lib/nghttp2_session.c:5698-5712 | After an interim response an empty DATA frame is accepted unless it ends the stream; one with octets never is. |
| HttpMessages.RequestRunAcceptedIff | lib/nghttp2_http.c:335-421 | The same for a request: a complete header block, data within its content length and at most trailers. |
| HttpMessages.EndedResponseIsComplete | lib/nghttp2_http.c:398-409 | When an accepted response ends, exactly the octets its content length promises have come. |
| HttpMessages.EndedRequestIsComplete | lib/nghttp2_http.c:398-409 | When an accepted request ends, exactly the octets its content length promises have come. |

## Left out

- The session state machine: which frame is legal in which state, settings, GOAWAY, stream
  limits, closed and idle stream lists and their eviction.
- Frames other than HEADERS, PUSH_PROMISE and CONTINUATION: SETTINGS, PRIORITY, RST_STREAM, PING,
  GOAWAY and WINDOW_UPDATE have fixed layouts and would only add easy members.
- Allocation failure, reference counts of table entries, and names and values shared in
  memory: names and values are immutable sequences.
- The literal 256 by 16 transition table: the generator is proved for every suitable code tree
  and for the source's symbol table, and the decoder runs on what it generates.
- Names and values with characters that are not allowed, and upper case letters: the results of
  these tables are given with each field.
- Callbacks, options, the FIFO queues, command line tools, examples and bindings.
- HpackInteger.DecodeLength: a shift of 32 bits or more, which is undefined in C, is modelled as
  shifting everything out; `HpackInteger.ShortShiftsIff` says when there is none.
- HpackBound.BoundSufficesIff: ranges over all consistent encoder states; that a table of two million
  entries, which names of less than three octets need to exceed the bound, can be built up is not shown.
- HpackInflater.Inflater.InflateHd: the token that the decoder reports with a field is not part of it.
- HuffmanTree.BuildGivesTree: the tree is a value that is rebuilt, not nodes that are updated.
- StreamSchedule.ObqPush: works on a map of streams that it returns, not in place; `StreamTree`
  keeps the map in a field. The same holds for the other methods of `StreamSchedule`,
  `StreamLinks` and `StreamForest`. Cycles do not wrap at 2^64.
- StreamReturns.ReturningIsFair: the parents of streams do not change during the run; what a change of the
  tree does to cycles is in the contracts of `StreamForest`.
- StreamSchedule.Reschedule: is for the stream just chosen; `StreamSchedule.RaisedRemovalIff` says what
  happens to a queue otherwise.
- StreamTree.StreamTree.DepAdd: models `nghttp2_stream_dep_add` too, which does not queue the stream;
  the header file asks for a stream without an item, and then there is nothing to queue.
- StreamTree.StreamTree.DepInsert: is for a stream without children and with nothing to send, as are
  `StreamForest.InsertNew` and its callers; the source would overwrite the list of children.
- StreamForest.InsertNew: the same.
- StreamTree.StreamTree.Open: does not model reserved streams of the peer, which stay outside the tree.
- Framing.AddPad: always writes the padding; the call that only changes the header, for DATA that is
  not copied, is described by `Framing.SetPad`.
- HeadersOnWire.BlockIsReceived: the receiver gets whole frames, not octets one by one.
- FlowControl.Ledger.SubmitWindowUpdate: a subtraction from a negative number consumed that goes
  below 32 bits, which is undefined in C, is modelled as wrapping around.
- FlowControl.CreditIsConserved: SETTINGS that change the initial window of open streams are not
  among the events.
- StreamMap.Insert: chains are sequences, not linked entries, and the hash function is any that
  stays in range.
- HttpMessages.ResponseAcceptedIff: the handlers are functions on values, and the events are whole
  header blocks and DATA frames.
