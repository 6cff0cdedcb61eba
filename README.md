# PISA core, modelled in Dafny

This project models five pieces of PISA, a C++ search-engine library, and
proves properties of each.

- **Block-Max WAND** (`block_max_wand_query`) is the top-k retrieval loop.
  - It keeps `ordered_cursors` (handles to posting-list cursors) ascending by
    document id.
  - It finds a pivot from a running sum of per-list score bounds, then
    tightens the bound with per-block maxima.
  - It then does one of three things: fully scores the pivot document, moves
    a lagging cursor up to it, or skips one cursor past it.
  - Both a primary and a secondary top-k collector are fed.
- **`Payload_Vector`** stores a byte string per element.
  - The layout is an offset table plus concatenated payloads.
  - The model covers the builder (`make`), the iterator, indexing, and
    parsing of the serialised form `[length][offsets][payloads]`.
- **The v1 posting-format header** is eight bytes: a three-byte version, a
  one-byte value type, and a four-byte little-endian encoding id.
  - The model covers its parser and writer, and the bit-field codec of the
    value type.
- **`strict_sequence`** chooses the cheapest of three codecs for a sorted
  sequence: strict Elias-Fano, compact ranked bitvector, or all-ones.
  - It writes a one-bit type tag when needed, and its enumerator decodes
    that choice.
- **`VarByteEncoding`** estimates the bytes a variable-byte code spends on
  the d-gaps of a posting list.

## Modules and files

- `cursor.dfy` (`Cursors`) is a posting-list cursor over a sorted list with a
  block-max table. It holds the termination measure of the loop.
- `ordering.dfy` (`Ordering`) is the `ordered_cursors` array of handles.
  - It includes the permutation and sortedness predicates.
  - It includes the bubble pass and the full sort.
- `topk_queue.dfy` (`TopkQueues`) is the bounded collector the loop feeds.
- `block_max_wand.dfy` (`BlockMaxWand`) holds class `BlockMaxWandQuery`: the
  loop, its branches, and `topk`, `secondary_topk` and `clear_topk`.
- `payload_vector.dfy` (`PayloadVectors`) covers the builder, the iterator
  class, the vector and the parser.
- `posting_format_header.dfy` (`PostingFormatHeaders`) covers the header
  codec and both little-endian writers.
- `strict_sequence.dfy` (`StrictSequences`) covers codec selection, the
  bit-vector builder and the enumerator's type choice.
- `estimation_bytes.dfy` (`EstimationBytes`) covers `VarByteEncoding`.

## Model

| member | source | states |
|---|---|---|
| Cursors.Cursor.Docid | include/pisa/query/algorithm/block_max_wand_query.hpp:42 | the current document, below the universe exactly while the cursor is not exhausted, the universe (sentinel) after |
| Cursors.Cursor.Next | include/pisa/query/algorithm/block_max_wand_query.hpp:99 | `next()` keeps the posting list, never moves back, and strictly raises the docid of a cursor that is not exhausted |
| Cursors.Cursor.NextGeq | include/pisa/query/algorithm/block_max_wand_query.hpp:111 | `next_geq(t)` skips only postings below `t`, lands at or beyond `t` (or exhausts), and is the identity when already at or past `t` |
| Cursors.Cursor.BlockMaxNextGeq | include/pisa/query/algorithm/block_max_wand_query.hpp:67 | `block_max_next_geq(t)` keeps the posting position and skips only blocks ending before `t`, stopping at a block reaching `t` or the last block |
| Cursors.Cursor.Refreshed | include/pisa/query/algorithm/block_max_wand_query.hpp:66-67 | the refresh moves the block only when it ends before the pivot, never the posting, and afterwards the block reaches the pivot or is the last one |
| Cursors.Remaining | include/pisa/query/algorithm/block_max_wand_query.hpp:34-164 | a cursor's distance to `max_docid` is zero exactly when it is at or past `max_docid` |
| Cursors.TotalRemainingDecreases | include/pisa/query/algorithm/block_max_wand_query.hpp:34-164 | when no cursor moves back and one below `max_docid` moves forward, the sum of distances to `max_docid` strictly drops: the loop's termination measure |
| Cursors.TotalRemainingNonIncreasing | include/pisa/query/algorithm/block_max_wand_query.hpp:34-164 | cursors moving forward never raise the termination measure |
| Cursors.NextGeqMonotone | include/pisa/query/algorithm/block_max_wand_query.hpp:111 | two `next_geq` calls with rising targets act as the second one alone |
| Ordering.Identity | include/pisa/query/algorithm/block_max_wand_query.hpp:19-23 | the initial vector holds the handle of every cursor, in order, and is a permutation of them |
| Ordering.Swap | include/pisa/query/algorithm/block_max_wand_query.hpp:116 | `std::swap` exchanges two entries and keeps the multiset of handles |
| Ordering.PermutationFacts | include/pisa/query/algorithm/block_max_wand_query.hpp:19-23 | a permutation of the handles names each cursor exactly once |
| Ordering.BubbleForward | include/pisa/query/algorithm/block_max_wand_query.hpp:113-120 | the bubble pass after one cursor moved restores docid order from that position on, leaves the earlier entries alone, and keeps the same handles |
| Ordering.SortCursors | include/pisa/query/algorithm/block_max_wand_query.hpp:25-30 | `sort_cursors` leaves the handles sorted by docid and a permutation of what they were |
| TopkQueues.InsertSortedKeepsOrder | include/pisa/query/algorithm/block_max_wand_query.hpp:102 | inserting into the collector's entries keeps them best first |
| TopkQueues.InsertSortedDominates | include/pisa/query/algorithm/block_max_wand_query.hpp:102 | an insert never lowers the score at any rank |
| TopkQueues.AfterInsert | include/pisa/query/algorithm/block_max_wand_query.hpp:102 | the collector grows by one until it holds k entries and then stays at k |
| TopkQueues.AfterInserts | include/pisa/query/algorithm/block_max_wand_query.hpp:102-103 | after any run of inserts the collector still holds at most k entries |
| TopkQueues.ThresholdMonotone | include/pisa/query/algorithm/block_max_wand_query.hpp:47 | a score the collector refuses stays refused after any insert: the threshold never drops |
| TopkQueues.TopkQueue.constructor | include/pisa/query/algorithm/block_max_wand_query.hpp:9 | a fresh collector of capacity k is empty |
| TopkQueues.TopkQueue.WouldEnter | include/pisa/query/algorithm/block_max_wand_query.hpp:47 | `would_enter` admits every score while fewer than k entries are held, and nothing at capacity 0 |
| TopkQueues.TopkQueue.Insert | include/pisa/query/algorithm/block_max_wand_query.hpp:102-103 | `insert` leaves the entries given by `AfterInsert` and logs the pair |
| TopkQueues.TopkQueue.Clear | include/pisa/query/algorithm/block_max_wand_query.hpp:171 | `clear` empties the collector and keeps its capacity |
| TopkQueues.TopkQueue.Topk | include/pisa/query/algorithm/block_max_wand_query.hpp:167 | `topk()` returns at most k entries, best first |
| BlockMaxWand.MinBlockEndIsMinimum | include/pisa/query/algorithm/block_max_wand_query.hpp:136-142 | the scan over `0..pivot` yields the least `block_max_docid` there, capped at `max_docid` |
| BlockMaxWand.TiedAreScorable | include/pisa/query/algorithm/block_max_wand_query.hpp:79-82 | every cursor tied at the pivot is a live posting that can be scored |
| BlockMaxWand.TiedAdvancePassesPivot | include/pisa/query/algorithm/block_max_wand_query.hpp:95-100 | after the tied cursors take one `next()` each, every cursor is beyond the pivot |
| BlockMaxWand.StepDecreases | include/pisa/query/algorithm/block_max_wand_query.hpp:65-163 | a refresh followed by a branch that moves one cursor forward lowers the termination measure |
| BlockMaxWand.SecondaryCount | include/pisa/query/algorithm/block_max_wand_query.hpp:87-93 | the secondary score covers one cursor fewer than the primary exactly when the scoring loop was cut |
| BlockMaxWand.TurnInserts | include/pisa/query/algorithm/block_max_wand_query.hpp:74-105 | a turn inserts exactly one entry per collector, both for the pivot and below `max_docid`, when it evaluated the pivot, and nothing otherwise; an evaluated pivot was the docid of cursor 0 and every cursor ends past it |
| BlockMaxWand.TurnFed | include/pisa/query/algorithm/block_max_wand_query.hpp:74-105 | one turn keeps the inserts the same documents in both collectors, below `max_docid` and strictly increasing, and keeps the cursors beyond the last insert |
| BlockMaxWand.TraceFed | include/pisa/query/algorithm/block_max_wand_query.hpp:34-164 | over any trace of turns, the inserts are the same documents in both collectors, below `max_docid`, in strictly increasing docid order, and the final cursors are beyond the last of them |
| BlockMaxWand.TracePrefix | include/pisa/query/algorithm/block_max_wand_query.hpp:34-164 | the turns before the last one form a trace ending where the last turn starts |
| BlockMaxWand.TraceExtend | include/pisa/query/algorithm/block_max_wand_query.hpp:34-164 | a trace followed by a turn that starts where it ends, and sees the collector after its inserts, is a trace whose inserts are the old ones then the turn's |
| BlockMaxWand.AfterInsertsAppend | include/pisa/query/algorithm/block_max_wand_query.hpp:102-103 | inserting two runs of entries one after the other is inserting their concatenation |
| BlockMaxWand.BlockMaxWandQuery.constructor | include/pisa/query/algorithm/block_max_wand_query.hpp:9 | the query holds the two distinct collectors it is given |
| BlockMaxWand.BlockMaxWandQuery.FindPivot | include/pisa/query/algorithm/block_max_wand_query.hpp:36-56 | `IsPivot`: `first` is the first position whose running `max_score()` sum would enter the collector, with every earlier cursor below `max_docid` and not qualifying; `pivot_id` is its docid, below `max_docid`, and `pivot` is the last position tied with it. Without a pivot, `pivot_id` stays `max_docid` and no prefix below `max_docid` qualifies (`NoPivot`) |
| BlockMaxWand.BlockMaxWandQuery.RefreshBlocks | include/pisa/query/algorithm/block_max_wand_query.hpp:63-72 | every cursor in `0..pivot` whose block ends before the pivot is moved by `block_max_next_geq(pivot_id)` before its weighted block maximum is summed |
| BlockMaxWand.BlockMaxWandQuery.ScorePivot | include/pisa/query/algorithm/block_max_wand_query.hpp:77-94 | `ScoredPrefix`: the scored cursors are a prefix of the tied ones, every refined bound before the last one scored still enters, and the loop is cut exactly at the first that does not; `score` is the exact sum of the scored cursors' `score()`, and `second_score` sums `secondary_score()` over all of them but the one that caused the cut |
| BlockMaxWand.BlockMaxWandQuery.AdvanceTied | include/pisa/query/algorithm/block_max_wand_query.hpp:95-100 | every cursor at the pivot gets exactly one `next()`, even after a partial-scoring break; the others stay put |
| BlockMaxWand.BlockMaxWandQuery.AdvancePastPivot | include/pisa/query/algorithm/block_max_wand_query.hpp:95-105 | `TiedAdvanced`: exactly the cursors tied at the pivot take one `next()`, the others are unchanged; after the re-sort the loop state holds again and all cursors are past the pivot |
| BlockMaxWand.BlockMaxWandQuery.EvaluatePivot | include/pisa/query/algorithm/block_max_wand_query.hpp:76-105 | full evaluation (`Resolves` with `FullEvaluation`): the primary collector gets exactly `(ScoreSum(scored), pivot_id)` and the secondary exactly `(SecondarySum(scored - 1 if cut else scored), pivot_id)`, each by `AfterInsert`; the tied cursors take one `next()` each, every cursor ends past the pivot, and the order is restored |
| BlockMaxWand.BlockMaxWandQuery.FindLagging | include/pisa/query/algorithm/block_max_wand_query.hpp:108-110 | `Lagging`: the result is the highest position in `0..pivot` whose docid differs from the pivot; every position after it up to the pivot is at the pivot |
| BlockMaxWand.BlockMaxWandQuery.ChooseSkipList | include/pisa/query/algorithm/block_max_wand_query.hpp:124-134 | `Heaviest`: a position in `0..pivot` with the largest `max_score()`; the pivot unless an earlier one is strictly larger, and otherwise the first maximum |
| BlockMaxWand.BlockMaxWandQuery.EarliestBlockEnd | include/pisa/query/algorithm/block_max_wand_query.hpp:136-142 | the loop computes the least block end over `0..pivot` |
| BlockMaxWand.BlockMaxWandQuery.SkipTarget | include/pisa/query/algorithm/block_max_wand_query.hpp:136-151 | `next` is exactly `SkipTo`: one past the least block end in `0..pivot` (from `max_docid`), lowered to the docid after the pivot when that is smaller, then raised to `pivot_id + 1` when not beyond the pivot; hence always above `pivot_id` |
| BlockMaxWand.BlockMaxWandQuery.AdvanceOne | include/pisa/query/algorithm/block_max_wand_query.hpp:111-120 | `next_geq` on one cursor followed by the bubble pass changes only that cursor and restores the loop state |
| BlockMaxWand.BlockMaxWandQuery.AdvanceLagging | include/pisa/query/algorithm/block_max_wand_query.hpp:107-121 | `next_list` is the `Lagging` position (the highest in `0..pivot` not at the pivot), and the cursors are the old ones with exactly that cursor replaced by its `next_geq(pivot_id)`; it was below `max_docid` and moves strictly forward, and the order is restored |
| BlockMaxWand.BlockMaxWandQuery.SkipPruned | include/pisa/query/algorithm/block_max_wand_query.hpp:123-163 | `next_list` is the `Heaviest` position of `ChooseSkipList`, `next` is `SkipTo`, and the cursors are the old ones with exactly that cursor replaced by its `next_geq(next)`; it moves strictly forward and the order is restored |
| BlockMaxWand.BlockMaxWandQuery.ResolvePivot | include/pisa/query/algorithm/block_max_wand_query.hpp:74-163 | the pivot is inserted exactly when `would_enter(block_upper_bound)` holds and cursor 0 is at the pivot; `Resolves` names the branch taken: full evaluation with its exact inserts, the lagging move when the bound enters but cursor 0 lags, and the pruning skip when the bound does not enter, each with its exact cursor update and no insert |
| BlockMaxWand.BlockMaxWandQuery.StepAt | include/pisa/query/algorithm/block_max_wand_query.hpp:63-163 | the refresh (`RefreshedUpTo`) followed by the branch `Resolves` decides on `block_upper_bound` summed over the refreshed cursors; the collectors receive exactly the branch's inserts, and the termination measure strictly drops |
| BlockMaxWand.BlockMaxWandQuery.Step | include/pisa/query/algorithm/block_max_wand_query.hpp:34-163 | one iteration: with no pivot nothing changes and `NoPivot` holds; otherwise the turn `t` is the pivot search, refresh and branch (`IsTurn`) from the state before, the collectors receive exactly `t`'s inserts, and the measure drops |
| BlockMaxWand.BlockMaxWandQuery.OrderCursors | include/pisa/query/algorithm/block_max_wand_query.hpp:19-32 | set-up: the handles of all cursors, sorted by docid |
| BlockMaxWand.BlockMaxWandQuery.RunLoop | include/pisa/query/algorithm/block_max_wand_query.hpp:19-164 | the loop terminates; `turns` is a `Trace`: consecutive turns chain the cursors, each sees the collector after the earlier turns' inserts, and the logs and entries are exactly those inserts; it exits only when no pivot exists, and the inserts are the same documents in both collectors, below `max_docid`, strictly increasing (`Fed`) |
| BlockMaxWand.BlockMaxWandQuery.Run | include/pisa/query/algorithm/block_max_wand_query.hpp:12-165 | on an empty range it returns at once with no turns, touching neither the cursors nor the collectors; otherwise the `Trace`, the exact inserts, `Fed` and the exit condition of `RunLoop` |
| BlockMaxWand.BlockMaxWandQuery.Topk | include/pisa/query/algorithm/block_max_wand_query.hpp:167 | `topk()`: at most k entries of the primary collector, best first |
| BlockMaxWand.BlockMaxWandQuery.SecondaryTopk | include/pisa/query/algorithm/block_max_wand_query.hpp:169 | `secondary_topk()`: at most k entries of the secondary collector, best first |
| BlockMaxWand.BlockMaxWandQuery.ClearTopk | include/pisa/query/algorithm/block_max_wand_query.hpp:171 | `clear_topk()` empties the primary collector only |
| PayloadVectors.Offsets | include/pisa/payload_vector.hpp:152-165 | n inputs give n + 1 offsets |
| PayloadVectors.Encodings | include/pisa/payload_vector.hpp:157-163 | entry i is the encoder's output for input i |
| PayloadVectors.Make | include/pisa/payload_vector.hpp:152-165 | `make` builds the running prefix of the encoded lengths and the concatenated encodings |
| PayloadVectors.EncodePayloadVector | include/pisa/payload_vector.hpp:180-187 | the default encoder copies each value's bytes unchanged |
| PayloadVectors.OffsetsArePrefixLengths | include/pisa/payload_vector.hpp:160-163 | offset k is the number of bytes of the first k payloads |
| PayloadVectors.FlattenPrefix | include/pisa/payload_vector.hpp:160-163 | the payload bytes of the first k inputs are a prefix of all payload bytes |
| PayloadVectors.MakeShape | include/pisa/payload_vector.hpp:152-165 | the offsets start at 0, end at the payload size, and never decrease |
| PayloadVectors.MakeSlices | include/pisa/payload_vector.hpp:160-163 | consecutive offsets differ by the length of input i's encoding, and the bytes between them are that encoding |
| PayloadVectors.PayloadVector.Size | include/pisa/payload_vector.hpp:295-298 | `size()` is `offsets.size() - 1`, wrapping to 2^64 - 1 on an empty table |
| PayloadVectors.PayloadVector.Payload | include/pisa/payload_vector.hpp:86-90 | payload k spans the gap between offsets k and k + 1 |
| PayloadVectors.PayloadVector.Index | include/pisa/payload_vector.hpp:267-280 | `operator[]` fails as out of range exactly when `idx >= offsets.size()`, and as too large exactly when `offsets[idx] >= payloads.size()`; otherwise it yields payload idx |
| PayloadVectors.PayloadVector.Begin | include/pisa/payload_vector.hpp:283-286 | `begin()` sits at offset 0 and payload 0 |
| PayloadVectors.PayloadVector.End | include/pisa/payload_vector.hpp:288-291 | `end()` sits at the last offset and the end of the payloads |
| PayloadVectors.PayloadVector.Subscript | include/pisa/payload_vector.hpp:267-280 | the checks followed by `*(begin() + idx)` compute `Index(idx)` |
| PayloadVectors.MadeVectorSize | include/pisa/payload_vector.hpp:152-165 | a vector over `make`'s buffer is well formed and its size is the input count |
| PayloadVectors.IndexOfMade | include/pisa/payload_vector.hpp:267-280 | indexing a made vector yields exactly the i-th encoded input when it is non-empty and lies before the end |
| PayloadVectors.IndexRefusesEnd | include/pisa/payload_vector.hpp:267-280 | `idx == size()` is always rejected, and so is a trailing empty payload |
| PayloadVectors.PayloadVectorIterator.constructor | include/pisa/payload_vector.hpp:17-24 | the iterator holds the offset table and both positions it is given |
| PayloadVectors.PayloadVectorIterator.Increment | include/pisa/payload_vector.hpp:26-31 | `++` steps one offset and moves the payload position by that payload's length, keeping it at `offsets[k] - offsets[0]` |
| PayloadVectors.PayloadVectorIterator.PostIncrement | include/pisa/payload_vector.hpp:33-39 | `it++` returns the old position and steps forward |
| PayloadVectors.PayloadVectorIterator.Plus | include/pisa/payload_vector.hpp:52-56 | `it + n` is a new iterator n offsets ahead, differing from `it` by n |
| PayloadVectors.PayloadVectorIterator.AdvanceBy | include/pisa/payload_vector.hpp:59-64 | `+=` moves n offsets ahead and keeps the payload position in step |
| PayloadVectors.PayloadVectorIterator.Minus | include/pisa/payload_vector.hpp:67-71 | `it - n` is a new iterator n offsets back, differing from `it` by n |
| PayloadVectors.PayloadVectorIterator.RetreatBy | include/pisa/payload_vector.hpp:74-77 | `-=` moves n offsets back and keeps the payload position in step |
| PayloadVectors.PayloadVectorIterator.Decrement | include/pisa/payload_vector.hpp:41 | `--` is `-= 1` |
| PayloadVectors.PayloadVectorIterator.PostDecrement | include/pisa/payload_vector.hpp:44-49 | `it--` returns the old position and steps back |
| PayloadVectors.PayloadVectorIterator.Deref | include/pisa/payload_vector.hpp:86-90 | `*it` is the bytes between the current and the next offset, relative to the first offset |
| PayloadVectors.EqualIteratorsAgree | include/pisa/payload_vector.hpp:80-100 | iterators over one table are equal exactly when their difference is 0, and then their payload positions agree |
| PayloadVectors.LittleEndianRoundTrip | include/pisa/payload_vector.hpp:130-138 | reading back the k little-endian bytes of a value below 256^k gives the value |
| PayloadVectors.Fields | include/pisa/payload_vector.hpp:196-202 | the fields unpacked have the requested sizes and together are the front of the memory |
| PayloadVectors.UnpackHead | include/pisa/payload_vector.hpp:192-204 | `unpack_head` fails exactly when the combined size exceeds the memory; otherwise the tail has the remaining length |
| PayloadVectors.Split | include/pisa/payload_vector.hpp:206-207 | `split` fails exactly when the offset is past the end; otherwise it cuts the memory there |
| PayloadVectors.Chunks | include/pisa/payload_vector.hpp:209-218 | a length divisible by 8 cuts into `length / 8` chunks of 8 bytes that rejoin to the memory |
| PayloadVectors.CastSpan | include/pisa/payload_vector.hpp:209-218 | `cast_span<size_type>` fails exactly when the length is not a multiple of 8, and otherwise yields `length / 8` elements |
| PayloadVectors.OffsetTableAligned | include/pisa/payload_vector.hpp:258 | the offset table cut `(length + 1) * 8`, wrapped to 64 bits, is a multiple of 8, so its cast never fails |
| PayloadVectors.FromOutcome | include/pisa/payload_vector.hpp:245-264 | `from` fails on the length exactly when the memory is shorter than 8 bytes, on the table exactly when the cut is past the end, and otherwise yields the decoded table and the rest as payloads |
| PayloadVectors.ChunksUnique | include/pisa/payload_vector.hpp:209-218 | two sequences of 8-byte chunks with the same concatenation are equal |
| PayloadVectors.FromLayout | include/pisa/payload_vector.hpp:245-264 | a length header, a table of the length it announces, and payloads parse to that table and those payloads |
| PayloadVectors.FromSerialized | include/pisa/payload_vector.hpp:245-264 | `from` inverts the layout `[length][offsets][payloads]` for every vector whose values fit in 64 bits |
| PayloadVectors.FromWrapsHugeLength | include/pisa/payload_vector.hpp:258 | a length of 2^61 - 1 wraps the cut to 0, giving an empty offset table whose size wraps to 2^64 - 1 |
| PostingFormatHeaders.LittleEndianRoundTrip | include/pisa/v1/posting_format_header.hpp:155 | the little-endian read of a number's four bytes is the number |
| PostingFormatHeaders.LittleEndianBytesRoundTrip | include/pisa/v1/posting_format_header.hpp:155 | four bytes read and re-encoded are unchanged |
| PostingFormatHeaders.FormatVersion.Parse | include/pisa/v1/posting_format_header.hpp:34-42 | `FormatVersion::parse` takes major, minor and patch from the three bytes in order |
| PostingFormatHeaders.FormatVersion.Write | include/pisa/v1/posting_format_header.hpp:44-49 | `FormatVersion::write` stores the three fields in bytes 0-2 and nothing else |
| PostingFormatHeaders.FormatVersion.Serialized | include/pisa/v1/posting_format_header.hpp:34-49 | parsing the three bytes `write` stores gives back the version |
| PostingFormatHeaders.FormatVersion.Current | include/pisa/v1/posting_format_header.hpp:51 | `current()` is version 0.1.0 |
| PostingFormatHeaders.FormatVersionRoundTrip | include/pisa/v1/posting_format_header.hpp:34-49 | any three bytes parsed and written again are unchanged |
| PostingFormatHeaders.ElementType | include/pisa/v1/posting_format_header.hpp:82-90 | the element type is Int exactly when bit 2 is clear |
| PostingFormatHeaders.ParseType | include/pisa/v1/posting_format_header.hpp:80-103 | the low two bits select primitive Int, primitive Float, Array or Tuple (each both ways); arrays and tuples take the element type from bit 2; a tuple's size is bits 3-7 |
| PostingFormatHeaders.ParseTypeRoundTrip | include/pisa/v1/posting_format_header.hpp:80-141 | `parse_type(to_byte(t)) == t` for every value type whose tuple size is below 32 |
| PostingFormatHeaders.ParseTypeTruncatesSize | include/pisa/v1/posting_format_header.hpp:128-138 | a tuple of 32 or more elements comes back with only the low five bits of its size |
| PostingFormatHeaders.ParseTypeExamples | test/test_v1.cpp:283-290 | the type bytes of the tests decode as the tests expect, including tuple sizes 5 and 8 |
| PostingFormatHeaders.PostingFormatHeader.Parse | include/pisa/v1/posting_format_header.hpp:150-157 | the version comes from bytes 0-2, the type from byte 3, and the encoding from bytes 4-7 read little-endian |
| PostingFormatHeaders.PostingFormatHeader.Write | include/pisa/v1/posting_format_header.hpp:159-165 | `write` as written: it stamps version 0.1.0 and the type byte, and leaves bytes 4-7 as they were |
| PostingFormatHeaders.PostingFormatHeader.Serialized | include/pisa/v1/posting_format_header.hpp:145-166 | the eight-byte layout a header occupies |
| PostingFormatHeaders.PostingFormatHeader.WriteCorrected | include/pisa/v1/posting_format_header.hpp:159-165 | `write` with the intended little-endian store leaves exactly the header's eight bytes |
| PostingFormatHeaders.WriteStampsCurrentAndKeepsOldEncoding | include/pisa/v1/posting_format_header.hpp:159-165 | what `write` leaves parses as version 0.1.0, the header's type, and whatever encoding the buffer held before |
| PostingFormatHeaders.WriteLosesEncoding | include/pisa/v1/posting_format_header.hpp:17-27 | a header with encoding 1 written over zeroed bytes reads back with encoding 0 |
| PostingFormatHeaders.HeaderRoundTrip | include/pisa/v1/posting_format_header.hpp:150-165 | with the intended store, a current-version header round-trips through its bytes |
| PostingFormatHeaders.ParseHeaderExample | test/test_v1.cpp:223-278 | the header bytes of the read tests parse to the versions, types and encodings the tests expect |
| PostingFormatHeaders.MaskedByte | include/pisa/v1/posting_format_header.hpp:22-25 | in round k, masking with `0xFF << 8k` and shifting back gives byte k of the number |
| PostingFormatHeaders.WriteLittleEndian | include/pisa/v1/posting_format_header.hpp:17-27 | `write_little_endian` as written computes each byte and stores none of them |
| PostingFormatHeaders.StoreLittleEndian | include/pisa/v1/posting_format_header.hpp:17-27 | the same loop with the store leaves the four little-endian bytes of the number |
| StrictSequences.StrictParams | include/pisa/sequence/strict_sequence.hpp:24-30 | `strict_params` sets both samplings to 63 and keeps every other field |
| StrictSequences.StrictParamsIdempotent | include/pisa/sequence/strict_sequence.hpp:24-30 | applying `strict_params` twice is the same as once |
| StrictSequences.Tagged | include/pisa/sequence/strict_sequence.hpp:38 | `cost + type_bits` in `uint64_t` is the plain sum when it does not overflow |
| StrictSequences.Bitsize | include/pisa/sequence/strict_sequence.hpp:32-49 | `bitsize` is the least of the all-ones cost and the tagged Elias-Fano and ranked-bitvector costs |
| StrictSequences.Selected | include/pisa/sequence/strict_sequence.hpp:59-75 | all-ones is chosen exactly when it costs 0 or no tagged cost is strictly below it; Elias-Fano exactly when it is strictly below all-ones and no dearer than ranked bitvector; ranked bitvector exactly when strictly below both |
| StrictSequences.SelectedCostIsBitsize | include/pisa/sequence/strict_sequence.hpp:35-75 | `write` and `bitsize` agree: the cost of the selected type is `bitsize` |
| StrictSequences.Tag | include/pisa/sequence/strict_sequence.hpp:63-77 | the tag is empty when the all-ones cost is 0, and `type_bits` long otherwise |
| StrictSequences.BitVectorBuilder.AppendBits | include/pisa/sequence/strict_sequence.hpp:76 | `append_bits(v, len)` appends the low `len` bits of v |
| StrictSequences.Write | include/pisa/sequence/strict_sequence.hpp:51-87 | `write` appends the tag and then the selected codec's bits under the strict parameters |
| StrictSequences.TagType | include/pisa/sequence/strict_sequence.hpp:107-123 | a one-bit tag names Elias-Fano or ranked bitvector, never all-ones, so the `Unsupported type` branch is out of reach |
| StrictSequences.DecodedType | include/pisa/sequence/strict_sequence.hpp:104-108 | the enumerator picks all-ones exactly when the all-ones cost is 0 |
| StrictSequences.Enumerator.constructor | include/pisa/sequence/strict_sequence.hpp:95-125 | the enumerator's type is the decoded one, and its inner enumerator starts at `offset + type_bits` in every case, all-ones included |
| StrictSequences.WriteThenDecode | include/pisa/sequence/strict_sequence.hpp:51-125 | reading at the offset where `write` began gives back the selected type, unless all-ones was selected at a nonzero cost |
| StrictSequences.AllOnesTagReadsAsEliasFano | include/pisa/sequence/strict_sequence.hpp:61-76 | all-ones selected at a nonzero cost writes a tag that reads back as Elias-Fano |
| EstimationBytes.Int32 | include/pisa/estimationBytes.cpp:41-42 | the 32-bit `int` holding the same bits: a `uint32_t` in `int`, or a wrapped difference |
| EstimationBytes.GapBytes | include/pisa/estimationBytes.cpp:44-48 | every gap costs at least one byte |
| EstimationBytes.Gaps | include/pisa/estimationBytes.cpp:36-43 | there is one gap per posting |
| EstimationBytes.VarByteEncoding | include/pisa/estimationBytes.cpp:35-52 | the loop returns the summed byte counts of the gaps, with the first posting measured from 0 |
| EstimationBytes.EmptyCostsNothing | include/pisa/estimationBytes.cpp:35-51 | an empty list costs 0 bytes |
| EstimationBytes.SumBytesAtLeastLength | include/pisa/estimationBytes.cpp:48 | a list of gaps costs at least one byte per gap |
| EstimationBytes.AtLeastOneBytePerPosting | include/pisa/estimationBytes.cpp:48 | the estimate is at least the list length |
| EstimationBytes.SmallGapOneByte | include/pisa/estimationBytes.cpp:44-48 | a gap below 128, negative ones included, costs exactly one byte |
| EstimationBytes.GapBytesIsDigitCount | include/pisa/estimationBytes.cpp:44-47 | a non-negative gap costs its number of base-128 digits |
| EstimationBytes.SortedGapsAreDifferences | include/pisa/estimationBytes.cpp:36-43 | on a non-decreasing list below 2^31 the gaps are the plain differences, from 0 for the first posting |
| EstimationBytes.WrappedPostingCostsOneByte | include/pisa/estimationBytes.cpp:41-48 | a posting of 2^31 reads as a negative `int` and costs one byte, where its true gap would cost five |

## Left out

- The numerics of Block-Max WAND are not modelled. Scores and bounds are `real`s, so the rounding of `float` and `double` accumulation is absent.
- `topk_queue` is modelled as a sorted list with a log of inserts, because its header is not part of this model.
  - `would_enter` admits while fewer than k entries are held, and otherwise admits a score strictly above the k-th.
  - Its heap is not claimed.
- The concrete cursor classes are not part of this model. A cursor is a sorted posting list with a block-max table, and it returns its universe as a sentinel once exhausted.
- `BlockMaxWand.BlockMaxWandQuery.Run` requires every cursor's universe to reach `max_docid`. The loop's termination rests on exhausted cursors reading at or beyond `max_docid`.
- `Ordering.SortCursors` stands for `std::sort` with an insertion sort. Only its result is claimed (sorted and a permutation), not its algorithm or stability.
- `BlockMaxWand.BlockMaxWandQuery.EvaluatePivot` performs the two inserts before the tied cursors take their `next()`, where the source inserts after them. The inserts touch only the collectors and `next()` touches only the cursors, so the final state is the same.
- `BlockMaxWand.BlockMaxWandQuery.RunLoop` does not fix the order `sort_cursors` gives to cursors tied at one docid. Each turn of the trace records the order it started from.
- The cursor pointers of `ordered_cursors` are indices into the caller's cursor array.
- The Payload_Vector file and stream I/O is left out: `from_file`, `to_file`, `to_stream` and `encode_payload_vector(span<string>)` are declared without bodies.
- `split` is declared without a body. `PayloadVectors.Split` gives it the evident meaning: it fails when the offset is past the end, and otherwise cuts there.
- `PayloadVectors.Decode`: the raw-memory reads (`reinterpret_cast`, `detail::unpack`) are modelled as little-endian byte decoding of 8-byte `size_type` values.
  - `operator*` yields bytes rather than a `Payload_View`.
  - The templated payload encoders are functions from an input to bytes.
- `PayloadVectors.PayloadVector.Index` requires a well-formed vector: offsets start at 0, never decrease, and end at the payload size. A vector parsed by `from` from arbitrary bytes need not be well formed, and indexing one that is not is not modelled.
- `PayloadVectors.PayloadVector.Subscript` has the same requirement, for the same reason.
- The iterator's signed `difference_type` is not modelled: `Difference` is an unbounded integer.
- `PostingFormatHeaders.PostingFormatHeader.Parse` stands for `bit_cast`, which is not part of this model. The encoding is read little-endian, as the tests expect.
- `value_type<T>()` is left out. It is a compile-time type trait with no run-time behaviour to model.
- The three codecs of `strict_sequence` (strict Elias-Fano, compact ranked bitvector, all-ones) are not part of this model.
  - Each is given as its bit-size function and the bits its writer appends.
  - The delegation of `move`, `next`, `size` and `prev_value` through `boost::variant` is left out.
- `global_parameters` is not part of this model. Only the two fields `strict_params` sets are named; the rest are carried as an opaque sequence.
- `bit_vector::get_word56` and `bit_vector_builder` are not part of this model.
  - The tag is read as the bit at `offset`, least significant first.
  - `append_bits` appends the low bits of its value.
- `EstimationBytes.VarByteEncoding`: signed overflow of `current - last` is undefined behaviour in C++. It is modelled as 32-bit wrap-around.
  - The overflow of `countBytes` past 2^31 - 1 is not modelled: the count is unbounded.
  - The `std::cout` tracing inside the loop is left out.
- The rest of `estimationBytes.cpp` is left out:
  - `GammaEncoding` uses floating-point `log2`.
  - `max` does not terminate.
  - `Simple9`, `blockSizePFD` and `OptPFD` build on `max` or on floating point.
  - `writeBytes` writes to a file.

## Findings

| source | as written | input that shows it | evidently intended | confidence | as-written member | corrected member |
|---|---|---|---|---|---|---|
| include/pisa/v1/posting_format_header.hpp:17-27 | `write_little_endian` computes each `byte_value` but never stores it, so `PostingFormatHeader::write` leaves bytes 4-7 untouched | a header with encoding 1 written into eight zero bytes parses back with encoding 0 | each byte is stored at `bytes[byte_num]`, so that `parse(write(h))` gives back the encoding | not executed | PostingFormatHeaders.WriteLosesEncoding | PostingFormatHeaders.HeaderRoundTrip |
