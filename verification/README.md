# piggy_engine, modelled and verified

piggy_engine is a small search engine in the manner of Lucene. Its hard parts
each have a plain specification (a set, an ascending list, a map, a ranking by
brute force) and a fast implementation with state. This project models those
parts as the program has them and proves the one against the other.

`dafny verify dfyconfig.toml` checks everything.

## How the model is laid out

| file | what it models | main results |
|---|---|---|
| Prelude, Sorting, Ranking, Bits | document ids, sums, the definition of a best-k ranking and which documents one can hold, stand-ins for `std::sort` and `std::lower_bound`, little-endian fields | a document is in every best k exactly when fewer than k others score as much |
| BitPacking, PForDelta, SkipLists, DiskPostings, PosFiles, Layout | compressed posting lists, position lists, the lazy cursors over them, and what stands at which byte | round trips; the bytes themselves; the cursor is a plain ascending list |
| Arena, MemoryPages, StoredFields, TermHashTable, MemorySegments, MemoryPostings | the real-time memory index | it is a map from terms to postings; stored fields come back; token counts are conserved |
| Postings, Scorers, WandTheory, WandRuns, Wand | cursors and the ranked union, whose loop is a machine with runs | when a run ends with a best-k ranking, exactly, and what guarantees it beforehand |
| Queries, Delivery, Compilation, Search, MergeResults | queries, the trees they compile to, searching a segment, merging hit lists | every tree delivers what its clauses deliver, put together; when that is what the query means, and exactly when a union that is cut short is not, at the top or below other clauses |
| Counterexamples | two searches that go wrong, on lists and segments that exist | block tests miss the best document; an exclusion empties a cut union |
| Bm25, Bounds, Flush, TimFiles, FieldFlush | scores and the bounds stored for them, flushing a field and opening it again | score <= block bound <= list bound, and exactly when not; the dictionary patched in place is read back, and gives the average length the flush used |
| Realtime, RealtimeOrder | freeze, flush, merge, commit and snapshot as interleaved steps | every document is visible exactly once, in every run; segments are flushed first in, first out |
| KwayMerge, SegmentMerge | segment merge | order-preserving renumbering of live postings; stored documents and columns move with them |
| ParallelBuild, BuildOrder | bounded queue, workers, group merge as interleaved steps | documents are conserved, except for those without a term; exactly when one of these can be dropped |

Classes of the program are classes here, with the program's fields; loops are
loops; a protocol between threads is a state machine whose steps are the lock
sections and atomic increments of the source.

Some choices hold throughout:

- Scores and norms are reals. Floats that are stored are 32-bit patterns, which
  a function `f32` turns into reals; the inverse document frequency is a
  non-negative parameter.
- The scorer class hierarchy is one class `Scorer` with a `kind`, and the three
  posting cursors are one class `PostingCursor`, because every kind obeys one
  contract: a set `rem` of documents still to deliver, a current document that
  is the first of them, and an immutable view of scores and bounds.
- A priority queue is a sequence with its least element found or kept in front;
  `std::sort` is an insertion sort, one of the orders it may produce.
- A file is a byte sequence. Padding in structs is written as zeros.
- Counters are unbounded except where 32-bit or 8-bit wrap-around or
  saturation shows: document deltas, one-byte block counts, frequency bytes,
  16-bit lengths, offsets into the arena.
- The hash of a term is any function to positive numbers. The table's capacity
  need not be a power of two; masking with `capacity - 1` becomes `%`.
- A document handed to an indexing thread is an arbitrary token, accepted once.
- Thrown exceptions are results (`ok` flags, `Result`).

## What turned out to be narrower than intended

- The design (design/blockmax_wand.md:142) wants the same results with block
  tests as without; the code does not always keep to that, and the code is
  modelled. `skipBlock` moves each cursor past its own block end. A skip tears
  a document, taking it from one cursor and leaving it with another, exactly
  when the document lies inside the block of one cursor, at some worth, and
  beyond the block of the other (`WandRuns.TornIff`). A share lost that way is lost for good
  (`WandRuns.LostForGood`). On two real lists, of 257 and of 3 documents, the
  best document is found without block tests and missed with them, although
  all bounds are true (`Counterexamples.SplitExample`); every run over these
  lists goes that way, however ties are broken (`Counterexamples.SplitRun`).
  A run over true bounds ends with a best-k ranking if and only if each
  document it has torn has k rivals, documents that score at least as much,
  among those it has not (`WandRuns.RunExactIff`). A caller can rule a tear out before the run: block
  tests are off or cannot succeed, as over memory segments, no two cursors
  share a document, or the blocks are in step (`WandRuns.SafeClean`).
- A ranked union inside a tree is cut to `top_k` before exclusions apply, and
  which of several tied candidates it keeps is left to the heap. If it ranks
  exactly and its clauses are not cut themselves, the search finds the best of
  what the query means, whatever best choice the union makes, if and only if
  every excluded candidate is outscored by `top_k` candidates, or every answer
  has fewer than `top_k` rivals among the candidates
  (`Deliveries.UnionExactIff`); once the choice is made, if and only if all
  hits kept are answers or all answers were kept (`Deliveries.UnionFoundIff`).
  `Counterexamples.CutExample` is a memory segment of two documents and a query
  for which the search finds nothing although a document matches. Where unions
  that rank exactly are cut below MUST clauses too, the search is right if and
  only if every answer they lost has `top_k` rivals among those delivered
  (`Deliveries.PlainlyFoundIff`). A union is complete exactly when it fits
  (`Wand.CompleteIffFits`), a tree whose unions fit means its query
  (`Deliveries.DeliversMeaning`), and a tree without SHOULD always fits
  (`Queries.NoShouldFits`).
- `searchImpl` with a negative `top_k` throws exactly when the tree has to be
  driven: when there are MUST clauses and all deliver something without the
  help of a union, or there are none and a union has something to exclude.
  Otherwise it finds nothing (`Search.SearchImpl`).
- `RealtimeIndexManager::stop` leaves one empty memory reader behind for each
  thread whose last segment held documents (`Realtime.AfterStop`,
  `Realtime.LeftoverExample`).
- The merge key `(segment << 20) | doc` repeats from document 2^20 on in every
  segment with an odd id (`SegmentMerge.LargeKeysClash`). The table is exact
  exactly when no two live documents share a key (`SegmentMerge.RemapIff`), and
  right about dead ones too exactly when no stored document shares a key with
  the live document of another place (`SegmentMerge.TableRightIff`).
- Two fields get a key in common exactly when the name of one, with a `:`
  behind it, starts the name of the other (`MemorySegments.KeysClashIff`). A
  flush takes keys apart at the first `:` and so finds the field again exactly
  when its name has none (`Flush.SplitsBackIff`).
- A merge multiplies the list bound by the inverse document frequency, which a
  search does once more: the bound is true if and only if that factor is at
  least one (`Bounds.MergedSoundIff`).
- A merge takes an unknown field length for the average, a search for zero, so
  that block bounds of such documents are too small (`Bounds.LengthMustBeKnown`).
  Lengths get lost for documents of the parallel build whose id from the shared
  counter is larger than the number of documents of their temporary segment
  (`Bounds.LengthComesBack`).
- A worker of the parallel build does not reset its document counter at a
  flush: what it writes from the second flush on uses too small an average
  (`Bounds.WorkerAverage`).
- Documents without any indexed term that are buffered behind a worker's last
  flush are dropped (`ParallelBuild.Outcome`, `ParallelBuild.DroppedExample`).
  If the queue takes anything in, some run over given documents, under some
  memory threshold, drops one if and only if one of them has no term, where
  there are several workers, or the last has none, where there is one
  (`ParallelBuild.DropsIff`).
- `MemoryPostingIterator::next` revives a cursor that a failed `advance` ended
  (`MemoryPostings.MemoryPostingIterator.Next`); no scorer calls it then.

## Model

| member | source | states |
|---|---|---|
| BitPacking.PackBits | modules/codec/src/pfor_delta.cpp:13-37 | appends exactly ceil(n*b/8) bytes after what was there; the bits of the k-th value stand at bit k*b |
| BitPacking.UnpackBits | modules/codec/src/pfor_delta.cpp:39-60 | reads the count values that stand back to back in the data |
| BitPacking.PackedBack | modules/codec/src/pfor_delta.cpp:13-60 | unpacking what was packed gives the values back when b bits hold each of them |
| BitPacking.BitAtIs | modules/codec/src/pfor_delta.cpp:13-60 | bit p of packed bytes is bit p mod 8, by its worth, of byte p / 8 |
| Bits.LowestFirst | modules/codec/src/skiplist.cpp:84-108 | a 16-bit or 32-bit field has its lowest byte first |
| Bits.LongLowestFirst | modules/codec/src/skiplist.cpp:84-108 | and so has a 64-bit field |
| PForDelta.ChooseBitWidth | modules/codec/src/pfor_delta.cpp:66-81 | the least width from 1 to 32 at which at least nine tenths of the deltas fit: at this width ten times those that fit are at least nine times all, at any smaller one they are fewer; 1 for none |
| PForDelta.PlusUndoesMinus | modules/codec/src/pfor_delta.cpp:103-108 | 32-bit subtraction and addition undo each other, for any two ids, ascending or not |
| PForDelta.SumsOfDeltas | modules/codec/src/pfor_delta.cpp:210-220 | prefix sums of the deltas are the ids again |
| PForDelta.SplitExceptions | modules/codec/src/pfor_delta.cpp:114-128 | a delta up to the maximum is kept, one above it becomes zero and a patch with its place and value, in order, and there are no other patches; patching restores the deltas |
| PForDelta.CompressBlock | modules/codec/src/pfor_delta.cpp:99-157 | one block after what was there: it decodes to its documents, carries its score, has at most a tenth of its deltas as patches, and is laid out byte by byte as the format says |
| PForDelta.BlockLaidOut | modules/codec/src/pfor_delta.cpp:130-157 | behind 16 bytes of header stand the gaps between the documents, back to back at the chosen width, a zero for each that is too large; behind them six bytes for each of those, its place and the gap itself, in order |
| PForDelta.BlocksAre | modules/codec/src/pfor_delta.cpp:92-98 | block i of a list is its documents from 128 i on, 128 of them or what is left |
| PForDelta.BlockFits | modules/codec/src/pfor_delta.cpp:176-182 | read at a block's start, the size worked out from the header is the distance to the next block |
| PForDelta.DecompressBlock | modules/codec/src/pfor_delta.cpp:188-223 | appends the documents the block stands for and consumes as many bytes as the header says |
| PForDelta.Compress | modules/codec/src/pfor_delta.cpp:87-170 | for any list of 32-bit ids: blocks of 128 back to back, and one skip node per block with its offset, largest document, count and score |
| PForDelta.Decompress | modules/codec/src/pfor_delta.cpp:229-242 | decompressing what was compressed gives the ids back, whatever their number; fewer wanted documents are rounded up to whole blocks |
| PForDelta.NodeFits | modules/codec/src/pfor_delta.cpp:159-164 | the offset in the i-th skip node decodes to exactly the i-th slice of 128 documents |
| SkipLists.BuildLevel1 | modules/codec/src/skiplist.cpp:18-37 | level 1 has a node per 128 nodes, with the first offset, the last largest document and the best score, and is missing for up to 128 |
| SkipLists.SkipList.Find | modules/codec/src/skiplist.cpp:43-74 | the block a scan over all blocks would find, and not found exactly when the scan finds none |
| SkipLists.SkipList.Serialize | modules/codec/src/skiplist.cpp:84-108 | counts and nodes in the on-disk layout |
| SkipLists.Deserialize | modules/codec/src/skiplist.cpp:110-134 | an error below 8 bytes; whatever list was serialised comes back |
| SkipLists.BytesBack | modules/codec/src/skiplist.cpp:84-134 | the nodes read from the serialised form are the list's two levels |
| Layouts.SkipNodeLayout | modules/codec/src/skiplist.cpp:84-108 | a node is 24 bytes: document at 0, four bytes of padding, offset at 8, score at 16, count at 20 |
| Layouts.SkipListLayout | modules/codec/src/skiplist.cpp:84-108 | the two counts stand first, then the nodes of level 0, then those of level 1 |
| Layouts.Level1Layout | modules/codec/src/skiplist.cpp:18-37 | node g of level 1 starts where block 128 g starts, ends with the last document of its last block, and has the best of their scores |
| DiskPostings.WriteTerm | modules/index/src/segment_writer.cpp:304-379 | appends skip list, blocks and one saturated frequency byte per document, one right behind the other, keeps the file before, and says where each of them is |
| DiskPostings.SaturatesAt255 | modules/index/src/segment_writer.cpp:348-353 | the frequency byte is the largest one not above the frequency |
| DiskPostings.WrittenKept | modules/index/src/segment_writer.cpp:304-379 | terms written later leave a written term as it is |
| DiskPostings.ReadSkipList | modules/store/src/posting_iterator.cpp:43-52 | the skip list read from the file is the one that was written |
| DiskPostings.NodeOnDisk | modules/store/src/posting_iterator.cpp:92-108 | at the offset of the k-th skip node the file holds the k-th block, complete, followed by the next one |
| DiskPostings.PostingIterator.constructor | modules/store/src/posting_iterator.cpp:37-67 | opens on the first document of the written list, with all of it still to come |
| DiskPostings.PostingIterator.ReadBlock | modules/store/src/posting_iterator.cpp:95-108 | reads exactly the next block off the file and ends where the block after it starts |
| DiskPostings.PostingIterator.LoadNextBlock | modules/store/src/posting_iterator.cpp:92-133 | loads the next block without passing a document; false exactly when none remains |
| DiskPostings.PostingIterator.Next | modules/store/src/posting_iterator.cpp:139-151 | moves to the successor in the list, across blocks; end is reached exactly after the last document |
| DiskPostings.PostingIterator.ScanBlock | modules/store/src/posting_iterator.cpp:73-86 | first document at or after the target in the rest of the block, with everything passed before the target |
| DiskPostings.PostingIterator.SeekToBlock | modules/store/src/posting_iterator.cpp:169-214 | jumps with the skip list, never backwards, over documents before the target only |
| DiskPostings.PostingIterator.Advance | modules/store/src/posting_iterator.cpp:157-163 | what is left is what was left from the target on, for any target, behind the cursor too; end absorbs |
| DiskPostings.PostingIterator.TfInBlock | modules/store/src/posting_iterator.cpp:116-128 | the frequency byte the cursor takes belongs to the document it takes |
| DiskPostings.PostingIterator.BlockFacts | modules/store/src/posting_iterator.cpp:112-114 | the block bound and block end shown belong to the block the current document is in |
| PosFiles.WritePositionList | modules/memory/src/memory_segment.cpp:429-440 | appends document, frequency and positions of every posting in order, and says where they start |
| Layouts.PosLayout | modules/memory/src/memory_segment.cpp:429-440 | posting i starts behind the words of those before it: document, number of positions, the positions |
| PosFiles.PosIterator.constructor | modules/store/src/pos_iterator.cpp:6-17 | opens on the first posting of a written list with all of it to come |
| PosFiles.PosIterator.LoadNext | modules/store/src/pos_iterator.cpp:19-31 | reads exactly the next posting off the file, or ends after the last |
| PosFiles.PosIterator.Next | modules/store/src/pos_iterator.cpp:33-35 | gives up exactly the current posting |
| PosFiles.PosIterator.TakePositions | modules/store/include/store/pos_iterator.h:41-42 | hands out the positions of the current document once |
| PosFiles.ReadPositionList | modules/index/src/segment_merger.cpp:287-312 | streaming a written list gives its postings back in order, positions included |
| MemoryPostings.MemoryPostingIterator.constructor | modules/memory/src/memory_posting_iterator.cpp:6-18 | stands on the first document |
| MemoryPostings.MemoryPostingIterator.Next | modules/memory/src/memory_posting_iterator.cpp:20-29 | a live cursor gives up its document only; a cursor a failed advance ended is revived at its old position |
| MemoryPostings.MemoryPostingIterator.Advance | modules/memory/src/memory_posting_iterator.cpp:31-47 | what is left is what was left from the target on; a failure leaves the position |
| MemoryPostings.TfBelongs | modules/memory/src/memory_posting_iterator.cpp:25-26 | the frequency at a position is that of the document at the position |
| Postings.DiskOk | modules/store/src/posting_iterator.cpp:130-133 | on disk a block end is never before the current document and is below the end mark |
| Postings.DiskListAt | modules/store/src/posting_iterator.cpp:110-133 | of its i-th document a list on disk says: its own frequency byte, the norm of its block of 128, the last document of that block |
| Postings.MemoryListAt | modules/memory/include/memory/memory_posting_iterator.h:20-30 | in memory: its own frequency, the list's bound, the last document of the list |
| Postings.PostingCursor.Next | modules/store/include/store/i_posting_iterator.h:31-32 | any of the three cursors gives up exactly its current document |
| Postings.PostingCursor.Advance | modules/store/include/store/i_posting_iterator.h:33-34 | any of the three cursors keeps exactly what is at or after the target |
| Postings.PostingCursor.Tf | modules/store/include/store/i_posting_iterator.h:21-22 | the frequency shown is that of the current document in the list |
| Postings.PostingCursor.BlockMaxScore | modules/store/include/store/i_posting_iterator.h:24-27 | the block bound shown is the list's for the current document |
| Postings.PostingCursor.BlockMaxDocId | modules/memory/include/memory/memory_posting_iterator.h:28-30 | the block end shown is the list's for the current document; a memory list is one block |
| Bm25.NormMonotone | modules/query/src/term_scorer.cpp:32-42 | more occurrences in a field that counts as shorter never give a smaller norm |
| Bm25.NormOrder | modules/query/src/term_scorer.cpp:32-42 | with equal occurrences norms order exactly as length factors do, reversed |
| Bm25.NormIs | modules/query/src/term_scorer.cpp:35-41 | the norm multiplied out, for k1 = 1.2 and b = 0.75: norm times (tf + 0.3 + 0.9 len / average) is 2.2 tf; without an average norm times (tf + 1.2) is |
| Bm25.FactorOrder | modules/query/src/term_scorer.cpp:40 | length factors order exactly as lengths do |
| Bm25.AverageOrder | modules/query/src/term_scorer.cpp:40 | length factors order exactly as averages do, reversed |
| Bounds.BlockMax | modules/memory/src/memory_segment.cpp:331-348 | the largest norm in a block, reached by one of its documents |
| Bounds.CalcTfNorms | modules/memory/src/memory_segment.cpp:325-355 | one maximum per block of 128 documents and one for the list, each reached and exceeded by none |
| Bounds.BlockBelowList | modules/index/src/segment_writer.cpp:80-101 | no block maximum is above the list maximum |
| Bounds.FlushCovers | modules/query/src/term_scorer.cpp:32-42 | up to 65535 tokens the stored frequency and length never score above the norm the document was bounded with |
| Bounds.BlocksAreSound | modules/query/src/term_scorer.cpp:29 | no document up to the block end scores above the block bound |
| Bounds.ListIsSound | modules/query/src/term_scorer.cpp:20-29 | no document scores above the list bound, and no block bound is above it |
| Bounds.FlushedSound | modules/memory/src/memory_segment.cpp:314-367 | in a flushed segment with lengths up to 65535 score <= block bound <= list bound at every posting |
| Bounds.LengthLimit | modules/memory/src/memory_segment.cpp:456-466 | for a frequency that fits its byte the stored norm covers the score exactly when the field has at most 65535 tokens |
| Bounds.WriteFieldLen | modules/index/src/segment_writer.cpp:419-435 | one saturated length for each of the ids 1 to n |
| Bounds.StoredAtMost | modules/index/src/segment_writer.cpp:419-435 | a stored length is the largest 16-bit number not above the length |
| Bounds.LengthComesBack | modules/index/include/index/segment_reader.h:36-42 | a length is read back whole exactly when it fits 16 bits and the document's id is at most the document count |
| Bounds.AverageMustNotGrow | modules/index/src/segment_writer.cpp:131-132 | a norm written with one average covers the score under another exactly when the average has not grown |
| Bounds.WorkerAverage | modules/index/src/index_worker.cpp:100-105 | with the worker's running document count the written norm covers the score exactly when nothing was flushed before |
| Bounds.MergeCovers | modules/index/src/segment_merger.cpp:357-363 | when every length is known the norms of a merge cover the scores |
| Bounds.LengthMustBeKnown | modules/index/src/segment_merger.cpp:359-361 | for a frequency that fits its byte a merged norm covers the score exactly when the length is known |
| Bounds.MergedSoundIff | modules/index/src/segment_merger.cpp:350-399 | merged block bounds are true; the list bound is when the merge's idf is at least 1, and only then while frequencies fit their byte |
| Bounds.MemorySound | modules/memory/src/memory_segment_reader.cpp:100-115 | the bound of a memory segment (all occurrences in one document of one token) is above every score |
| Bounds.MemoryBoundIs | modules/memory/src/memory_segment_reader.cpp:100-115 | that bound multiplied out: the norm of all occurrences in a document of one token, with an average of at least one |
| Flush.ListFacts | modules/memory/src/memory_segment_reader.cpp:38-80 | documents between 1 and the document count, frequencies from 1 to the key's total |
| Flush.PostedHasLength | modules/memory/src/memory_segment.cpp:65-73 | a term's posting lies in a document whose field has at least as many tokens as the posting has positions |
| Flush.ListLengths | modules/memory/src/memory_segment.cpp:65-73 | every document of a term's list has a token in the term's field |
| Flush.GetTermMeta | modules/memory/src/memory_segment_reader.cpp:88-119 | nothing for an unknown term; else document count, total frequency and bound of exactly its postings |
| Flush.FlushTerm | modules/memory/src/memory_segment.cpp:268-440 | writes exactly the postings of a key to the .doc and .pos files, positions included, keeps what was there, with maxima over true frequencies and the lengths of the field the key is taken for; a key without a `:` or without a posting is left out |
| Flush.SplitsBackIff | modules/memory/src/memory_segment.cpp:262-272 | a flush finds the field of a key again exactly when the field's name holds no `:` |
| Flush.DictKeysIff | modules/memory/src/memory_segment.cpp:262-272 | a field's dictionary has exactly the keys with a posting that are taken for keys of the field |
| Flush.DictTotalIs | modules/index/src/segment_reader.cpp:163-182 | the frequencies in a field's dictionary add up to the tokens of the field |
| TimFiles.WriteTim | modules/memory/src/memory_segment.cpp:357-381 | the dictionary with blank offsets, and where to patch each entry |
| Layouts.TimLayout | modules/memory/src/memory_segment.cpp:357-381 | entry i starts behind those before it: the term with its length in front, frequency and total, three offsets, the bound, one more offset |
| TimFiles.PatchDoc | modules/memory/src/memory_segment.cpp:416-426 | patching in place fills in the offsets into the .doc file of all entries and nothing else |
| TimFiles.PatchPos | modules/memory/src/memory_segment.cpp:441-448 | and those into the .pos file, which completes the dictionary |
| TimFiles.LoadTim | modules/index/src/segment_reader.cpp:160-183 | opening a dictionary gives its entries back, and the total of their frequencies over the document count |
| FieldFlush.FlushField | modules/memory/src/memory_segment.cpp:383-439 | after a field's terms have been flushed one by one, the files hold every one of them where its entry says, with its counts |
| FieldFlush.FlushDictionary | modules/memory/src/memory_segment.cpp:357-448 | the dictionary as written and patched is that of the entries |
| FieldFlush.AverageComesBack | modules/index/src/segment_reader.cpp:180-182 | the average length worked out from a field's entries is the one its bounds were taken with |
| Flush.FlushIsRead | modules/memory/src/memory_segment.cpp:357-415 | what FlushTerm wrote of a term is what a reader of the flushed segment has, with the same bounds and the average length of its dictionary, when the floats of this list lose nothing |
| Flush.MemoryContextSound | modules/memory/src/memory_segment_reader.cpp:100-115 | searching a memory segment, every list bound is true and every list is one block, so that pruning is exact |
| Flush.FlushedContextSound | modules/memory/src/memory_segment.cpp:314-405 | searching a flushed segment with lengths up to 65535, every block and list bound is true |
| Arena.SegmentArena.Alloc | modules/memory/src/segment_arena.cpp:22-29 | fails exactly when the page does not fit; rounding up never costs a byte because every page is whole words; bytes handed out earlier stay |
| Arena.AlignsUp | modules/memory/src/segment_arena.cpp:22-29 | rounding up gives the first multiple of the alignment from the offset on |
| Arena.SegmentArena.Put | modules/memory/include/memory/segment_arena.h:27-34 | writes one 32-bit field and no other byte |
| MemoryPages.WritePosChain | modules/memory/src/memory_segment.cpp:103-124 | positions in order, seven to a page, each page linked to the next; everything written earlier stays |
| MemoryPages.ReadPosChain | modules/memory/src/memory_segment.cpp:283-292 | walking the chain gives the positions back in order |
| MemoryPages.WritePosting | modules/memory/src/memory_segment.cpp:79-93 | puts a posting in front of a chain, positions inline up to 3 and in pages beyond |
| Layouts.PostingSize | modules/memory/src/memory_segment.cpp:79-124 | a posting takes 24 bytes, and 32 more for every seven positions if there are more than three |
| Layouts.PositionPage | modules/memory/src/memory_segment.cpp:103-124 | position j of a long posting is word j mod 7 of page j / 7, and the last word of a page leads to the next |
| MemoryPages.ReadChain | modules/memory/src/memory_segment.cpp:273-298 | walking a chain gives its postings, newest first, with document, frequency and positions |
| MemoryPages.ChainStays | modules/memory/src/memory_segment.cpp:76-96 | later pages leave a chain as it is |
| StoredFields.WriteStored | modules/memory/src/memory_segment.cpp:167-198 | succeeds exactly when the space check passes, after which no page allocation can fail; the payload lies in 4084-byte pieces |
| Layouts.StoredByte | modules/memory/src/memory_segment.cpp:167-198 | byte j of a payload stands 12 bytes into page j / 4084, in pages of 4096 |
| StoredFields.ReadStored | modules/memory/src/memory_segment_reader.cpp:154-162 | walking the page chain gives the payload back |
| StoredFields.Serialize | modules/memory/src/memory_segment.cpp:138-165 | the count and the fields that have a value, in order |
| Layouts.PayloadLayout | modules/memory/src/memory_segment.cpp:138-165 | field i starts behind those before it: name and value, each with its length in front |
| StoredFields.Parse | modules/memory/src/memory_segment_reader.cpp:163-184 | parsing the payload gives its fields back |
| StoredFields.MapMeans | modules/memory/src/memory_segment_reader.cpp:163-184 | the map parsed has exactly the names of the fields, each with the value of the last field of the name |
| StoredFields.StoreFields | modules/memory/src/memory_segment.cpp:137-202 | stores a document's non-empty fields, or refuses and leaves the arena as it was |
| StoredFields.ReadFields | modules/memory/src/memory_segment_reader.cpp:145-185 | reading a document back gives exactly its non-empty fields, for any sizes |
| TermHashTables.StringArena.Store | modules/memory/src/segment_arena.cpp:49-56 | appends the string behind all others, or fails and stores nothing |
| TermHashTables.Table.NotPassed | modules/memory/src/term_hash_table.cpp:45-58 | a probe for a held term neither passes its slot nor meets a gap before it, around the end of the table |
| TermHashTables.Table.PassedAll | modules/memory/src/term_hash_table.cpp:56-57 | a probe that comes around has seen every slot full and none with the term |
| TermHashTables.Table.Inserted | modules/memory/src/term_hash_table.cpp:68-76 | filling the slot a probe ended at keeps every term reachable and held once |
| TermHashTables.TermHashTable.FindSlot | modules/memory/src/term_hash_table.cpp:45-58 | the slot of the term, or the free slot where it belongs, the first of either from the hash on around the table; overflow only after a full round |
| TermHashTables.TermHashTable.Upsert | modules/memory/src/term_hash_table.cpp:60-85 | the map gains or updates exactly this term; overflow and a full string arena are refused with nothing changed |
| TermHashTables.TermHashTable.Lookup | modules/memory/src/term_hash_table.cpp:87-99 | the term's entry, none if absent, an overflow exactly for an absent term in a full table |
| TermHashTables.TermHashTable.ForEach | modules/memory/include/memory/term_hash_table.h:77-83 | visits every term once with its entry, and nothing else |
| TermHashTables.TermHashTable.Reset | modules/memory/src/term_hash_table.cpp:105-109 | the map is empty |
| MemorySegments.MemorySegment.IndexTerm | modules/memory/src/memory_segment.cpp:79-95 | one more posting in front of this term's chain, its counters raised, no other term changed; succeeds exactly when pages, a table slot and the string have room, and uses up just that |
| MemorySegments.MemorySegment.GroupTokens | modules/memory/src/memory_segment.cpp:62-69 | a key for every term that occurs, and for it the positions of exactly the tokens with that term, in token order |
| MemorySegments.PositionsInText | modules/memory/src/memory_segment.cpp:65-69 | there are ascending places that are exactly those of the tokens with the key, and the j-th position is that of the token at the j-th place |
| MemorySegments.MemorySegment.IndexField | modules/memory/src/memory_segment.cpp:58-97 | afterwards every chain holds what the documents and the fields up to this one say, under any field names, and the length tables count its tokens; succeeds exactly when all its postings have room |
| MemorySegments.MemorySegment.AddDocument | modules/memory/src/memory_segment.cpp:31-52 | the segment holds exactly the documents added: chains, counters, stored fields and lengths; succeeds exactly when the document has room in the arena, the table and the string arena, and fills them by just that |
| MemorySegments.PostingsMean | modules/memory/src/memory_segment.cpp:62-96 | what a segment holds of a key, said of the text: each posting is a field of a document with the key, with the positions of its tokens there, and each such field has one |
| MemorySegments.PostingsListed | modules/memory/src/memory_segment.cpp:76-96 | the postings of a key are those of the fields that have it, the newest document and the last field first |
| MemorySegments.MemorySegment.WriteStoredFields | modules/memory/src/memory_segment.cpp:137-202 | the stored fields of one more document beside those of all before; accepted exactly when they fit, and refused with everything indexed still in place |
| MemorySegments.MemorySegment.KeyList | modules/memory/src/memory_segment.cpp:262-305 | the postings of a key in document order with columns of documents and frequencies, none for a key without postings; each posting has the positions of exactly the tokens that have the key in one field of its document, and every field with such a token has its posting |
| MemorySegments.MemorySegment.PostingList | modules/memory/src/memory_segment_reader.cpp:38-82 | exactly the documents that have the term with their frequencies, in document order, strictly where field names do not clash |
| MemorySegments.MemorySegment.ReadStoredDoc | modules/memory/src/memory_segment_reader.cpp:145-185 | the stored fields of any document added so far |
| MemorySegments.KeysClashIff | modules/memory/src/memory_segment.cpp:66 | different fields have a key in common exactly when the name of one and a `:` start the name of the other |
| MemorySegments.PartialFacts | modules/memory/src/memory_segment.cpp:65-86 | postings name documents that were added and have at least one position, under any field names |
| MemorySegments.NewestFirst | modules/memory/src/memory_segment.cpp:85-86 | a key's postings are newest first, strictly, when the fields of a document have distinct names that do not clash |
| MemorySegments.TokensByKey | modules/memory/src/memory_segment.cpp:65-69 | grouping a field's tokens by key loses and repeats none |
| MemorySegments.TotalsByKey | modules/memory/src/memory_segment.cpp:72-73 | a field's token total is the sum of its terms' total frequencies, when no other field clashes with it |
| Scorers.Scorer.TermScorer | modules/query/src/term_scorer.cpp:5-22 | stands on the first posting, with the view of its list |
| Scorers.Scorer.Score | modules/query/src/conjunction_scorer.cpp:77-81 | the exact score the view gives the current document, for every kind |
| Scorers.Scorer.BlockMaxScore | modules/query/src/conjunction_scorer.cpp:89-93 | the block bound of the view for the current document |
| Scorers.Scorer.BlockMaxDocId | modules/query/src/conjunction_scorer.cpp:95-102 | the block end of the view: the first end among the parts |
| Scorers.Scorer.Advance | modules/query/src/conjunction_scorer.cpp:69-75 | keeps exactly the documents at or after the target, for every kind and every target |
| Scorers.Scorer.Next | modules/query/src/exclusion_scorer.cpp:58-65 | gives up exactly the current document |
| Scorers.Scorer.DoNext | modules/query/src/conjunction_scorer.cpp:27-57 | the zigzag loses nothing of the intersection and stops with all children on its first document, or with it empty |
| Scorers.Scorer.DriveOthers | modules/query/src/conjunction_scorer.cpp:32-46 | one round of it: all children on the lead's document, or one past it, or one exhausted |
| Scorers.Scorer.SkipExcluded | modules/query/src/exclusion_scorer.cpp:32-56 | loses nothing of the difference and stops on its first document |
| Scorers.Scorer.AdvanceHits | modules/query/src/wand_scorer.cpp:216-229 | the scan over the kept hits ends on the first at or after the target |
| Scorers.Scorer.NextHit | modules/query/src/wand_scorer.cpp:204-214 | gives up exactly the current hit |
| Scorers.NewConjunction | modules/query/src/conjunction_scorer.cpp:7-22 | delivers exactly the intersection of what its children had left, and scores their sum |
| Scorers.NewExclusion | modules/query/src/exclusion_scorer.cpp:5-12 | delivers exactly main minus excluded, with main's scores and opaque blocks |
| Scorers.TermTame | modules/query/src/term_scorer.cpp:24-30 | nothing scores below zero and a block reaches at least to the current document |
| Scorers.MeetTame | modules/query/src/conjunction_scorer.cpp:89-102 | through conjunctions an unknown block end means the block bound is the list bound |
| Scorers.ViewsAre | modules/query/src/conjunction_scorer.cpp:64-102 | a conjunction of two adds their scores and bounds and ends its block with the first of theirs; an exclusion has the list bound for its block bound and an open block end |
| Scorers.MeetSound | modules/query/src/conjunction_scorer.cpp:83-102 | bounds that are true of the children are true of the conjunction |
| Scorers.OpaqueSound | modules/query/include/query/scorer.h:19-20 | the default block bound is true whenever the list bound is |
| WandTheory.BelowPivot | modules/query/src/wand_scorer.cpp:59-66 | a document no cursor from the pivot on can have scores at most the bounds before the pivot |
| WandTheory.LaggardsAligned | modules/query/src/wand_scorer.cpp:72-77 | moving laggards to the pivot keeps the invariant, document by document: what they pass cannot beat the threshold |
| WandTheory.PivotPassed | modules/query/src/wand_scorer.cpp:157-161 | stepping past a document that is no candidate, or lost to the heap, keeps it |
| WandTheory.PivotKept | modules/query/src/wand_scorer.cpp:150-155 | so does taking a candidate while there is room |
| WandTheory.PivotReplaces | modules/query/src/wand_scorer.cpp:150-155 | and taking it in place of the weakest hit |
| WandTheory.BlocksSkipped | modules/query/src/wand_scorer.cpp:134-142 | skipping blocks whose bounds stay below the threshold keeps it too, and stays sure of every document the skip does not tear |
| WandTheory.Finished | modules/query/src/wand_scorer.cpp:169-176 | with every cursor exhausted the reversed heap is right about every document the run was sure of, and a best-k ranking if these are all targets |
| Wand.FindPivot | modules/query/src/wand_scorer.cpp:59-66 | the first cursor at which the bounds reach the threshold, or none does |
| Wand.AlignLaggingCursors | modules/query/src/wand_scorer.cpp:72-77 | exactly the cursors before the pivot move, to the pivot document |
| Wand.SkipBlock | modules/query/src/wand_scorer.cpp:83-88 | exactly the cursors that know a block end move, past their own end |
| Wand.Offer | modules/query/src/wand_scorer.cpp:150-155 | a bounded heap keeps every hit while there is room, later only in place of its weakest one and only if it scores more |
| WandRuns.SkipMoves | modules/query/src/wand_scorer.cpp:134-142 | a skip can fire only if some cursor knows its block end |
| WandRuns.FlatNeverSkips | modules/memory/include/memory/memory_posting_iterator.h:27-30 | where block bounds are list bounds the skip test cannot succeed |
| WandRuns.MovedShrinks | modules/query/src/wand_scorer.cpp:112-167 | every round takes a document from some cursor and gives none back, so that the loop ends with block tests on too |
| WandRuns.MovedKeeps | modules/query/src/wand_scorer.cpp:112-167 | every round keeps the invariant on heap, threshold and what is still ahead, and stays sure of every document it does not tear |
| WandRuns.RunOutcome | modules/query/src/wand_scorer.cpp:103-182 | every run, however ties are broken, ends with min(k, targets) distinct live filter-passing documents, best first, none overrated; they are a best k if bounds are true and no skip split a document, and always when all targets fit |
| WandRuns.FlatSameRuns | modules/memory/include/memory/memory_posting_iterator.h:27-30 | where block bounds are list bounds the runs with block tests are exactly the runs without |
| WandRuns.SafeClean | modules/query/src/wand_scorer.cpp:83-88 | no skip splits a document when block tests are off or flat, no two cursors share a document, or all known blocks are in step, which can be seen before the run |
| WandRuns.TornIff | modules/query/src/wand_scorer.cpp:83-88 | a round tears a document exactly when it skips and the document, of some worth, lies inside the block of one cursor and beyond the block of another |
| WandRuns.LostForGood | modules/query/src/wand_scorer.cpp:83-88 | a lost share never comes back, and no ranking that holds the document at such a score is a best-k ranking |
| WandRuns.Underrated | modules/query/src/wand_scorer.cpp:112-167 | from the round that tears a document on, the heap holds it for less than it scores, if at all |
| WandRuns.RunExactIff | modules/query/src/wand_scorer.cpp:103-182 | a run over true bounds ends with a best-k ranking if and only if every torn document has k rivals among the untorn |
| Wand.RunWand | modules/query/src/wand_scorer.cpp:103-182 | makes a run of the machine from where the cursors stand, with its count of skips, and gives back what that run ends with, best first; exact whenever the caller's check of the cursors rules splits out |
| Wand.NewWand | modules/query/src/wand_scorer.cpp:10-34 | the finished union is a cursor over the hits of such a run with their scores, under a list bound that is the sum of the children's |
| Wand.CompleteIffFits | modules/query/src/wand_scorer.cpp:103-182 | a union delivers all its targets exactly when there are at most k |
| Counterexamples.SplitRun | modules/query/src/wand_scorer.cpp:103-167 | every run over the two lists scores document 1, skips document 257 away from the short list's cursor, and ends with document 1 alone although 257 is worth more and all bounds are true |
| Counterexamples.SplitExample | modules/query/src/wand_scorer.cpp:83-88 | the two lists, written to disk and opened: the search finds the best document exactly when block tests are off |
| Queries.MatchesAreDocs | modules/query/src/boolean_query.cpp:33-79 | a query matches only documents of the segment's lists |
| Queries.EligibleIff | modules/query/src/index_searcher.cpp:334-349 | a document may be found exactly when its own bit says it lives, its own publication time is between the bounds if either is set, and its own owner is the wanted one if one is |
| Queries.AnswerIff | modules/query/src/index_searcher.cpp:814-833 | the answer is exactly the matching documents of which that is true |
| Queries.TermScoreIs | modules/query/src/term_scorer.cpp:32-42 | the score of the i-th document of a term's list: times (tf + 0.3 + 0.9 len / average) it is the term's inverse document frequency in this field times 2.2 tf, with the document's own tf and length |
| Queries.StatsAre | modules/query/src/term_scorer.cpp:11-22 | a term's factor is the one stored under its field and name, zero if there is none, and its list bound the stored one times that factor |
| Queries.NoShouldFits | modules/query/src/boolean_query.cpp:54-66 | a tree of MUST and MUST_NOT clauses is never cut short |
| Deliveries.DeliversMeaning | modules/query/src/boolean_query.cpp:33-79 | whatever a nested tree whose unions fit delivers is what the query means, with its scores, on eligible documents |
| Deliveries.FoundMeaning | modules/query/src/index_searcher.cpp:787-839 | the best of what such a tree delivers are the best of what the query means |
| Deliveries.PlainFound | modules/query/src/boolean_query.cpp:54-56 | a plain union with sharp rankings finds the best of what it means, cut short or not |
| Deliveries.CutIff | modules/query/src/boolean_query.cpp:54-76 | the best k of a set less some documents are the best k of the rest exactly when none of them was among the best k, or nothing but the best k is left |
| Deliveries.UnionFoundIff | modules/query/src/boolean_query.cpp:54-76 | a union with exclusions finds the best of what the query means exactly when every hit it kept is an answer or every answer was kept |
| Rankings.KeptByRank | modules/query/src/wand_scorer.cpp:150-155 | a best k holds no document that k others outscore, and every document with fewer than k rivals |
| Rankings.BestWith | modules/query/src/wand_scorer.cpp:150-155 | among ties some best k holds a document that fewer than k others outscore, and does without another that has k rivals |
| Rankings.AlwaysKeptIff | modules/query/src/wand_scorer.cpp:150-155 | a document is in every best k exactly when it has fewer than k rivals, in none exactly when k others outscore it |
| Rankings.BestWithinIff | modules/query/src/index_searcher.cpp:835-838 | a best k of some documents is one of all exactly when each of the others has k rivals among these |
| Deliveries.UnionExactIff | modules/query/src/boolean_query.cpp:54-76 | every best choice the union can make is right exactly when every excluded candidate is outscored by top_k candidates, or every answer has fewer than top_k rivals: a condition on query and segment alone, ties included |
| Deliveries.SharpExists | modules/query/src/boolean_query.cpp:33-79 | every query has a delivery in which each union makes a best choice |
| Deliveries.PlainlyHonest | modules/query/src/boolean_query.cpp:58-76 | with unions cut at the top or below MUST clauses only, nothing is delivered that the query does not mean, nor at another score |
| Deliveries.PlainlyFoundIff | modules/query/src/index_searcher.cpp:787-839 | such a search is right exactly when every answer the unions lost has top_k rivals among those they delivered |
| Deliveries.BareDelivered | modules/query/src/wand_scorer.cpp:104 | with top_k not positive a tree delivers what its MUST clauses have without any union |
| Compilation.OpenTerm | modules/query/src/boolean_query.cpp:14-16 | a term delivers exactly its posting list with its scores; no field or an unknown term delivers nothing |
| Compilation.Gather | modules/query/src/boolean_query.cpp:38-50 | each clause's scorer delivers what the clause delivers, none that is kept is exhausted, and the kept scorers say about every document what the clauses say; giving up means a MUST clause delivers nothing |
| Compilation.LeftIff | modules/query/src/boolean_query.cpp:38-50 | with top_k not positive, scorers of a role are left exactly when a clause of the role delivers something without unions |
| Compilation.MakeUnion | modules/query/src/boolean_query.cpp:54-56 | the union is a ranking of what the SHOULD clauses deliver, a best one when bounds are true and lists are one block or in step |
| Compilation.MakeMeet | modules/query/src/boolean_query.cpp:58-64 | one or several MUST scorers deliver what all of them have, at the sum of their scores |
| Compilation.ExcludeAll | modules/query/src/boolean_query.cpp:72-76 | takes out exactly what some MUST_NOT scorer has and keeps scores and true bounds |
| Compilation.BuildRoot | modules/query/src/boolean_query.cpp:52-79 | root and exclusions together deliver what the clauses deliver, put together by role |
| Compilation.CursorsInStep | modules/query/src/boolean_query.cpp:54-56 | cursors over lists whose blocks are in step are in step, which rules splits out |
| Compilation.CreateScorer | modules/query/src/boolean_query.cpp:33-79 | for every nested tree, unions cut short or not: the scorer delivers exactly what the recursive reading of the query delivers, null standing for nothing, under bounds that are true if the stored ones are |
| Counterexamples.CutExample | modules/query/src/boolean_query.cpp:54-76 | two documents in memory, read with the reader's own bounds, and a query (a or b, not a) with top_k 1: the search comes back empty although one document matches |
| Counterexamples.CutRead | modules/memory/src/memory_segment_reader.cpp:88-119 | the context of that search is what the reader of a memory segment of these documents shows |
| Search.Drive | modules/query/src/index_searcher.cpp:814-833 | collects every delivered, live, filter-passing document once, with its score |
| Search.CutIsTopK | modules/query/src/index_searcher.cpp:835-838 | sorting all hits and cutting to k gives a best-k ranking |
| Search.SearchImpl | modules/query/src/index_searcher.cpp:787-839 | the best top_k of what the tree delivers, for every tree; that is the best of what the query means when its unions fit, or when it is a plain union with sharp rankings, which true bounds and one-block or in-step lists guarantee; every hit lives and passes the filter by its own column entries, every matching document that does is an answer; throws exactly for a negative top_k and a tree that is not a plain union |
| MergeResults.MergeTopK | modules/query/src/index_searcher.cpp:652-674 | best first, at most k, no external id twice; whatever is left out was beaten by its own id or by all that were kept; with distinct ids a best-k choice of everything |
| MergeResults.DedupedFacts | modules/query/src/index_searcher.cpp:663-672 | dropping repeats keeps one result of every external id and all results without one |
| MergeResults.DedupedBeats | modules/query/src/index_searcher.cpp:663-670 | the one kept has the best score of its external id |
| MergeResults.BestOfBest | modules/query/src/index_searcher.cpp:285-288 | a best k of per-reader best-k lists is a best k of all readers' hits together |
| Realtime.StepKeeps | modules/memory/src/flush_worker.cpp:42-115 | every step of every party keeps the invariant on ids, readers, worker, threads and documents |
| Realtime.StepShows | modules/query/src/index_searcher.cpp:209-232 | a list of readers goes on showing what it showed, whatever step is taken; an added document appears through its segment's reader only |
| Realtime.CommitShows | modules/query/src/index_searcher.cpp:214-225 | swapping a batch's memory readers for the disk reader changes nothing visible |
| Realtime.ShutdownShows | modules/memory/src/rt_index_thread.cpp:46-52 | removing an empty segment's reader changes nothing visible |
| Realtime.RunKeeps | modules/memory/src/rt_index_thread.cpp:40-97 | the invariant holds in every state of every interleaving |
| Realtime.ExactlyOnce | modules/query/src/index_searcher.cpp:266-271 | in every state of every run a snapshot shows each accepted document through exactly one reader, once, and shows nothing else |
| Realtime.SnapshotHolds | modules/query/src/index_searcher.cpp:266-271 | readers copied at one time go on showing every document accepted by then, none twice, however far indexing runs on |
| Realtime.NeverOverwrites | modules/memory/src/flush_worker.cpp:67-92 | segment ids are given out once; no flush or merge writes onto a segment that exists or was committed |
| Realtime.AfterStop | modules/memory/src/realtime_index_manager.cpp:54-65 | after stop the queue is empty and every accepted document is shown by exactly one disk reader; memory readers remain exactly for threads whose last segment held documents, and show nothing |
| Realtime.LeftoverExample | modules/memory/src/rt_index_thread.cpp:46-52 | a concrete run after which an empty memory reader remains |
| Realtime.StopDrains | modules/memory/src/flush_worker.cpp:48-53 | after stop the worker can always step, and each step brings it nearer to its exit |
| RealtimeOrders.InOrder | modules/memory/src/flush_worker.cpp:57-101 | in every state of every run the disk holds the committed segments and what the worker is at, nothing else; a finished segment has the documents of its batch one segment after the other, and a batch is at most three |
| RealtimeOrders.NothingEmpty | modules/memory/src/rt_index_thread.cpp:40-52 | in every state of every run no segment without documents is queued, with the worker or on disk |
| RealtimeOrders.FullIsFrozen | modules/memory/src/rt_index_thread.cpp:40-97 | between an add that fills a segment and the next add of the same thread lies a switch to another segment |
| RealtimeOrders.PlacesStay | modules/memory/src/rt_index_thread.cpp:40-44 | in every run segments only grow, at their end, so that a document keeps its place |
| RealtimeOrders.QueueInOrder | modules/memory/src/flush_queue.cpp:13-29 | the segments pushed in a run are those taken, in order, and those still queued |
| RealtimeOrders.TakesThree | modules/memory/src/flush_worker.cpp:42-47 | the worker takes the first three segments, or all there are if they are fewer |
| RealtimeOrders.MergedInOrder | modules/memory/src/flush_worker.cpp:76-89 | a merge keeps the order of its inputs and of the documents in each |
| KwayMerges.KwayMerge.constructor | modules/common/include/common/kway_merge.h:36-42 | the first element of every source waits; nothing is lost, in whatever order the sources are |
| KwayMerges.KwayMerge.Next | modules/common/include/common/kway_merge.h:46-60 | takes out one element, from sources in order the least of everything still to come; exhausted exactly when nothing is left |
| KwayMerges.MergeAll | modules/common/include/common/kway_merge.h:36-60 | draining loses and repeats nothing, and gives a sorted sequence when the sources are in order |
| SegmentMerge.KeysEqual | modules/index/src/segment_merger.cpp:188 | when two merge keys are equal, for any segments and documents |
| SegmentMerge.SmallKeys | modules/index/src/segment_merger.cpp:188 | below 2^20 equal keys mean the same segment and document |
| SegmentMerge.LargeKeysClash | modules/index/src/segment_merger.cpp:188 | in a segment with an odd id every document shares its key with the one 2^20 further on |
| SegmentMerge.BuildRemap | modules/index/src/segment_merger.cpp:170-194 | one entry per live document, numbered from 1 in input order, segment by segment and place by place; each names its segment, its id there and its own place, counted from 1, and every live place has an entry |
| SegmentMerge.MergeColumn | modules/index/src/segment_merger.cpp:517-535 | the merged column has for each live document, in the order of the new numbers, the entry of its own segment's column at its own place, zero beyond the end |
| SegmentMerge.OrBits | modules/index/src/segment_merger.cpp:188 | a bit is set in the or of two numbers exactly when one of them has it |
| SegmentMerge.KeyBits | modules/index/src/segment_merger.cpp:188 | of a merge key the low 20 bits are the document's, and a bit above is set when the segment id or the document sets it |
| SegmentMerge.RemapIff | modules/index/src/segment_merger.cpp:187-191 | the table numbers the live documents one to one exactly when no two share a key |
| SegmentMerge.TableRightIff | modules/index/src/segment_merger.cpp:170-190 | the table has every live document under its own number and no dead one exactly when no stored document shares a key with the live document of another place |
| SegmentMerge.SmallNoClash | modules/index/src/segment_merger.cpp:170-188 | distinct segment ids and documents below 2^20 never clash |
| SegmentMerge.InTable | modules/index/src/segment_merger.cpp:181-190 | of a segment's documents exactly the live ones are in the table |
| SegmentMerge.Monotone | modules/index/src/segment_merger.cpp:170-193 | renumbering keeps the document order of a segment |
| SegmentMerge.InRange | modules/index/src/segment_merger.cpp:170-193 | each segment's documents get a range of numbers of their own, and a number leads back to its document |
| SegmentMerge.RenumberList | modules/index/src/segment_merger.cpp:302-316 | a reader's postings under their new numbers, dead documents left out |
| SegmentMerge.MergePostings | modules/index/src/segment_merger.cpp:287-348 | always what the table makes of the postings of all inputs, none lost or repeated; without a clash of keys strictly ascending and exactly the live postings, renumbered, with frequency and positions unchanged |
| ParallelBuild.SplitIntoGroups | modules/index/src/parallel_index_writer.cpp:26-34 | as many groups as asked for, at most one for each id and at least one; the i-th id is in group i mod n, behind i / n others |
| ParallelBuild.SplitIsPartition | modules/index/src/parallel_index_writer.cpp:26-34 | the groups hold every id once, differ in size by at most one, and are no more than asked for |
| ParallelBuild.MergedInOrder | modules/index/src/parallel_index_writer.cpp:164-173 | a group merge keeps the order of its inputs and of the documents in each |
| ParallelBuild.FinalSegments | modules/index/src/parallel_index_writer.cpp:146-181 | in every finished run the final segments are those planned: the only temporary one, or one for each group with its documents in order |
| BuildOrders.InOrder | modules/index/src/index_worker.cpp:40-129 | in every state of every run buffers and temporary segments are in the order of the document ids |
| ParallelBuild.StepKeeps | modules/index/src/index_worker.cpp:26-129 | every step of producers, workers and commit keeps the invariant on documents, ids and segments |
| ParallelBuild.RunKeeps | modules/common/include/common/blocking_queue.h:28-56 | the invariant holds in every state of every interleaving |
| ParallelBuild.Throughout | modules/index/src/index_worker.cpp:40-129 | the queue never exceeds its capacity, document ids are 1, 2, 3, ..., each numbered document is in one buffer or temporary segment, segment ids never repeat |
| ParallelBuild.Outcome | modules/index/src/parallel_index_writer.cpp:109-186 | after commit the accepted documents have the ids 1 to N and are in the final segments once each, except documents without a term buffered behind a last flush; the final segments are one for each group planned, with the documents of the group in order |
| ParallelBuild.NothingDropped | modules/index/src/index_worker.cpp:90-95 | if all accepted documents have a term, the final segments hold all of them |
| ParallelBuild.DroppedExample | modules/index/src/index_worker.cpp:90-95 | one worker and one document without a term: the build ends without a segment, and the document is nowhere |
| ParallelBuild.DropsIff | modules/index/src/index_worker.cpp:26-34 | some run over given documents, under some memory threshold, drops one exactly when one of them has no term and there are several workers, or the last has none and there is one |
| ParallelBuild.MergeGroup | modules/index/src/parallel_index_writer.cpp:164-173 | a group merge writes to an id of its own and leaves all temporary segments as they are |

## Left out

- MemorySegments.MemorySegment.AddDocument: promises nothing about what is in a segment whose arena or table overflowed in the middle of a document.
- WandRuns.SafeClean: the check before the run (`WandRuns.SafeToSkip`) is sufficient; which runs tear a document depends on their scores, and the exact condition (`WandRuns.RunExactIff`) is on the run.
- SegmentMerge.MergePostings: says which postings are merged when keys clash only by way of the table; the table is right exactly without a clash (`SegmentMerge.TableRightIff`), which `SegmentMerge.SmallNoClash` gives below 2^20.
- Bounds.FlushedSound: holds for lengths up to 65535 and floats that lose nothing; see `Bounds.LengthLimit` for what happens beyond.
- Flush.FlushTerm: asks for field names that are distinct and do not clash within a document, since a clash puts a document into a list twice; the .fdt, .fdx and .liv files are not modelled (the .len file is, in `Bounds.WriteFieldLen`).
- FieldFlush.FlushField: terms come in any order, and their bytes by way of a function; a `.tim` file of the older format without the last field of an entry is not read.
- ParallelBuild.SplitIntoGroups: takes any group count; the rounded square root in `computeGroupCount` is not modelled.
- ParallelBuild.MergeGroup: a merged segment is the documents of its inputs one after the other; renumbering is the subject of SegmentMerge.
- Realtime.RunKeeps: documents are tokens and a merge concatenates; threads of one manager serialise their own adds, as one atomic step each. A crash between writing a segment and committing it is not modelled.
- Realtime.StopDrains: progress of the worker is shown, fairness of the scheduler is not.
- The memory model: each lock section and atomic increment is one step, and a timeout of `takeBatch` is a wake-up at any time.
- Rounding of floats, the logarithm in the inverse document frequency, and the analysis of text into tokens, which are inputs.
- Marking documents as deleted (a search is given the bitmap of live ones), fast fields other than integers and how they are written, sorting by publication time, stored source, title and other result decoration.
- The legacy search paths `searchAND` and `searchOR_WAND`, single-file segments, `bm25Score`, parsing of query strings, statistics and debug output.
- Failed reads from files: a file holds what was written to it.
