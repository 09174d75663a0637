# Verified models of the vendored compressors, checksums and random numbers

This project models the compression libraries that the server carries in its `deps` directory, and a pseudorandom number
generator beside them, and proves what they are for: that compressed data comes back, that the fast array algorithms
compute what their short definitions say, and that checksums of parts can be combined. The four parts are

* **bzip2**: the whole pipeline in both directions. Run-length code, block sorting by both sorters, move-to-front and zero
  runs, length-limited Huffman codes, bit stream, the resumable decoder, inverse transform in its fast and its small form,
  the calling protocols with buffers of any size, and the two buffer-to-buffer calls. Every stage is a class or a method
  on arrays, proved against a function; the stages are composed into one round trip.
* **zlib**: the match finder of deflate with its hash chains over a sliding window, for the fast, the lazy and the
  run-length strategy; the two-level tables of inflate; the fast and the slow decoding loop over the circular window, from
  the code lengths of a block to its bytes; the CRC and Adler checksums and their combination.
* **SFMT**: the recursion in place and into an array, and the certification of the period.

`dafny verify dfyconfig.toml` checks everything. A method is proved against a function or a predicate of its inputs, and
lemmas about these say what the program promises. Names follow the C sources; each file begins with the routines that it
models.

## How to read it

| part | files, from the foundations up |
|---|---|
| integers, bits | Bytes, Powers, Xors, Shuffles, SortStack, FatPartition |
| block sorting | Rotations; HeaderBits, FallbackQSort, BucketRefinement, FallbackSort; MainCompare, MainSimpleSort, MainQSort, TwoByteBuckets, ScanLists, BucketScan, BucketMeet, RunningOrder, QuadrantUpdate, MainSort |
| Huffman codes | KraftSums, CodeHeap, HuffmanTree, BalancedTree, HuffmanOptimal, HuffmanLengths, CanonicalCodes, DecodeTables |
| bzip2, compressing | RunLength, BlockCrc, BlockBuffer, MoveToFront, MtfEncoder, TableChoice, BitStream, WireFormat, SendMtf, BlockCompressor, Compressor, Protocol |
| bzip2, decompressing | DecodeMachine, MtfCache, BlockDecoder, LastToFirst, WalkTables, BlockOutput, StreamMeaning, Decompressor |
| bzip2, both | BlockFormat, StreamFormat, StreamSize, Buffers |
| deflate | Lz77, HashKey, HashChains, Parsing, WindowSearch, Deflate, DeflateFast, DeflateSlow, DeflateRle |
| inflate | StreamCodes, TableSpace, CodeTables, InflateTrees, InflateElements, CanonicalElements, InflateWindow, InflateFast, InflateBack, InflateBlocks |
| checksums | Gf2, Crc32, Crc32Braid, BlockChecksum, Adler32 |
| random numbers | Sfmt |

The round trip of bzip2 is put together as follows. `Protocol.EState.BzCompress` keeps, over every sequence of calls, that
the input consumed is what the finished blocks and the block in hand stand for, and that the bytes delivered are a prefix
of the stream of these blocks. `DecodeMachine` is BZ2_decompress as a machine whose states are the places where it can run
out of input; `BlockFormat.ExecBlock` says that the machine gets back from the bits of a block what went into them;
`BlockDecoder.Decoder` is the decoder on its arrays, kept in step with the machine whatever the pieces of input are.
`StreamMeaning` says what any bytes mean as a stream, `Decompressor.BzDecompressor.BzDecompress` puts that out, joining the
decoder with the output stage, and `Buffers` states the result for the two calls that work on whole buffers.

How deflate parses is said in `Parsing`, in terms of the whole input: `Reach` are the positions that a search tries, by
distance, by what has been inserted, and by how many others with the same key are behind them; `Parsed` says of each token
that it is right where it stands. What a search cannot have seen is allowed for by the cuts: the places at which a flush
ended the input while a decision was to be made. Each call adds at most the place where its input ends, and none without a
flush. `WindowSearch` brings this together with the window and the chains.

## Model

| member | source | states |
|---|---|---|
| Rotations.SortedListingsAgree | deps/bzip2/blocksort.c:1058-1062 | Any two nondescending listings of all cyclic rotations have equal rotations at every place. |
| Rotations.SameColumn | deps/bzip2/blocksort.c:1058-1062 | The column that is coded does not depend on which sorter ran. |
| Rotations.OriginDetermined | deps/bzip2/blocksort.c:1083-1088 | The origin pointer is the same for every sorted listing if and only if no other rotation reads like the block itself. |
| Rotations.OneByteRepeated | deps/bzip2/blocksort.c:1058-1062 | For one byte repeated, counting up and counting down are both sorted listings and have the origin at opposite ends. mainSort leaves the one and fallbackSort the other (see the three methods below), so that for such blocks the stream does depend on the sorter, contrary to the remark there. |
| HeaderBits.NextClear | deps/bzip2/blocksort.c:278-283 | The word-skipping scan finds exactly the next clear flag. |
| HeaderBits.NextSet | deps/bzip2/blocksort.c:286-290 | The word-skipping scan finds exactly the next set flag. |
| FallbackQSort.SimpleSort | deps/bzip2/blocksort.c:32-66 | The pass with gap 4 and the insertion sort leave a rearrangement of the stretch, sorted by class. |
| FallbackQSort.QSort3 | deps/bzip2/blocksort.c:93-180 | Three-way quicksort with an explicit stack: a rearrangement of the stretch, sorted by class, and no change where all classes are equal; the stack of 100 entries never overflows. |
| FallbackSort.RefineBuckets | deps/bzip2/blocksort.c:273-306 | One pass of the log(N) loop doubles the depth to which the header flags delimit exactly the classes of equal rotations. |
| FallbackSort.RefinedSorted | deps/bzip2/blocksort.c:259-314 | When the depth has reached the block length, or only single rotations are left, the listing is sorted. |
| FallbackSort.Rebuild | deps/bzip2/blocksort.c:316-328 | The block, whose bytes the class numbers have overwritten, is dealt out again byte for byte along the sorted order. |
| FallbackSort.Sort | deps/bzip2/blocksort.c:212-329 | For every block, periodic ones included, fallbackSort terminates with a permutation that lists the cyclic rotations in nondescending order, and the block is what it was. For one byte repeated the permutation counts down. |
| MainCompare.MainGtU | deps/bzip2/blocksort.c:347-469 | With quadrants that reflect the rotation order, true means not smaller and false not greater, for the whole rotations; no byte behind the overshoot is read. The budget is not touched if they differ in their first 20 bytes. |
| MainSimpleSort.SimpleSort | deps/bzip2/blocksort.c:485-555 | Shell sort leaves a rearrangement always, and the sorted one unless the budget is used up; the budget is not touched if no 20 bytes of the block occur twice. |
| MainQSort.QSort3 | deps/bzip2/blocksort.c:621-717 | Radix quicksort down to depth 14: a rearrangement always, the sorted one unless the budget is used up, which it is not if no 20 bytes of the block occur twice; its stack does not overflow. |
| TwoByteBuckets.ScatterPairs | deps/bzip2/blocksort.c:802-830 | The initial radix sort puts every rotation into the bucket of its first two bytes, and ftab holds the bucket starts. |
| RunningOrder.Order | deps/bzip2/blocksort.c:832-860 | runningOrder becomes a permutation of all bytes by ascending size of their big buckets. |
| BucketScan.ScanUp | deps/bzip2/blocksort.c:923-928 | The left scan writes, in order, every rotation that precedes an entry of the big bucket into its unfinished small bucket. |
| BucketScan.ScanDown | deps/bzip2/blocksort.c:929-934 | The right scan does the same from the other end. |
| MainSort.ScanBigBucket | deps/bzip2/blocksort.c:911-944 | Both scans together fill every unfinished bucket that ends in the byte in sorted order and meet exactly, unless the whole block is one byte. |
| BucketMeet.BothSorted | deps/bzip2/blocksort.c:911-935 | In a bucket filled from both ends any earlier entry is not greater than a later one. |
| QuadrantUpdate.Update | deps/bzip2/blocksort.c:964-1004 | After step 3 differing quadrants at equal bytes still always reflect the order of the rotations. |
| MainSort.BigSorted | deps/bzip2/blocksort.c:878-944 | A finished big bucket is sorted throughout. |
| MainSort.AllSorted | deps/bzip2/blocksort.c:862-1006 | When all big buckets are done, all rotations are in order. |
| MainSort.Sort | deps/bzip2/blocksort.c:751-1011 | If the budget never goes negative, ptr lists the cyclic rotations in nondescending order; the block is not changed. The budget is not touched if no 20 bytes of the block, read as a ring, occur twice, nor for one byte repeated, where ptr counts up. |
| BlockCompressor.BlockSort | deps/bzip2/blocksort.c:1031-1089 | Whichever sorter runs, the order is sorted, origPtr is where the block itself stands, and the block survives. For one byte repeated origPtr is nblock - 1 below 10000 bytes and 0 from there on. |
| CodeHeap.UpHeap | deps/bzip2/huffman.c:33-42 | The heap order is restored by moving the new entry up, the sentinel stopping it, and the entries are only rearranged. |
| CodeHeap.DownHeap | deps/bzip2/huffman.c:44-59 | The heap order is restored by sinking the root below its smaller children. |
| HuffmanLengths.TreeIsGood | deps/bzip2/huffman.c:88-133 | The depths of the tree that joining the two lightest nodes builds have Kraft sum exactly 1, rarer symbols never get shorter codes, and no prefix code takes fewer bits for these weights. |
| HuffmanOptimal.JoinLightest | deps/bzip2/huffman.c:100-110 | Whatever feasible depths the roots of a forest have, the two lightest can be joined into one root at feasible depths that cost less by at least the sum of their weights. |
| HuffmanOptimal.DepthsOptimal | deps/bzip2/huffman.c:100-110 | At every stage of the loop, no feasible depths of the roots cost less than their depths in the finished tree. |
| BalancedTree.JoinBalance | deps/bzip2/huffman.c:100-110 | Weights of which none is more than two others together, with heights that differ by one at most, stay so when the two lightest are joined, equal weights in order of height; the sum of 2^height stays below any power of two that it starts below. |
| HuffmanLengths.SymbolsFit | deps/bzip2/huffman.c:114-122 | The lengths of a complete code within maxLen are those of at most 2^maxLen symbols. |
| HuffmanLengths.TryLengths | deps/bzip2/huffman.c:80-137 | One round: the cheapest lengths of a complete code, all within maxLen, or else a tree that is too high; then the total weight is at least a Fibonacci number, and there are more than 2^maxLen symbols or a weight that halving lowers. With more than 2^maxLen symbols the tree is always too high. |
| HuffmanLengths.MakeCodeLengths | deps/bzip2/huffman.c:63-148 | The halving loop stops for every limit that has room for the symbols, that is for at most 2^maxLen of them, and for no other by the row before; the lengths lie in 1..maxLen with Kraft sum exactly 1 and are the cheapest for the halved weights; no halving happens while the total is below Fib(maxLen + 1). |
| CanonicalCodes.AssignCodes | deps/bzip2/huffman.c:152-166 | Every symbol gets the canonical code of its length. |
| CanonicalCodes.KraftIffCodesFit | deps/bzip2/huffman.c:152-166 | All canonical codes fit their lengths if and only if the lengths satisfy Kraft's inequality. |
| DecodeTables.CreateDecodeTables | deps/bzip2/huffman.c:170-200 | limit, base and perm are those of the canonical code, and zero or counts outside the lengths that occur. |
| DecodeTables.LookFinds | deps/bzip2/decompress.c:89-101 | The lookup goes on exactly until the whole code of a symbol has been read, and then finds the symbol. |
| DecodeTables.LookStays | deps/bzip2/decompress.c:98-101 | Whatever lengths the stream announced and whatever bits follow, an index into perm is below the size of the alphabet: no entry that was never written is used. |
| DecodeTables.LookAgrees | deps/bzip2/decompress.c:89-101 | The filled arrays answer every lookup as the tables given as one value, with a symbol of the alphabet. |
| DecodeTables.CodingTable.Lookup | deps/bzip2/decompress.c:89-101 | The lookup in the arrays returns what the tables as a value say. |
| BitStream.BitWriter.Write | deps/bzip2/compress.c:58-78 | bsW appends the n bits of v to the stream of bits written, whatever the buffer holds. |
| BitStream.BitWriter.Finish | deps/bzip2/compress.c:46-54 | bsFinishWrite delivers all bits, filled up with fewer than eight zeros. |
| BitStream.BitReader.GetBits | deps/bzip2/decompress.c:43-66 | GET_BITS takes exactly the next n bits of buffer and input, or consumes the input and waits. |
| RunLength.ExpandCode | deps/bzip2/bzlib.c:216-247 | The run-length code of any list of runs is well formed and expands to these runs. |
| BlockBuffer.Buffer.AddPair | deps/bzip2/bzlib.c:216-247 | The run in hand joins the block: code, bytes in use and checksum are those of the runs so far. |
| BlockBuffer.Buffer.AddChar | deps/bzip2/bzlib.c:260-284 | One more byte is taken: block and run in hand stand for the bytes before and this one. |
| BlockBuffer.Buffer.FlushRL | deps/bzip2/bzlib.c:252-256 | Everything taken is in the block. |
| MoveToFront.RunCodeBijective | deps/bzip2/compress.c:174-187 | Every run length is written by exactly one list of RUNA and RUNB. |
| MtfEncoder.GenerateMtfValues | deps/bzip2/compress.c:120-231 | The symbols of the last column are written over the sorted order they are made from without overwriting an entry still to be read; there are at most nblock + 1; the frequencies count them. |
| MtfEncoder.SymbolsDecode | deps/bzip2/decompress.c:372-486 | Fed with the symbols of a column, the decoder's list and runs rebuild exactly the column. |
| MtfEncoder.MakeMapsE | deps/bzip2/compress.c:106-115 | Each byte in use is mapped to its rank among those in use. |
| MtfEncoder.MakeMapsD | deps/bzip2/decompress.c:27-36 | Each rank is mapped back to its byte. |
| MtfCache.StandsUnique | deps/bzip2/decompress.c:359-369 | The sixteen segments represent one list only. |
| MtfCache.MtfList.Init | deps/bzip2/decompress.c:359-369 | The segments represent the list 0..255. |
| MtfCache.MtfList.Take | deps/bzip2/decompress.c:424-475 | Both branches, with the rebuild when the first segment has reached the bottom, return entry nn of the list represented and move it to the front. |
| TableChoice.SelectTables | deps/bzip2/compress.c:325-441 | Every group of 50 symbols selects the first of the cheapest tables for it, with the packed cost count for six tables and full groups as well; the frequency of a symbol for a table is how often it occurs in the groups that selected this table. |
| TableChoice.FirstTables | deps/bzip2/compress.c:277-314 | The first tables are cheap for ranges of symbols that follow each other, each ending where the frequencies reach an equal share of what is left, less its last symbol for every other table. |
| TableChoice.MakeTables | deps/bzip2/compress.c:447-457 | Each table gets the cheapest lengths for its frequencies among all prefix codes, within 17 bits; the frequencies, none of them counted as zero, are halved only if they add up to 6765 or more. |
| TableChoice.ChooseTables | deps/bzip2/compress.c:255-465 | Two to six tables by the number of symbols; selectors and lengths are what four passes make of the first tables, each pass selecting cheapest tables and then fitting the tables to the groups that selected them. At most 18002 selectors, one for every 50 symbols, and complete codes with lengths 1 to 17. |
| SendMtf.SendBlock | deps/bzip2/compress.c:494-597 | What is written is the block in the format that the machine reads: header, mapping table, selectors in unary, lengths as differences, and the codes of the symbols. |
| BlockFormat.HeaderLayout | deps/bzip2/compress.c:632-634 | A block begins with the 48 bits of 0x314159265359. |
| BlockFormat.ExecBlock | deps/bzip2/decompress.c:222-492 | From the bits of a block the machine recovers head and last column and consumes exactly these bits: for every block in the limits of the format, with code lengths of 1 to 20, up to 18002 selectors and any origin pointer within the block, not only for those of the encoder. |
| DecodeMachine.NextOk | deps/bzip2/decompress.c:106-641 | What must hold of the saved variables at each label is kept by every GET_BITS; fewer than nSelectors entries of selectorMtf have been written while more are read. |
| DecodeMachine.SelectorsGoOn | deps/bzip2/decompress.c:286-300 | From every state in which the selectors announced have room in an array of 18002, and over every GET_BITS, they go on having room if and only if no more than 18002 are announced there; fewer than 18002 are then stored before the next one. |
| DecodeMachine.ExecResumes | deps/bzip2/decompress.c:43-66 | Bits that arrive later are used as if they had been there from the start. |
| BlockDecoder.LowRanksMove | deps/bzip2/decompress.c:416-486 | Taking one of the first n entries to the front, n being the number of bytes in use, keeps all of them ranks below n: no entry of seqToUnseq that was never written is read. |
| BlockDecoder.Decoder.Step | deps/bzip2/decompress.c:268-486 | On the arrays (tables, byte map, sliding list, block so far) each step does what the machine does. |
| BlockDecoder.Decoder.Decompress | deps/bzip2/decompress.c:106-641 | One call takes the machine, on its arrays, as far as the input reaches, and returns at the saved label with fewer bits than are asked for. |
| BlockDecoder.Decoder.DecompressAll | deps/bzip2/decompress.c:106-641 | For every splitting of the input into calls the result is that of the whole input. |
| LastToFirst.InverseBwt | deps/bzip2/bzlib_private.h:444-449 | For any sorted listing the walk from origPtr that the tables hold reads off the block in order, also for periodic blocks, whose permutation has several cycles. |
| BlockOutput.DState.GetFast | deps/bzip2/bzlib_private.h:444-449 | From tt: byte number u of the walk, and the position of the next; the position is never out of range. |
| BlockOutput.DState.GetSmall | deps/bzip2/bzlib_private.h:475-479 | From ll16, ll4 and cftab: the same byte and the next position. |
| WalkTables.GenerateCftab | deps/bzip2/decompress.c:504-516 | cftab holds the starts of the bytes in the first column. |
| WalkTables.ScatterFast | deps/bzip2/decompress.c:559-571 | The scatter leaves in tt the walk of the inverse transform above the bytes of the column. |
| WalkTables.SetLL | deps/bzip2/bzlib_private.h:458-470 | The packing into 16 and 4 bits loses nothing: the entry reads back, and no other changes. |
| WalkTables.ReversePointers | deps/bzip2/decompress.c:535-544 | In-place pointer reversal terminates and inverts the permutation along exactly the cycle through origPtr, leaving the rest. |
| BlockOutput.IndexIntoF | deps/bzip2/bzlib.c:687-698 | The binary search over cftab finds the byte of the first column. |
| BlockOutput.DState.BeginOutput | deps/bzip2/decompress.c:494-573 | The walk tables belong to the column, and the first byte has been fetched, in the fast and in the small decoder. |
| BlockOutput.DState.UnRleFast | deps/bzip2/bzlib.c:589-680 | For every size of the output buffer: what is written and what is still to come is the expansion of the rest of the block, the checksum is that of the bytes written, and only a full buffer or the end stops it. |
| BlockOutput.DState.UnRleSmall | deps/bzip2/bzlib.c:759-803 | The same of the small decoder. |
| BlockOutput.Drain | deps/bzip2/bzlib.c:536-804 | For every list of buffer sizes the two decoders write the expansion of the block, or the prefix that fits. |
| StreamFormat.ExecPiece | deps/bzip2/compress.c:602-667 | The machine recovers the column of every block that the compressor may write. |
| StreamFormat.BlockLayout | deps/bzip2/compress.c:630-655 | The bits of a block are those 48, its checksum in 32 bits, a zero bit, the origin pointer in 24 bits, and what follows. |
| StreamFormat.StreamLayout | deps/bzip2/compress.c:624-668 | A stream is "BZh" and the digit of its level, its blocks, the 48 bits of 0x177245385090 and the combined checksum. |
| StreamFormat.RotateIs | deps/bzip2/compress.c:607-608 | The combined checksum is rotated left by one bit for each block. |
| BlockChecksum.RegisterIsRemainder | deps/bzip2/bzlib_private.h:155-172 | The checksum of a block, whose table BZ_UPDATE_CRC walks through, is bit for bit in reverse the remainder modulo the polynomial of CRC-32 (that of Gf2.ResidueOfPolynomial): of the bytes as a polynomial followed by 32 zeros, and of what was in the register before. |
| BlockChecksum.BurstTells | deps/bzip2/bzlib_private.h:155-172 | Blocks that differ within four bytes in a row, and nowhere else, have different checksums. |
| BlockChecksum.CheckValue | deps/bzip2/bzlib_private.h:155-172 | The nine digits "123456789" have the checksum 0xfc891918. |
| StreamSize.PieceSize | deps/bzip2/compress.c:239-597 | A block of n bytes of run-length code takes at most 51600 + 18 n bits. |
| StreamSize.ExpandLength | deps/bzip2/bzlib.c:216-247 | Run-length code is at most five quarters of what it stands for. |
| Compressor.SendPiece | deps/bzip2/compress.c:602-667 | A collected block is sorted, coded and written as one well-formed block; its bytes survive. |
| Protocol.EState.CompressBlock | deps/bzip2/compress.c:602-667 | Header, block and trailer follow each other into a well-formed stream with the right checksums, and what is written fits behind the block in arr2. |
| Protocol.EState.HandleCompress | deps/bzip2/bzlib.c:361-403 | Nothing is lost or repeated between input, block and output; it stops only for lack of input or room or when the request is done; progress is reported exactly. |
| Protocol.EState.BzCompress | deps/bzip2/bzlib.c:407-464 | Over every legal sequence of calls, the blocks, the block in hand and the run in hand stand for the input consumed; STREAM_END only when all announced input is in and the whole stream has been delivered; PARAM_ERROR exactly when a run makes no progress, SEQUENCE_ERROR for each call out of order. |
| Protocol.EState.OutputBound | deps/bzip2/bzlib.c:361-403 | As long as nothing is flushed, the output is within a bound that depends only on the amount of input and the block size. |
| Decompressor.BzDecompressor.BzDecompress | deps/bzip2/bzlib.c:808-858 | For any input, cut into any calls: what comes out is a prefix of what the input means as a stream (StreamMeaning.MeaningOf: the blocks that the machine reads, each unfolded, expanded and checked against its checksum, and the trailer against the combined one), unless it is broken; STREAM_END when and only when it is complete and all is out, DATA_ERROR only if it is broken; without input to come it stops short of the end only for lack of room, or, having put out all, if the input is cut. |
| StreamMeaning.StreamMeans | deps/bzip2/bzlib.c:808-858 | A stream of the compressor, whatever comes behind it, means the bytes that were compressed, and is complete. |
| StreamMeaning.MeaningResumes | deps/bzip2/bzlib.c:808-858 | What the machine has done with the input so far makes no difference to what the whole input means. |
| Buffers.BuffToBuffCompress | deps/bzip2/bzlib.c:1247-1295 | Each return code exactly: PARAM_ERROR for parameters out of range, SEQUENCE_ERROR if and only if source and room are empty, OUTBUFF_FULL only with a full buffer that is smaller than a bound for the size of the source; OK with a complete stream of the source at the level asked for, which for an empty source is the 14 bytes 42 5a 68, the digit, 17 72 45 38 50 90 and four zeros. |
| Buffers.BuffToBuffDecompress | deps/bzip2/bzlib.c:1299-1348 | For any source the return code is that of what it means: OK with its bytes if it is complete and they fit, OUTBUFF_FULL if they do not fit, UNEXPECTED_EOF with all there is if it is cut and room is left, DATA_ERROR if it is broken and room lasts up to there. So any stream of a source comes back as this source, in the fast and in the small decoder. |
| Buffers.ArchiveUnique | deps/bzip2/bzlib.c:1247-1348 | No two sources have the same compressed form. |
| Buffers.ArchiveOfNothing | deps/bzip2/compress.c:622-669 | Any compressed form of nothing at a level is these 14 bytes. |
| Buffers.NothingArchived | deps/bzip2/compress.c:622-669 | And these bytes are one. |
| HashKey.UpdatesForget | deps/zlib/deflate.c:156-163 | After three updates the running hash depends on the last three bytes only. |
| HashKey.ThirdByte | deps/zlib/deflate.c:1375-1382 | Equal keys and two equal bytes leave no choice for the third, which is why the matcher need not compare it. |
| HashKey.KeyOfBytes | deps/zlib/deflate.c:156-163 | The running hash of three bytes is their exclusive or, shifted by hash_shift against each other, as far as it fits. |
| HashChains.InsertKeeps | deps/zlib/deflate.c:182-185 | INSERT_STRING keeps that every chain starts at the latest position with its key, and that every entry within the window leads to the latest earlier one: no position inserted is missing. |
| HashChains.SlideDictionary | deps/zlib/deflate.c:204-228 | So does sliding the window with head and prev. |
| HashChains.ThreeMatch | deps/zlib/deflate.c:1370-1382 | A chain entry that agrees on two bytes agrees on three. |
| HashChains.NextCandidate | deps/zlib/deflate.c:1414-1415 | A link followed within the distance limit leads to a candidate again, and none with the same key is skipped. |
| Deflate.LevelsGrow | deps/zlib/deflate.c:134-146 | Higher levels search no less, up to 3 and from 4 on, with the lines of levels 1, 6 and 9 as literals. |
| Deflate.DeflateState.InsertString | deps/zlib/deflate.c:182-185 | The method does to the arrays what the insertion does to the dictionary, and returns the former head. |
| Deflate.DeflateState.Slide | deps/zlib/deflate.c:1551-1565 | The upper half of the window moves down with all positions, which are relocated or dropped. |
| Deflate.DeflateState.FillWindow | deps/zlib/deflate.c:1522-1641 | Window, dictionary and insertions outstanding stay sound, the input taken is appended to what has been consumed, and the lookahead is sufficient unless the input is used up. |
| Deflate.DeflateState.LongestMatch | deps/zlib/deflate.c:1276-1417 | A match longer than prev_length lies within the distance limit, is a true repetition of that length, goes on no further, and is the nearest of its length. If it is not of nice length, and also if there is none longer than prev_length, no position within reach has a longer one: none of those with the same key that have less than the chain length of others behind them (a quarter of it after a good match). |
| WindowSearch.ExhaustedNone | deps/zlib/deflate.c:1276-1417 | In terms of the whole input: a search that has left nothing out means that no position in reach has a longer match, be its key the same or not. |
| WindowSearch.BestFound | deps/zlib/deflate.c:1276-1417 | And a match found is the best one there: none in reach is longer unless this one is of nice length, and none as long is nearer. |
| Parsing.RunsTaken | deps/zlib/deflate.c:2121-2145 | deflate_rle makes no literal where a byte is about to come for the fourth time. |
| Parsing.MatchesTaken | deps/zlib/deflate.c:1896-1913 | deflate_fast makes no literal where one of the positions that it tries has the same three bytes. |
| Parsing.LongerTaken | deps/zlib/deflate.c:2001-2070 | If deflate_slow makes a literal where one of the positions that it tries has at least six bytes, then a match one byte later is longer, or longer than nice. |
| Parsing.MoreParsed | deps/zlib/deflate.c:1872-2172 | What is right of the tokens stays so when more input and more cuts come. |
| Lz77.CopyRepeats | deps/zlib/deflate.c:1488-1507 | Copying from distance d, byte by byte and possibly overlapping, reproduces data that repeats itself at that distance. |
| Lz77.TokenWritten | deps/zlib/deflate.h:319-343 | A token written to sym_buf is read back, and the earlier ones too. |
| DeflateFast.DeflateFast | deps/zlib/deflate.c:1872-1966 | After any number of calls, expanding the literals and copies tallied reproduces exactly the input consumed up to strstart, with legal lengths and distances; a copy is the best match in reach of the positions inserted, and a literal means that there is none (Parsing.Parsed, see below). More is asked for only without room, or without a flush when the input is used up and less than 262 bytes are ahead; every other return has coded all that was handed in, and says with FINISH_STARTED that there was no room and with FINISH_DONE that there was. |
| DeflateSlow.DeflateSlow | deps/zlib/deflate.c:1974-2097 | The same with lazy evaluation, but for the one byte on which the decision is pending when more is asked for. All positions are inserted; a copy is the best match in reach, and none one byte later is longer unless this one is as long as lazy; a literal means that nothing in reach is of use (three bytes, four if farther than 4096, six with Z_FILTERED), or that it gave way to a longer match one byte later. |
| DeflateRle.DeflateRle | deps/zlib/deflate.c:2105-2172 | The same for matches of distance one, with at most 258 bytes ahead when more input is asked for: a copy goes on as far as its byte does, up to 258, and there is no literal where the byte before it comes three times more. |
| DeflateRle.DeflateInit | deps/zlib/deflate.c:243-388 | A new state satisfies the invariants of all three, with the window, hash and buffer sizes and the limits of the level asked for. |
| InflateTrees.OneSymbol | deps/zlib/inftrees.c:75-102 | No stream starts with the canonical codes of two symbols (section 3.2.2 of RFC 1951). |
| InflateTrees.SomeSymbol | deps/zlib/inftrees.c:130-138 | Unless the set is incomplete, every stream starts with the code of some symbol. |
| InflateTrees.InflateTable | deps/zlib/inftrees.c:32-304 | -1 exactly for over-subscribed sets and disallowed incomplete ones; 1 exactly when the entries of root table and subtables, counted from the lengths alone, are more than the ENOUGH constant; otherwise 0, and then looking up any stream through root table and subtables gives the symbol and the number of bits of the canonical code, an invalid entry where there is none, in exactly that many entries. |
| InflateTrees.RootSuffices | deps/zlib/inftrees.c:113-128 | If no code is longer than the index bits asked for, the entries needed are 2 to the power of the longest. |
| InflateTrees.SameTables | deps/zlib/inftrees.c:257-285 | The subtables that the loop opens one after the other, each sized from the codes still to come, take exactly the entries that the longest code behind each index asks for. |
| CodeTables.Build | deps/zlib/inftrees.c:205-303 | The main loop gives up exactly when the space of the sorted code lengths exceeds ENOUGH, and otherwise leaves a complete table of exactly this space. |
| TableSpace.LongestIs | deps/zlib/inftrees.c:266-273 | The size that the loop over the remaining counts finds for a new subtable is that of the longest code behind its index. |
| CodeTables.DistancesCovered | deps/zlib/inftrees.c:66-73 | The base distances and extra bits cover 1 to 32768 without gap or overlap. |
| CodeTables.LengthsCovered | deps/zlib/inftrees.c:60-65 | So do the base lengths and extra bits for 3 to 258, but for 258, which has a code of its own. |
| CodeTables.LengthLayout | deps/zlib/inftrees.c:60-65 | They are those of section 3.2.5 of RFC 1951: eight codes without extra bits from 3 on, then four for each number of extra bits, and 258. |
| CodeTables.DistanceLayout | deps/zlib/inftrees.c:66-73 | Likewise the distances: four codes without extra bits from 1 on, then two for each number of extra bits. |
| CodeTables.UnusedSymbols | deps/zlib/inftrees.c:60-73 | The entries for the length symbols 286 and 287 and for the distance symbols 30 and 31 say nothing but that the code is invalid. |
| InflateElements.TableProper | deps/zlib/inftrees.c:32-304 | Tables of inflate_table have entries of at most 15 bits with legal bases and extra bits, whatever stream is looked up. |
| InflateElements.NextFits | deps/zlib/inffast.c:30-48 | One literal, match or end of block takes at most 48 bits and stands for at most 258 bytes, at a distance of at most 32768. |
| InflateElements.GiveBack | deps/zlib/inffast.c:292-296 | Returning the whole bytes not used restores the exact position in the stream of bits. |
| CanonicalElements.NextCanonical | deps/zlib/inffast.c:103-291 | With tables that decode the lengths ll and dl, every stream starts with the element that section 3.2 of RFC 1951 defines: the literal, end of block, or base plus extra bits of the symbols whose canonical codes come first, using the bits of these codes and their extra bits; and with an error where no code or a meaningless one comes. |
| CanonicalElements.RunCanonical | deps/zlib/inffast.c:103-291 | So does every run of elements, with the history it builds up. |
| InflateWindow.CopyMatch | deps/zlib/inffast.c:166-264 | The copy from window and output, through all wrap cases and overlaps, appends what copying byte by byte from distance d appends. |
| InflateFast.InflateFast | deps/zlib/inffast.c:50-305 | For any proper tables: it runs through the elements that the lookups define, puts out their bytes, and leaves the stream at the exact bit; it stops only at the end of the block, at an error of the element reached, or with less than 6 bytes of input or 258 of room; no input or room is overrun. |
| InflateBack.BackState.TakeElement | deps/zlib/infback.c:493-577 | The slow path takes the same element with the same number of bits, asking for input only as needed. |
| InflateBack.BackState.DecodeBlock | deps/zlib/infback.c:482-605 | For any proper tables: however the input arrives and whichever turns are fast, the result is that of running through the elements of the block, with all output in the circular window in order; an error is that of the element reached. Streams in which a distance is doubtful are excluded. |
| InflateBack.ChecksAgree | deps/zlib/infback.c:578-583 | The checks of the fast and of the slow loop refuse the same distances if and only if the distance is not one of those beyond the history but within as much again; these are the doubtful ones. |
| InflateBack.ChecksDiffer | deps/zlib/infback.c:578-583 | An input where they do not agree: ten bytes into an empty window, a distance of 15. |
| InflateBlocks.BuildTables | deps/zlib/infback.c:449-476 | The tables of a dynamic block are built exactly when there is an end-of-block code and neither set is refused or too large, and they decode the lengths announced. |
| InflateBlocks.CodedBlock | deps/zlib/infback.c:449-605 | From code lengths to bytes: when the tables can be built, the block is decoded as RFC 1951 defines it for these code lengths, up to its end-of-block code or an error of the element reached. |
| InflateBack.BackState.StoredBlock | deps/zlib/infback.c:327-356 | A stored block is copied if length and complement agree, and refused otherwise. |
| Gf2.MulCommutes | deps/zlib/crc32.c:535-560 | The product modulo the polynomial does not depend on the order of its factors. |
| Gf2.MulAssociates | deps/zlib/crc32.c:535-560 | Nor on how they are grouped. |
| Gf2.ResidueProduct | deps/zlib/crc32.c:535-560 | It is the residue of the product of polynomials. |
| Gf2.ResidueOfPolynomial | deps/zlib/crc32.c:141-141 | The polynomial is that of CRC-32: its residue is zero. |
| Gf2.PowerTable | deps/zlib/crc32.c:562-580 | x to the power 2^k is in the table at k mod 32, for every k. |
| Crc32.MultModP | deps/zlib/crc32.c:542-560 | The loop computes the product modulo the polynomial. |
| Crc32.X2nModP | deps/zlib/crc32.c:566-580 | x to the power n * 2^k, for all n and k. |
| Crc32.CrcOfConcatenation | deps/zlib/crc32.c:1072-1081 | The checksum of a concatenation, from the checksums of the parts and the length of the second, for all byte strings. |
| Crc32.Crc32Combine | deps/zlib/crc32.c:1072-1081 | The method returns it. |
| Crc32.Crc32CombineOp | deps/zlib/crc32.c:1110-1116 | So does applying a prepared operator. |
| Crc32.CrcGoesOn | deps/zlib/crc32.c:739-750 | Going on from the checksum of one part with the next gives the checksum of both. |
| Crc32.CheckValue | deps/zlib/crc32.c:739-750 | The nine digits "123456789" have the checksum 0xcbf43926. |
| Crc32.MakeCrcTable | deps/zlib/crc32.c:273-289 | Entry i is what eight steps make of i. |
| Crc32Braid.WordOfBytes | deps/zlib/crc32.c:716-724 | Going over the bytes of a little-endian word of four or eight bytes one by one is adding the register to the word and taking the word as a whole. |
| Crc32Braid.CrcWord | deps/zlib/crc32.c:716-724 | The loop over the bytes of a word gives what they amount to, also while the upper half of an eight-byte word is still to come. |
| Crc32Braid.MakeBraidTables | deps/zlib/crc32.c:505-522 | Table k takes a byte over the rest of a block of five words. |
| Crc32Braid.Braided | deps/zlib/crc32.c:795-888 | Five registers over interleaved words, combined at the last block, give the register of the byte-at-a-time loop, for both sizes of words. |
| Crc32Braid.Crc32Z | deps/zlib/crc32.c:739-1058 | For every length, every alignment and words of four or eight bytes the result is the bytewise checksum (section 8 of RFC 1952). |
| Adler32.NmaxFits | deps/zlib/adler32.c:14-17 | No sum of 5552 bytes reaches 2^32, even from halves that are not reduced, and a sum of 5553 can. |
| Adler32.Mod | deps/zlib/adler32.c:28-43 | The reduction without division is the remainder for every 32-bit number. |
| Adler32.Mod63 | deps/zlib/adler32.c:44-55 | So it is for every nonnegative 63-bit number. |
| Adler32.Adler32Z | deps/zlib/adler32.c:63-131 | For every length and any 32-bit number to go on from, the result is the definition with both sums reduced at every byte (section 2.2 of RFC 1950) if and only if it is not a single byte after halves that one subtraction leaves too large; no 32-bit sum overflows. |
| Adler32.ReducedEnough | deps/zlib/adler32.c:76-84 | After a checksum, whose halves are reduced, this never is the case. |
| Adler32.Adler32Combine | deps/zlib/adler32.c:143-169 | The checksum of a concatenation from those of its parts, and the impossible checksum for a negative length. |
| Adler32.AdlerGoesOn | deps/zlib/adler32.c:63-131 | A checksum can be continued with what comes next. |
| Adler32.CheckValue | deps/zlib/adler32.c:63-131 | The letters of "Wikipedia" have the checksum 0x11e60398. |
| Sfmt.ShiftsBytes | deps/SFMT/SFMT-common.h:58-115 | The shifts by one byte carry across all four words of 32 bits. |
| Sfmt.RecursionBits | deps/SFMT/SFMT-common.h:144-162 | Every bit of the recursion is the sum of at most five bits: of a, of a eight bits below in 128, of b eleven bits above unless the mask of the word stops it, of c eight bits above in 128, and of d eighteen bits below. |
| Sfmt.FirstWords | deps/SFMT/SFMT-common.h:144-162 | The first four words that are made from a certain state with two bits set are 0x100, 0x4000000, 1 and 0, in the lowest 32 bits. |
| Sfmt.WindowsChain | deps/SFMT/SFMT.c:245-263 | Any sequence of calls, in place or into arrays, goes on along one and the same infinite stream. |
| Sfmt.State.GenRandAll | deps/SFMT/SFMT.c:245-263 | The next 156 words of the stream replace the last ones in place. |
| Sfmt.State.GenRandArray | deps/SFMT/SFMT.c:95-128 | For every size from 156 on, overlapping or not, the array gets the next words of the stream and the state the last 156 of them. |
| Sfmt.State.GenRandUint32 | deps/SFMT/SFMT.h:139-151 | The next 32-bit word of the stream, refilling when needed. |
| Sfmt.State.FillArray32 | deps/SFMT/SFMT.c:293-300 | The next words of the stream, after which single words go on where it stopped. |
| Sfmt.FoldIsParity | deps/SFMT/SFMT.c:181-183 | The folding loop computes the parity of the number of bits set. |
| Sfmt.State.PeriodCertification | deps/SFMT/SFMT.c:170-200 | Against any nonzero parity vector the parity ends up odd; a state that had it is not changed, and the other words never are. |

## How the code is modelled

* Where C overlays two arrays, the model keeps two and destroys one when the other is written: eclass destroys the block
  and all behind it before `FallbackSort.Rebuild`; mtfv is written into the memory of ptr itself (`BlockCompressor.AsWords`).
* The block array has the 34 bytes of overshoot; fmap and eclass are handed over with the length of the block.
* In the decoder the tables limit, base and perm are allocated for each block instead of being reused, and the column is
  collected before it is loaded into tt or ll16, where the C code writes its bytes one by one. The machine's state before
  the symbols (mapping table, selectors, lengths so far) is kept as values.
* A bit-or of numbers without common bits is written as an addition in the bit buffers; `HeaderBits`, the checksums and
  SFMT work on bit vectors.
* Loops unrolled by hand are written as loops, and gotos into loops as calls; the packed cost counters of the encoder are
  modelled (two of 16 bits at a time).
* Reading input by callback (read_buf, the in() and out() of inflateBack), the flush of a block in deflate and the room it
  leaves are nondeterministic.
* match_start wraps around in 32 bits where the C code lets it.
* The mask that multmodp moves down over a is modelled by moving a up.
* The history of inflateBack is the sequence of all bytes put out. While the window has not wrapped, a fast turn takes
  distances beyond the history, but within as much again, that the slow loop refuses (`InflateBack.ChecksAgree`); which of
  the two happens depends on how the input arrives, and the decoding loops are stated for streams without such distances.
* A word of the braided CRC is held in 64 bits, of which one of four bytes uses the lower half; its number of bytes is a
  parameter.
* selectorMtf is a list without end. Its array in the C code has 18002 entries, and the decoder reads up to 32767 selectors
  without a test. Streams of the encoder have at most 18002 (`BlockFormat.PlanFits`, `TableChoice.ChooseTables`);
  `DecodeMachine.SelectorsGoOn` gives the exact condition for others.
* BZ_DATA_ERROR_MAGIC and BZ_DATA_ERROR are one error.
* The ghost field cuts of the deflate state records where a flush ended the input; it is not in the C code.

## Left out

- BlockDecoder.Decoder.Step: randomised blocks end in DATA_ERROR, because the encoder never writes them and randtable.c is not part of this model.
- DecodeMachine.NextOk: that no more than 18002 selectors are stored is not among what is kept, because it does not hold of every stream (see DecodeMachine.SelectorsGoOn).
- Buffers.BuffToBuffCompress: the bound on the output is the one that at most 17 bits a symbol give; the documented one per cent and 600 bytes is not proved. That the code lengths are the cheapest is proved for each table by itself, and for the frequencies as they are only while these add up to less than 6765.
- Decompressor.BzDecompressor.BzDecompress: how much of a block comes out that turns out to be broken is not stated.
- DeflateRle.DeflateInit: level 0 and the strategies Z_HUFFMAN_ONLY and Z_FIXED are absent, and so are deflate_stored and deflate_huff.
- InflateFast.InflateFast: when the output buffer is the window itself it is stated for streams without a doubtful distance (see above).
- InflateBack.BackState.DecodeBlock: likewise; what becomes of a doubtful distance depends on how the input is cut.
- InflateTrees.InflateTable: the caller provides the table space of the ENOUGH constants; that complete codes for the 286 and 30 symbols never need more, which was found by exhaustive search, is not proved.
- Adler32.Adler32Z: the null buffer is absent.
- Crc32Braid.Crc32Z: other numbers of braids than five and the big-endian loop are absent.
- Sfmt.State.FillArray32: arrays of 64-bit words and conversions to floating point are absent, as are the functions that initialize the state from seeds.
- bzip2's file functions, allocation, verbosity and version strings.
- trees.c and inflate.c: how the tokens become blocks, and the states for headers and trailers; sym_buf is taken as the output of deflate.
- The states of inflateBack that read the header of a dynamic block and its code lengths; the fixed tables are not built either.
- deflateParams, deflateTune, deflateCopy, deflateSetDictionary, deflateBound and the variants FASTEST, ASMV and UNALIGNED_OK.
- The frequency counters beside sym_buf, block_start, and the checksum that read_buf updates.
- The gz functions, the header generator of crc32.c, its ARM and big-endian paths, and the initialization by once().
- The SIMD and big-endian variants of SFMT.
- The optimality of sendMTFValues' tables together: each pass is cheapest for what the one before left, no more.
