# Verified model of the ISA-L crypto hash core

This project models the parts of the library that carry state across calls or do the same
computation in a fast and in a simple form, and proves what they promise.

- **Multi-buffer context manager** (`MessagePadding`, `HashContext`, `HashManager`, `HashBase`, `HashRuns`,
  `Md5`, `Md5Abc`, `Sha1Message`, `LengthCode`). Many messages share one lane engine. The engine is assembly; here it is any behaviour
  that holds a set of jobs, runs their blocks in any order at any time inside a call, reading each block
  from memory when it runs it, and hands back finished jobs. The hash algorithm is a value
  (`HashAlgorithm`: initial digest, compression function, byte order of the length); `Md5.MD5` and
  `Sha1Message.SHA1` are the two values the library's managers use. A history of acceptances and returns
  says what the user saw; `Faithful` says that every event of it was right, and `HashRuns.AnyUser` is
  the theorem about all runs. `HashBase` is the synchronous manager; `HashRuns.SameAnswer` says that the two
  give the same answers, and `HashRuns.TwoMessages` uses a manager from its init calls on.
- **Multi-hash** (`Words`, `Sha1`, `Sha1Abc`, `MhSha1`, `MhSha1Blocks`, `MhSha1Stream`, `Sha256`,
  `Sha256Abc`, `MhSha256`, `MhSha256Blocks`, `CircularBuffer` and `Relayout`). One message is split word by word over
  sixteen segments that are hashed in lockstep. The lockstep code, with its circular schedule and renamed
  register rows, and the reference code, which re-lays the digests in place, are both proved to compute
  sixteen independent hashes as FIPS 180-4 defines them. For SHA-1 the streaming layer is proved on top: any
  split into updates gives the digest that the one-shot reference gives.
- **murmur3 and the stitched hash** (`TailHash`, `Word64`, `Murmur3`, `Murmur3Fox`, `Murmur3Code`,
  `MhSha1Murmur3`).
  `TailHash` is the theory of hashes whose steps can be undone; murmur3 is an instance, with explicit
  inverses of every step. The stitched context is proved to compute mh_sha1 and murmur3 of the same message.
- **Rolling hash and chunking** (`Bits64`, `RollingHash`, `RollingLemmas`, `RollingRuns`, `RollingCuts`, `Pieces`,
  `Chunking`, `MaskGen`).
  A run is proved to be a scan of the history window followed by the buffer, two runs to be one run on both
  inputs, runs in a loop to stop at exactly the places that hit, which depend on content alone, chunking to be
  the content-defined partition, and the mask to have the bits it should.
- **FIPS self-test gate** (`SelfTestGate`). A transition system over any number of threads; every atomic
  operation is a step, the outcomes of the test suites are picked by the environment. Safety holds for every
  schedule; every fair schedule without new calls brings every open call back.

`Bytes`, `ByteDigits` and `Division` hold what the others share: byte strings, the fold over blocks, the bytes
of a number, remainders.

## Reading the model

- Memory is little-endian, as on the hosts that the word loads and stores of the code assume. Bytes are
  `bv8`, words `bv32` and `bv64`; in the rolling hash and the mask generator a word is the sequence of its
  bits, so that shifts by a variable amount are slices. Byte counters are naturals cut to 2^64 where the C
  type is uint64_t and to 2^32 where it is uint32_t.
- User buffers are values: the bytes a caller passes do not change while a job reads them, as the library
  asks of its callers. The block buffer of a context is an array that jobs read when they are run.
- A job runs when the engine likes, so a digest is proved right for what is in memory then.

- What code and specification share is fixed from outside. MD5, SHA-1, SHA-256 and murmur3 are proved to have
  the published value of one message each (`Md5Abc`, `Sha1Abc`, `Sha256Abc`, `Murmur3Fox`), step by step; the
  length fields are proved to hold the length, the memory image of words to read back as the words, and each
  lane of the multi-hash to read its own words and no others.

## Where code and documentation disagree

The model follows the code.

- rolling_hash/rolling_hashx_internal.h:51 documents window widths up to 32. The code accepts up to 48
  (`ISAL_FINGERPRINT_MAX_WINDOW`), and the proofs cover 1 to 48.
- `_rolling_hash2_run` takes a 32-bit unsigned length but hands it on as an int. From 2^31 bytes on, only
  the first w bytes are looked at: `RollingLemmas.RunReadsAllExactly` and `RollingLemmas.LongBufferMissesHit`.
- finalize of mh_sha1 keeps a 64-bit length but encodes its low 32 bits: `MhSha1Stream.TruncationExact`
  says when that is harmless, `MhSha1Stream.TruncationMatters` gives an input where it is not.
- The comment at fips/self_tests_generic.c:70 says that only a thread that met the running status waits:
  that is so exactly for fewer than two threads (`SelfTestGate.WaitersMetRunningExactly`). The verdict of a
  thread that waits without having met it is right all the same.

## Model

| member | source | states |
|---|---|---|
| HashRuns.AnyUser | md5_mb/md5_ctx_sse.c:51-157 | whole runs: for any requests in any order over any set of contexts and any behaviour of the engine, flushed at the end, each call adds to the history what it should at its point of it (nothing for a refused request, otherwise the acceptance with its bytes and flags, and at most one return; a flush returns nothing only where no context is in flight), the acceptances are exactly the requests that were not refused, in order, every event was allowed when it happened, every context returned complete carried the hash of exactly the buffers accepted for it since its last FIRST, and every accepted request was answered exactly once |
| HashRuns.Ask | md5_mb/md5_ctx_sse.c:51-157 | one call of submit or flush: the answer it should have at its point of the history; a flush that returns nothing leaves no context in flight |
| HashRuns.AcceptedInOrder | md5_mb/md5_ctx_sse.c:55-71 | the acceptances of an answered run are those of the requests that were not refused where they were made: AlreadyProcessing exactly for a context in flight, AlreadyCompleted exactly without FIRST on one that was never accepted or had its LAST |
| HashRuns.TwoMessages | md5_mb/md5_ctx_sse.c:45-157 | from nothing: a manager, two contexts as init leaves them, one message each, flush, and both hashes |
| HashRuns.SameAnswer | md5_mb/md5_ctx_base.c:83-128 | whatever the engine did, a context that is back with its user has the status, digest, byte count and buffered bytes that the synchronous manager leaves after the same requests |
| HashRuns.RestDecides | md5_mb/md5_ctx_base.c:155-239 | a context at rest is determined by its message and by whether LAST was asked for |
| HashRuns.Replay | md5_mb/md5_ctx_base.c:83-128 | the synchronous manager refuses none of the requests that the other accepted, and ends with their message |
| HashRuns.TakenIsTheMessage | md5_mb/md5_ctx_sse.c:55-96 | the requests a history accepted for a context make up its message and only FIRST follows nothing or a LAST |
| HashRuns.BackWithHash | md5_mb/md5_ctx_sse.c:164-167 | a context back with its user after LAST is COMPLETE and holds the hash of its message |
| HashRuns.StatusWhenBack | md5_mb/md5_ctx_sse.c:164-220 | the status bits of a context that is back are those its history asks for: COMPLETE alone before the first FIRST and after LAST, none otherwise |
| HashManager.HashCtxMgr.RefusalIsRejection | md5_mb/md5_ctx_sse.c:55-71 | the status bits say exactly what the user can tell from the calls so far |
| HashManager.OnlyReturnsKeep | md5_mb/md5_ctx_sse.c:133-157 | returning contexts changes no message |
| HashManager.HashCtxMgr.Submit | md5_mb/md5_ctx_sse.c:51-131 | the three rejections, in the order of the tests, change the error field and nothing else; an accepted request is recorded with its flags and bytes, the context joins those in flight, and whatever context comes back leaves them, IDLE or COMPLETE as its last request asked, COMPLETE with the hash of its message |
| HashManager.HashCtxMgr.Flush | md5_mb/md5_ctx_sse.c:133-157 | terminates; returns null exactly when no job is in flight, and otherwise a context that was in flight and no longer is |
| HashManager.HashCtxMgr.Drain | md5_mb/md5_ctx_sse.c:133-157 | flushing until null brings every context back to its user and adds nothing but returns to the history |
| HashManager.HashCtxMgr.Resubmit | md5_mb/md5_ctx_sse.c:159-224 | terminates although each turn may go on with another context, because the jobs still to be submitted over all contexts decrease; no context is lost, and what is handed back is not in flight |
| HashManager.HashCtxMgr.ResubmitAndReturn | sha1_mb/sha1_ctx_avx512_ni.c:185-245 | the same loop with the record of what came back: the contexts in flight are those accepted and not yet returned |
| HashManager.HashCtxMgr.FlushTurn | sha1_mb/sha1_ctx_avx512_ni.c:160-183 | one turn of flush: empty exactly when nothing was in flight; a turn that returns nothing has used up one pending job |
| HashManager.HashCtxMgr.SubmitAccepted | sha1_mb/sha1_ctx_avx512_ni.c:98-157 | an accepted request of the SHA-1 manager: same contexts in flight plus the new one minus the returned one |
| HashManager.HashCtxMgr.Turn | md5_mb/md5_ctx_sse.c:162-221 | one turn of resubmit: finish, take the whole blocks of the user buffer, pad, or go IDLE; the turn that neither returns nor empties the hand lowers the count of pending jobs |
| HashManager.HashCtxMgr.LaneSubmit | md5_mb/md5_ctx_sse.c:125-126 | the engine takes a context that is not yet in a lane and returns nothing or one finished job; afterwards at least one lane is free |
| HashManager.HashCtxMgr.LaneFlush | md5_mb/md5_ctx_sse.c:139-144 | the engine returns a finished job, and nothing only when no lane is in use |
| HashManager.HashCtxMgr.RunLanes | md5_mb/md5_ctx_sse.c:125-126 | blocks of any lanes, run in any order inside any call, keep every context in flight consistent with its message |
| HashManager.HashCtxMgr.Reject | md5_mb/md5_ctx_sse.c:55-71 | setting the error of a rejected request keeps the whole manager valid, even for a context in flight |
| HashManager.ReturnsMatchAccepts | md5_mb/md5_ctx_sse.c:133-224 | in every history that was allowed, a context is returned as often as it was accepted, but for the one time it may still be in flight |
| HashManager.OpenAfter | md5_mb/md5_ctx_sse.c:162-221 | the contexts in flight after an acceptance or a return |
| HashManager.ConservesAll | md5_mb/md5_ctx_sse.c:162-221 | a call that was handed one context and handed back another moved exactly these two |
| HashContext.HashCtx.Accept | md5_mb/md5_ctx_sse.c:73-96 | recording a request: FIRST starts a new message, the bytes are appended, every byte of the message is hashed, buffered or waiting |
| HashContext.HashCtx.FillPartial | md5_mb/md5_ctx_sse.c:101-128 | topping up the block buffer moves bytes without losing or reordering any; a full block becomes a job and leaves the buffered length zero |
| HashContext.HashCtx.TakeBlocks | md5_mb/md5_ctx_sse.c:168-200 | with an empty block buffer the whole blocks of the user buffer become one job and the rest is buffered |
| HashContext.HashCtx.PadLast | md5_mb/md5_ctx_sse.c:203-216 | at padding time the buffered length is the total length modulo 64; the padded tail in place is the rest of the padded message |
| HashContext.HashCtx.RunBlock | md5_mb/md5_ctx_sse.c:125-126 | a job block, read from memory when the engine runs it, is the next block of the message: no call wrote the buffer in between |
| HashContext.TailCount | md5_mb/md5_ctx_sse.c:236-239 | the 64-bit byte counter and the buffered length agree modulo the block size, for messages of any length |
| HashContext.AbsorbBlock | md5_mb/md5_ctx_sse.c:195-197 | hashing one more block is one more application of the compression function |
| HashContext.HashCtx.constructor | include/isa-l_crypto/multi_buffer.h:148-152 | a fresh context counts as complete without a message, which is all a manager asks of it; so only FIRST may follow |
| MessagePadding.HashPad | md5_mb/md5_ctx_sse.c:236-251 | for every 64-bit length the branch-free code writes exactly 0x80, zeros and the 64-bit bit length after the tail, ending on a block boundary after one or two blocks, inside the 128-byte buffer, although it clears 64 bytes only |
| MessagePadding.PadCopy | md5_mb/md5_ctx_base.c:211-231 | the loop that pads a copy produces the same bytes |
| MessagePadding.BranchFreeZeros | sha1_mb/sha1_ctx_avx512_ni.c:256-266 | masking the negated length yields the number of zeros that the padding needs |
| MessagePadding.ZerosCount | md5_mb/md5_ctx_base.c:221-229 | the same number from the branch on the position |
| MessagePadding.PaddingIsLeast | md5_mb/md5_ctx_sse.c:245-246 | the padding ends on a block boundary and no shorter run of zeros does |
| MessagePadding.PaddingOfLengthMod | md5_mb/md5_ctx_sse.c:248 | only the length modulo 2^64 matters |
| MessagePadding.NegationMod | md5_mb/md5_ctx_sse.c:245-246 | the low six bits of a negated uint64_t |
| MessagePadding.WrittenOut | md5_mb/md5_ctx_sse.c:241-248 | marker, zeros and length where they belong are the padding |
| HashBase.SubmitBase | md5_mb/md5_ctx_base.c:83-128 | the synchronous manager meets the same specification in one call: status, message and, after LAST, the hash of the message; a rejected request leaves digest, status and message alone |
| HashBase.Serve | md5_mb/md5_ctx_base.c:106-125 | the four flag values |
| HashBase.Update | md5_mb/md5_ctx_base.c:155-209 | md5_update appends the buffer to the message, hashes every whole block and buffers the rest |
| HashBase.TopUp | md5_mb/md5_ctx_base.c:167-192 | its first half: the block buffer is topped up and hashed when full |
| HashBase.Final | md5_mb/md5_ctx_base.c:211-239 | md5_final turns the buffered rest into the digest of the whole message |
| HashBase.Single | md5_mb/md5_ctx_base.c:190-198 | md5_single on the next block of the message |
| HashBase.SameRejections | md5_mb/md5_ctx_base.c:88-104 | the two managers reject the same requests on contexts that are with their user; on a context that is processing they agree only on FIRST with LAST and on invalid flags |
| Md5.Single | md5_mb/md5_ctx_base.c:241-326 | the sixty-four step macros with renamed registers are the compression function of RFC 1321 section 3.4 |
| Md5.Step | md5_mb/md5_ctx_base.c:54-65 | one step macro is one operation of the round it belongs to, in the roles it names |
| Md5.ConstantsAgree | md5_mb/md5_ctx_base.c:254-320 | the constants in the macros are the table of the standard |
| Md5.StepFIsMix | md5_mb/md5_ctx_base.c:47-50 | F1 to F4 are the functions F, G, H and I of the standard |
| Md5.Rotates | md5_mb/md5_ctx_base.c:52 | rol32 is a rotation |
| Md5.SingleBytes | md5_mb/md5_ctx_base.c:190 | on bytes it is the compression function of the algorithm MD5() that the managers take |
| Md5Abc.HashAbc | md5_mb/md5_mb_test.c:53-69 | the digest of "abc" that the test expects: padding, length field, words, initial value, constants and all sixty-four operations are those of RFC 1321 |
| Md5Abc.CompressAbc | md5_mb/md5_ctx_base.c:241-326 | the value of the compression function on its block, operation by operation |
| LengthCode.LengthLEHolds | md5_mb/md5_ctx_sse.c:248 | the eight bytes of the MD5 length field hold the length modulo 2^64, the least significant first |
| LengthCode.LengthBEHolds | sha1_mb/sha1_ctx_sse.c:246 | those of SHA-1 hold it the most significant first |
| Md5.NextRound | md5_mb/md5_ctx_base.c:54-65 | with the library operators a step is an operation of the standard |
| Md5.FourSteps | md5_mb/md5_ctx_base.c:254-320 | four steps with renamed registers, after which every register has its first role again |
| Md5.Round1 | md5_mb/md5_ctx_base.c:254-269 | steps 0 to 15, with words and shift counts as listed |
| Md5.Round2 | md5_mb/md5_ctx_base.c:271-286 | steps 16 to 31 |
| Md5.Round3 | md5_mb/md5_ctx_base.c:288-303 | steps 32 to 47 |
| Md5.Round4 | md5_mb/md5_ctx_base.c:305-320 | steps 48 to 63 |
| Md5.AllRounds | md5_mb/md5_ctx_base.c:254-320 | the sixty-four steps are the sixty-four operations |
| Sha1.Single | mh_sha1/sha1_for_mh_sha1.c:70-172 | the eighty step macros with a circular 16-word schedule and renamed registers are the compression function of FIPS 180-4 section 6.1.2 |
| Sha1Abc.HashAbc | mh_sha1/sha1_for_mh_sha1.c:70-208 | the digest of "abc" that FIPS 180 gives for SHA-1: padding, words, initial value, schedule and rounds |
| Sha1Abc.CompressAbc | mh_sha1/sha1_for_mh_sha1.c:70-172 | the value of the compression function on its block, eight rounds at a time |
| Sha1.Step | mh_sha1/sha1_for_mh_sha1.c:47-68 | one step macro keeps the schedule buffer and the registers where the standard has them |
| Sha1.FiveSteps | mh_sha1/mh_sha1_ref.c:88-92 | after five steps every register is in its first role again |
| Sha1.StepIsRound | mh_sha1/mh_sha1_internal.h:71-74 | a step with the operators of the library is a round of the standard |
| Sha1.StepFIsF | mh_sha1/mh_sha1_internal.h:71-74 | F1 and F3 are Ch and Maj |
| Sha1.WordIsNext | mh_sha1/sha1_for_mh_sha1.c:49-51 | the word computed from the buffer is the next word of the schedule |
| Sha1.CircularStep | mh_sha1/sha1_for_mh_sha1.c:49-51 | w[i & 15] computes the schedule word t of the standard, and keeps the last sixteen |
| Sha1Message.HashMessage | mh_sha1/sha1_for_mh_sha1.c:174-208 | _sha1_for_mh_sha1 is SHA-1 of the whole input, padded as in section 5.1.1 |
| Sha1Message.HashBlocks | mh_sha1/sha1_for_mh_sha1.c:186-191 | its loop over the whole blocks |
| Sha1Message.PadTail | mh_sha1/sha1_for_mh_sha1.c:193-203 | its padding of the rest |
| Sha1Message.HashEnd | mh_sha1/sha1_for_mh_sha1.c:205-207 | its one or two last blocks |
| MhSha1.Single | mh_sha1/mh_sha1_block_base.c:279-385 | one lockstep call over sixteen segments is sixteen independent SHA-1 compressions of the transposed words |
| MhSha1.Step | mh_sha1/mh_sha1_block_base.c:180-223 | one lockstep step advances every lane by one round of its own SHA-1 |
| MhSha1.UpdateW | mh_sha1/mh_sha1_block_base.c:38-88 | STORE_W and UPDATE_W replace one row of the schedule, lane by lane |
| MhSha1.UpdateE | mh_sha1/mh_sha1_block_base.c:44-160 | UPDATE_E1 to UPDATE_E4 |
| MhSha1.UpdateB | mh_sha1/mh_sha1_block_base.c:52 | UPDATE_B |
| MhSha1.LaneStep | mh_sha1/mh_sha1_block_base.c:180-223 | what a step does to one lane |
| MhSha1.FiveSteps | mh_sha1/mh_sha1_block_base.c:295-299 | five renamed steps restore the roles |
| MhSha1.EightySteps | mh_sha1/mh_sha1_block_base.c:295-378 | eighty steps bring every lane through all rounds |
| MhSha1.InitRow | mh_sha1/mh_sha1_block_base.c:225-244 | init_abcde |
| MhSha1.AddRow | mh_sha1/mh_sha1_block_base.c:246-265 | add_abcde |
| MhSha1.LanesDecide | mh_sha1/mh_sha1_block_base.c:388-390 | digests with the same lanes are the same |
| MhSha1Blocks.BlockBase | mh_sha1/mh_sha1_block_base.c:387-400 | over any number of blocks the lockstep form computes the segment digests of the specification |
| MhSha1Blocks.BlockRef | mh_sha1/mh_sha1_ref.c:319-352 | and so does the reference: re-layout in place, sixteen plain SHA-1 updates per block, re-layout back |
| MhSha1Blocks.SegmentsIndependent | mh_sha1/mh_sha1_ref.c:298-317 | each lane of the result is the SHA-1 chain of its own segment alone |
| MhSha1Blocks.LaneReads | mh_sha1/mh_sha1_block_base.c:387-400 | a lane reads the words of the data whose index is its own modulo 16, and nothing else |
| MhSha1Blocks.WordChangesLane | mh_sha1/mh_sha1_block_base.c:387-400 | changing the four bytes of word k can change no lane but k mod 16 |
| MhSha1Blocks.SegmentBytes | mh_sha1/mh_sha1_ref.c:224-262 | word i of segment s is the big-endian word 16 i + s of the block |
| MhSha1Blocks.RelayoutIdentity | mh_sha1/mh_sha1_ref.c:329-349 | re-layout and back is the identity on digests |
| Relayout.Transpose | mh_sha1/mh_sha1_ref.c:329-335 | rows of sixteen to sixteen groups, 5 x 16 to 16 x 5 or 8 x 16 to 16 x 8, through the frame buffer and back into the same memory |
| Relayout.TransposeBack | mh_sha1/mh_sha1_ref.c:343-349 | and back |
| Relayout.LayOut | mh_sha1/mh_sha1_ref.c:330-334 | the two nested loops of the first re-layout |
| Relayout.LayBack | mh_sha1/mh_sha1_ref.c:344-348 | and of the second |
| MhSha1Blocks.RefTurn | mh_sha1/mh_sha1_ref.c:338-341 | one turn of the block loop on the re-laid digests |
| MhSha1Blocks.RelaidLanes | mh_sha1/mh_sha1_ref.c:329-335 | the groups are the lanes |
| MhSha1Blocks.TransformInput | mh_sha1/mh_sha1_ref.c:262-283 | the words of each segment one after the other |
| MhSha1Blocks.TransformSegment | mh_sha1/mh_sha1_ref.c:224-243 | of one segment |
| MhSha1Blocks.UpdateAllSegments | mh_sha1/mh_sha1_ref.c:298-317 | every segment is compressed with its own sixteen words |
| MhSha1Blocks.UpdateSegment | mh_sha1/mh_sha1_ref.c:245-247 | one segment is, and the others are left alone |
| MhSha1Stream.HashPieces | mh_sha1/mh_sha1_update_base.c:44-98 | any way of cutting a message into updates and then finalize gives StreamDigest of the message |
| MhSha1Stream.OneShot | mh_sha1/mh_sha1_ref.c:387-436 | mh_sha1_ref gives the same digest, for every length its argument can hold |
| MhSha1Stream.MhSha1Ctx.Update | mh_sha1/mh_sha1_update_base.c:44-98 | update appends its buffer to the message the context stands for |
| MhSha1Stream.MhSha1Ctx.UpdateBlocks | mh_sha1/mh_sha1_update_base.c:72-95 | filling the partial block, the whole blocks and the new rest lose no byte |
| MhSha1Stream.MhSha1Ctx.Finalize | mh_sha1/mh_sha1_finalize_base.c:81-112 | finalize returns the digest of the message with its length cut to 32 bits |
| MhSha1Stream.Tail | mh_sha1/mh_sha1_finalize_base.c:47-79 | the tail hashes the padded rest and then the sixteen segment digests as one SHA-1 message |
| MhSha1Stream.HashTail | mh_sha1/mh_sha1_ref.c:354-378 | the padded rest in one or two blocks of 1024 bytes |
| MhSha1Stream.TruncationExact | mh_sha1/mh_sha1_finalize_base.c:99-100 | the cut to 32 bits leaves the padding as it should be if and only if the length modulo 2^61 is below 2^32 |
| MhSha1Stream.TruncationMatters | mh_sha1/mh_sha1_finalize_base.c:99-100 | two updates that reach 2^32 bytes, where the padding encodes length zero |
| LengthCode.LengthFieldExact | mh_sha1/mh_sha1_finalize_base.c:70-71 | two lengths have the same big-endian length field exactly when they agree modulo 2^64 |
| MhSha1Stream.MhSha1Ctx.constructor | mh_sha1/mh_sha1.c:34-55 | _mh_sha1_init stands for the empty message |
| MhSha1Stream.StartDigests | mh_sha1/mh_sha1.c:46-52 | the loop of init stores the five words of SHA-1 into every segment |
| MhSha1Stream.InitialLanes | mh_sha1/mh_sha1_ref.c:398-405 | every segment starts from the initial value of SHA-1 |
| Words.MemoryHolds | mh_sha1/mh_sha1_finalize_base.c:74-76 | the bytes the second hash takes are the digest words in memory order, each with its least significant byte first |
| Sha256.Single | mh_sha256/mh_sha256_ref.c:56-145 | the sixty-four step macros are the compression function of FIPS 180-4 section 6.2.2 |
| Sha256Abc.CompressAbc | mh_sha256/mh_sha256_ref.c:56-145 | the value FIPS 180 gives for the block of "abc" |
| Sha256.MajBits | mh_sha256/mh_sha256_internal.h:76 | the macro maj is the majority of each bit |
| Sha256.Step | mh_sha256/mh_sha256_ref.c:46-54 | one step macro, with t1 and t2 |
| Sha256.EightSteps | mh_sha256/mh_sha256_ref.c:72-79 | after eight steps every register is in its first role again |
| Sha256.ConstantsAgree | mh_sha256/mh_sha256_ref.c:72-135 | the constants in the macros are the table of the standard |
| MhSha256.ConstantsAgree | mh_sha256/mh_sha256_block_base.c:124-136 | and so is the table k of the lockstep form |
| Sha256.NextRound | mh_sha256/mh_sha256_internal.h:69-77 | a step with the operators of the library is a round of the standard |
| Sha256.SmallSigmas | mh_sha256/mh_sha256_internal.h:71-72 | S0 and S1 are the small sigma functions |
| Sha256.BigSigmas | mh_sha256/mh_sha256_internal.h:74-75 | s0 and s1 are the big sigma functions |
| Sha256.WordIsNext | mh_sha256/mh_sha256_ref.c:46-50 | the word computed from the buffer is the next word of the schedule |
| Sha256.CircularStep | mh_sha256/mh_sha256_ref.c:46-50 | w[i & 15] computes the schedule word t of the standard |
| MhSha256.Single | mh_sha256/mh_sha256_block_base.c:115-168 | one lockstep call is sixteen independent SHA-256 compressions |
| MhSha256.Step | mh_sha256/mh_sha256_block_base.c:70-85 | one lockstep step advances every lane by one round of its own SHA-256 |
| MhSha256.LaneStep | mh_sha256/mh_sha256_block_base.c:70-85 | what a step does to one lane |
| MhSha256.EightSteps | mh_sha256/mh_sha256_block_base.c:150-157 | eight renamed steps restore the roles |
| MhSha256.AllSteps | mh_sha256/mh_sha256_block_base.c:149-158 | the loop of eight steps |
| MhSha256.UpdateW | mh_sha256/mh_sha256_block_base.c:38-43 | STORE_W and UPDATE_W |
| MhSha256.UpdateT1 | mh_sha256/mh_sha256_block_base.c:45-46 | UPDATE_T1 |
| MhSha256.UpdateT2 | mh_sha256/mh_sha256_block_base.c:44 | UPDATE_T2 |
| MhSha256.UpdateD | mh_sha256/mh_sha256_block_base.c:47 | UPDATE_D |
| MhSha256.UpdateH | mh_sha256/mh_sha256_block_base.c:48 | UPDATE_H |
| MhSha256.InitRow | mh_sha256/mh_sha256_block_base.c:87-93 | init_abcdefgh |
| MhSha256.AddRow | mh_sha256/mh_sha256_block_base.c:95-101 | add_abcdefgh |
| MhSha256Blocks.BlockBase | mh_sha256/mh_sha256_block_base.c:170-183 | over any number of blocks the lockstep form computes the segment digests of the specification |
| MhSha256Blocks.BlockRef | mh_sha256/mh_sha256_ref.c:291-324 | and so does the reference |
| MhSha256Blocks.SegmentsIndependent | mh_sha256/mh_sha256_ref.c:269-289 | each lane of the result is the SHA-256 chain of its own segment alone |
| MhSha256Blocks.LaneReads | mh_sha256/mh_sha256_block_base.c:170-183 | a lane reads the words of the data whose index is its own modulo 16, and nothing else |
| MhSha256Blocks.WordChangesLane | mh_sha256/mh_sha256_block_base.c:170-183 | changing the four bytes of word k can change no lane but k mod 16 |
| MhSha256Blocks.RelayoutIdentity | mh_sha256/mh_sha256_ref.c:301-321 | re-layout and back is the identity on digests |
| MhSha256Blocks.RefTurn | mh_sha256/mh_sha256_ref.c:310-313 | one turn of the block loop on the re-laid digests |
| MhSha256Blocks.RelaidLanes | mh_sha256/mh_sha256_ref.c:301-307 | the groups are the lanes |
| MhSha256Blocks.UpdateAllSegments | mh_sha256/mh_sha256_ref.c:269-289 | every segment is compressed with its own sixteen words |
| Murmur3.Bijection | mh_sha1_murmur3_x64_128/murmur3_x64_128_internal.c:71-141 | for a fixed message the running state and the digest determine each other, both ways |
| Murmur3.SeedMatters | mh_sha1_murmur3_x64_128/murmur3_x64_128.c:55-86 | the same message under two seeds has the same digest only if the seeds are equal |
| Murmur3.DigestsApart | mh_sha1_murmur3_x64_128/murmur3_x64_128_internal.c:71-91 | two messages that differ in one whole 16-byte block only never share a digest, for any seed |
| Murmur3.TailDigestsApart | mh_sha1_murmur3_x64_128/murmur3_x64_128_internal.c:93-141 | nor do two messages of one length that differ in their last partial block only |
| Murmur3Fox.MurmurFox | mh_sha1_murmur3_x64_128/murmur3_x64_128_internal.c:71-141 | the published digest of a message of two blocks and a tail of eleven bytes |
| Murmur3.LengthWordHolds | mh_sha1_murmur3_x64_128/murmur3_x64_128_internal.c:119-120 | the length goes in as it is, cut to 32 bits |
| Murmur3.LengthMatters | mh_sha1_murmur3_x64_128/murmur3_x64_128_internal.c:119-141 | the same state and tail finish alike exactly for lengths that agree modulo 2^32 |
| Murmur3.FilledTailsApart | mh_sha1_murmur3_x64_128/murmur3_x64_128_internal.c:93-141 | messages whose last, partial blocks fill up to the same bytes and reach into the same words share a digest only when they are the same |
| Murmur3.BlockStepBack | mh_sha1_murmur3_x64_128/murmur3_x64_128_internal.c:80-88 | every block step has an inverse, on both sides |
| Murmur3.HashMixBack | mh_sha1_murmur3_x64_128/murmur3_x64_128_internal.c:61-69 | hashmix64 can be undone when the other word is known |
| Murmur3.BlockMixBack | mh_sha1_murmur3_x64_128/murmur3_x64_128_internal.c:52-59 | blockmix64 can be undone |
| Murmur3.FinishBack | mh_sha1_murmur3_x64_128/murmur3_x64_128_internal.c:107-138 | tail, length and final mix have an inverse, on both sides |
| Murmur3.FinalMixBack | mh_sha1_murmur3_x64_128/murmur3_x64_128_internal.c:125-135 | the xor-shifts and multiplications of the final mix do |
| Word64.TimesBack | mh_sha1_murmur3_x64_128/murmur3_x64_128_internal.c:41-49 | multiplication by each of the odd constants has an inverse modulo 2^64 |
| Word64.RotlBack | mh_sha1_murmur3_x64_128/murmur3_x64_128_internal.c:34-39 | the rotations have one |
| Word64.XorShiftBack | mh_sha1_murmur3_x64_128/murmur3_x64_128_internal.c:125 | x ^= x >> 33 undoes itself |
| TailHash.EndBack | mh_sha1_murmur3_x64_128/murmur3_x64_128_internal.c:71-141 | any hash with reversible steps and a reversible finish is reversible as a whole |
| TailHash.BlockMatters | mh_sha1_murmur3_x64_128/murmur3_x64_128_internal.c:71-141 | and then keeps messages apart that differ in one block |
| Murmur3Code.Block | mh_sha1_murmur3_x64_128/murmur3_x64_128_internal.c:71-91 | the loop on the digest words in place is the fold of the block step |
| Murmur3Code.Tail | mh_sha1_murmur3_x64_128/murmur3_x64_128_internal.c:93-141 | the code that always mixes in both tail words, and copies the tail last byte first, finishes as the algorithm does that mixes in only the words the tail reaches |
| Murmur3Code.MixesTail | mh_sha1_murmur3_x64_128/murmur3_x64_128_internal.c:113-120 | mixing in the zero word that a short tail leaves changes nothing |
| Murmur3Code.CopyTail | mh_sha1_murmur3_x64_128/murmur3_x64_128_internal.c:107-111 | the countdown loop fills sixteen zeroed bytes with the tail |
| Murmur3Code.FinalSteps | mh_sha1_murmur3_x64_128/murmur3_x64_128_internal.c:122-138 | the in-place statements of the final mix |
| Murmur3Code.Single | mh_sha1_murmur3_x64_128/murmur3_x64_128.c:55-86 | the single call is the whole hash |
| MhSha1Murmur3.HashPieces | mh_sha1_murmur3_x64_128/mh_sha1_murmur3_x64_128_update_base.c:39-95 | for any cut of the message into updates the stitched hash is the pair of the mh_sha1 and the murmur3 of the message |
| MhSha1Murmur3.StitchedCtx.Update | mh_sha1_murmur3_x64_128/mh_sha1_murmur3_x64_128_update_base.c:39-95 | update appends its buffer, for both hashes |
| MhSha1Murmur3.StitchedCtx.UpdateBlocks | mh_sha1_murmur3_x64_128/mh_sha1_murmur3_x64_128_update_base.c:69-92 | blocks and rest lose no byte |
| MhSha1Murmur3.StitchedCtx.Finalize | mh_sha1_murmur3_x64_128/mh_sha1_murmur3_x64_128_finalize_base.c:42-92 | finalize returns both digests; murmur3 reads the buffer before the mh_sha1 tail pads in it |
| MhSha1Murmur3.StitchedCtx.FinishMurmur | mh_sha1_murmur3_x64_128/mh_sha1_murmur3_x64_128_finalize_base.c:58-66 | whole murmur blocks of the buffer and its murmur tail end the murmur3 hash |
| MhSha1Murmur3.AbsorbedMore | mh_sha1_murmur3_x64_128/mh_sha1_murmur3_x64_128.c:69-73 | 1024-byte blocks never split a 16-byte murmur block |
| MhSha1Murmur3.BlockBoth | mh_sha1_murmur3_x64_128/mh_sha1_murmur3_x64_128.c:62-76 | the block function feeds the same bytes to both hashes |
| MhSha1Murmur3.StitchedCtx.constructor | mh_sha1_murmur3_x64_128/mh_sha1_murmur3_x64_128.c:34-60 | init seeds both murmur words and every segment |
| RollingHash.RhState.Run | rolling_hash/rolling_hash2.c:112-158 | a run returns what scanning the history window followed by the buffer finds; hash and history are those of the window where it stopped, on every exit path |
| RollingHash.RhState.RunWith | rolling_hash/rolling_hash2.c:117-157 | the body of the run, for any hash the two tables slide |
| RollingHash.RunUntilBase | rolling_hash/rolling_hash2.c:83-110 | the fast loop, both of its forms, continues the scan; the test repeated after it reports no false hit |
| RollingHash.ScanFindsFirst | rolling_hash/rolling_hash2.c:121-157 | a hit is reported exactly when some position hits, at one past the first such byte; otherwise the offset is the length |
| RollingHash.RotatedTablesSlide | rolling_hash/rolling_hash2.c:50-54 | with table2 as table1 rotated by the width, one roll turns the hash of a window into the hash of the next: the byte that leaves cancels exactly |
| RollingHash.HashFn | rolling_hash/rolling_hash2.c:75-81 | hash_fn is one such roll |
| RollingHash.SlideAt | rolling_hash/rolling_hash2.c:121-144 | the byte that leaves is in the history for the first w positions and in the buffer after them |
| RollingHash.AppendByte | rolling_hash/rolling_hash2.c:67-70 | the loop of reset builds the window hash, the xor of the table words each rotated by its distance from the end |
| RollingHash.RhState.Init | rolling_hash/rolling_hash2.c:41-57 | init rejects windows over the maximum and changes nothing then; else both tables are as needed |
| RollingHash.RhState.Reset | rolling_hash/rolling_hash2.c:59-73 | reset sets hash and history to the first w bytes |
| RollingHash.RhState.ShiftHistory | rolling_hash/rolling_hash2.c:136-137 | memmove and memcpy of the early exits |
| RollingHash.RhState.CopyHistory | rolling_hash/rolling_hash2.c:149 | memcpy of the late exits |
| Bits64.ShiftsRotate | rolling_hash/rolling_hash2.c:68 | the two shifts joined by or are a rotation |
| Bits64.RotateXor | rolling_hash/rolling_hash2.c:78-79 | rotation distributes over xor |
| RollingRuns.OneRunOrTwo | rolling_hash/rolling_hash2.c:112-158 | split invariance: two states that start alike, one run on a and, without a hit, on b, the other on both in one piece, report the same hit at the same place and end with the same hash and history |
| RollingRuns.RunTwice | rolling_hash/rolling_hash2.c:112-158 | two runs, the second from what the first saved, find and leave what one run on both inputs does |
| RollingRuns.ScansAgree | rolling_hash/rolling_hash2.c:121-157 | the same for the hits, however short the first input |
| RollingRuns.WindowsAfterAgree | rolling_hash/rolling_hash2.c:121-157 | and for the window |
| RollingRuns.FirstRun | rolling_hash/rolling_hash2.c:41-158 | init, reset and run on a new state |
| RollingLemmas.ResumedScan | rolling_hash/rolling_hash2.c:83-110 | scanning a stream in two pieces, however short the first, finds what one scan finds |
| RollingLemmas.SavedWindowResumes | rolling_hash/rolling_hash2.c:136-155 | the window a run saves followed by the next buffer is the rest of the whole stream |
| RollingLemmas.SharedWindowSharedHits | rolling_hash/rolling_hash2.c:83-158 | streams that share a window and what follows it have the same hits from there on |
| RollingLemmas.RunReadsAllExactly | rolling_hash/rolling_hash2.c:84-99 | a run reports what scanning its whole buffer would report if and only if the buffer is shorter than 2^31 bytes or some position up to w hits |
| RollingLemmas.LongBufferMissesHit | rolling_hash/rolling_hash2.c:84-99 | for every table in which the words of two bytes differ in some low bit, a 32-bit mask and trigger and a buffer of 2^31 bytes whose hit a run misses |
| RollingLemmas.MeetsLow32 | rolling_hash/rolling_hash2.c:102 | with all 32 mask bits set a hash meets the trigger exactly if its low 32 bits are those of the trigger |
| RollingCuts.AllCuts | rolling_hash/rolling_hash2_test.c:145-170 | run after run on what is left until one reports no hit, as the test does: the places where the runs stop are exactly the positions whose windows hit, in increasing order, and the state ends at the window at the end of the input |
| RollingCuts.CutOnce | rolling_hash/rolling_hash2_test.c:146-169 | one run of that loop ends at the next position that hits, or at the end of the input |
| RollingCuts.HitListExact | rolling_hash/rolling_hash2.c:83-110 | the specified list is strictly increasing and holds exactly the positions that hit |
| RollingCuts.SharedWindowSharedCuts | rolling_hash/rolling_hash2.c:83-158 | two streams that share a window and what follows it are cut at the same places from there on, wherever the window stands in either |
| RollingCuts.PartsSameCuts | rolling_hash/rolling_hash2.c:136-155 | input given in two parts is cut where it is cut in one piece, from the saved window alone |
| RollingHash.RhState.Head | rolling_hash/rolling_hash2.c:121-144 | the loop over the first w positions either hits first, or reads the buffer to its end or w positions without a hit |
| RollingHash.RhState.FinishScan | rolling_hash/rolling_hash2.c:146-157 | the fast loop and the repeated test finish the scan |
| Chunking.CutBuffer | rolling_hash/chunking_with_mb_hash.c:199-249 | the program gives up exactly on improper sizes and otherwise hands on the chunks of the specification, in order |
| Chunking.CutLong | rolling_hash/chunking_with_mb_hash.c:225-235 | the first cutting loop |
| Chunking.CutShort | rolling_hash/chunking_with_mb_hash.c:237-246 | the second |
| Chunking.CutAll | rolling_hash/chunking_with_mb_hash.c:225-249 | the two loops and the last chunk together hand on the specified chunks |
| Chunking.CutOne | rolling_hash/chunking_with_mb_hash.c:226-234 | one turn hands on the first chunk of what is left |
| Chunking.FindCut | rolling_hash/chunking_with_mb_hash.c:227-229 | reset to the window before the least size and run |
| Chunking.ChunksPartition | rolling_hash/chunking_with_mb_hash.c:222-249 | the chunks put together are the buffer |
| Chunking.ChunkSizes | rolling_hash/chunking_with_mb_hash.c:222-249 | every chunk is at most the greatest size and every chunk but the last at least the least size |
| Chunking.EveryChunkIsCut | rolling_hash/chunking_with_mb_hash.c:225-249 | each chunk is the shortest prefix of what is left that is longer than the least size and ends in a trigger, or else has the greatest size, or is all that is left |
| Chunking.CutIsUnique | rolling_hash/chunking_with_mb_hash.c:225-246 | there is only one such length |
| Chunking.TailDecidesItsChunks | rolling_hash/chunking_with_mb_hash.c:225-249 | the chunks after a cut depend on the bytes after it alone |
| Chunking.ChunkLengthIsCut | rolling_hash/chunking_with_mb_hash.c:227-233 | the length the run yields is such a cut |
| MaskGen.Generate | rolling_hash/rolling_hashx_base.c:53-60 | for every mean below 2^31 and every shift below 32 the mask is a run of one bits, as many as the exponent of the largest power of two not above the mean, starting at the shift and wrapping around; for a mean of two or more it is the number k with 2^k at most the mean and 2^(k+1) above it, below two it is one |
| MaskGen.FloorPow2 | rolling_hash/rolling_hashx_base.c:35-45 | the loop ends with the largest power of two not above its input, and with zero for zero |
| MaskGen.ClearLowest | rolling_hash/rolling_hashx_base.c:42 | in &= in - 1 clears one bit and never the highest while another is set |
| MaskGen.DecValue | rolling_hash/rolling_hashx_base.c:42 | borrowing bit by bit is subtracting one |
| MaskGen.OneBit | rolling_hash/rolling_hashx_base.c:59 | a power of two less one is the bits below it |
| MaskGen.Rol | rolling_hash/rolling_hashx_base.c:47-51 | rol moves every bit by the shift, and none for shift zero |
| MaskGen.CountRotated | rolling_hash/rolling_hashx_base.c:47-51 | it keeps the number of one bits |
| SelfTestGate.StepKeepsInv | fips/self_tests_generic.c:43-80 | every step of every thread keeps the invariant of the gate |
| SelfTestGate.ReachableInv | fips/self_tests_generic.c:43-80 | so it holds after every schedule of any number of threads |
| SelfTestGate.SuitesRunOnce | fips/self_tests_generic.c:56-66 | at most one thread is ever inside the suites, and each suite is executed at most once |
| SelfTestGate.VerdictIsTheSuites | fips/self_tests_generic.c:50-79 | a caller gets 0 exactly when both suites ran and passed, an error exactly when one failed; so all callers agree |
| SelfTestGate.StatusOnlyAdvances | fips/self_tests_generic.c:47-66 | the status never goes back, a final value is never left, and verdicts once given stay |
| SelfTestGate.StepMovesOne | fips/self_tests_generic.c:56-66 | no step skips a status: a final value comes only after running |
| SelfTestGate.NoNotDoneAfterFailedExchange | fips/self_tests_generic.c:69-79 | a thread whose exchange failed never sees not done again, and past the wait loop only a final status |
| SelfTestGate.LateCallsReadOnly | fips/self_tests_generic.c:47-54 | a call made once the outcome is settled returns it from one of the two loads, and tries no exchange |
| SelfTestGate.WaitersMetRunningExactly | fips/self_tests_generic.c:69-72 | a thread that never met the running status can reach the wait branch if and only if there are two threads or more |
| SelfTestGate.LateExchange | fips/self_tests_generic.c:50-72 | for every number of threads from two on, a schedule in which one does |
| SelfTestGate.AloneNeverWaits | fips/self_tests_generic.c:50-72 | a thread that calls alone never fails its exchange |
| SelfTestGate.StepUsesWork | fips/self_tests_generic.c:43-80 | every step that neither spins nor enters uses up work, and spinning changes nothing |
| SelfTestGate.BoundedWork | fips/self_tests_generic.c:43-80 | so the steps of a schedule that are not spins are bounded by its calls |
| SelfTestGate.SomeThreadCanProgress | fips/self_tests_generic.c:71-72 | whenever a call is open some thread has a step that is not a spin: while threads wait it is the runner |
| SelfTestGate.FairSchedulesReturn | fips/self_tests_generic.c:43-80 | under every scheduler that lets each open call take a step in each round and starts no new one, whatever happened before, every open call has returned after as many rounds as there is work left |
| SelfTestGate.RoundUsesWork | fips/self_tests_generic.c:71-72 | a round in which every open call takes a step uses up work, however many of its steps are spins |
| SelfTestGate.WorkOrSpins | fips/self_tests_generic.c:43-80 | without new calls either work is used up or every step was a turn of the wait loop |
| SelfTestGate.OpenCallsCanReturn | fips/self_tests_generic.c:43-80 | from every reachable state some continuation lets every open call return |

## Left out

- AES (CBC, GCM, XTS, key expansion), whose C files check parameters around assembly that is not modelled.
- The lane engines and the SIMD block functions: assembly, replaced by the nondeterministic engine described above; the claim about each block function is made for its C form.
- md5_ctx_avx, avx2 and avx512, sha1_ctx_sse, avx, avx2 and avx512, the SHA-256, SHA-512 and SM3 managers, and the mh avx512 files: the text modelled here with another engine or algorithm.
- Update, finalize and sha256_for_mh_sha256 of mh_sha256: the SHA-1 streaming layer with other names; block processing of mh_sha256 is modelled.
- The isal_ wrappers, legacy aliases and NULL checks, and the copies of digests to optional output pointers.
- fips/self_tests.c, whose atomicity is in assembly, and the known-answer vectors of the two suites: in the model a suite passes or fails.
- process_chunk, get_next_job_ctx and run_fragment of the chunking example: only where the cuts fall is modelled. A least size of zero with a window of zero is outside the model.
- Performance programs, printing, random number generation, allocation, pointer alignment of frame buffers, and the values of the rolling hash table: the table is a parameter. `RollingLemmas.LongBufferMissesHit` asks of it that the words of two bytes differ in a low bit, as those of 0 and 1 in rolling_hash/rolling_hash2_table.h do.
- Calls of run before reset, and a window width of zero, for which init shifts by 64, which C leaves undefined.
- Means of 2^31 and above in mask generation, where floor_pow2 overflows its int result; a shift of zero is taken as the identity, although the code then shifts by 32.
- Writes of a caller to a buffer that a job still reads: buffers are values.
- Word loads and stores as instructions: `BE32`, `StoreLE`, `LE32` and `Load64` say what they mean on a little-endian host.
- The sixteen written-out calls of transform_input_single and of the one-segment updates are loops, and the step macros of one round or of the whole of SHA-1 are grouped in methods of four, five or eight.
- That a scheduler is fair: `SelfTestGate.FairSchedulesReturn` assumes it, round by round.
- Cryptographic strength of any hash.
