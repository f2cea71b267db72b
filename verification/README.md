# BTCRig: a Dafny model and proofs

BTCRig is a Bitcoin miner for Android: it talks Stratum to a pool, hashes block headers with SHA-256d on CPU threads and
OpenCL devices, and sends the shares it finds. This project models that behaviour in Dafny 4.11 and proves it.

`dafny verify dfyconfig.toml` checks everything.

## What is modelled

**Hashing.** `Sha256.dfy` is SHA-256 as FIPS 180-4 defines it (functions section 4.1.2, constants 4.2.2, padding 5.1.1,
initial value 5.3.3, computation 6.2.2). `ShaConstants` proves where its tables come from, and `SelfTest` that it gives the
digest the core's own self test expects, followed round by round (`ShaSteps`, `SelfTestFirst`, `SelfTestTail`,
`SelfTestSecond`). Proved equal to it are the streaming context (`OpensslSha`), the scalar
compression and both midstate paths (`ScalarRounds`, `Sha256d`), the ARM vector form and its interleaved pair
(`ArmSha2`, `ArmPair`), and the rolling, unrolled, register and two-lane OpenCL kernels (`OpenClKernel`,
`OpenClScanItem`). The proofs use additions mod 2^32 only through associativity and commutativity. The ARM instructions have
their documented meaning: four rounds, and the two steps of the schedule.

**Scanning.** `Targets` and `Scan` say what a scan must report, and prove that every backend reports exactly that.
`OpenClGrid` and `OpenClResults` do the same for a device: which offsets the launched items cover, and what reaches the host
through an atomic counter and a bounded buffer in any order of memory operations. The calls of `OpenClResults` run one
memory operation at a time, in any interleaving; `tickets` and `written` record history. Counter and index arithmetic wrap
at 32 bits there, as in the kernels; `OpenClOrders` says exactly when that matters, and that any order of hits can happen.

**Targets and jobs.** `Difficulty` models the target arithmetic over the reals. `Hex` and `JobBuilder` model the hexadecimal
helpers, the extranonce text, the Merkle root and the header. A `double` of 2^32 or more has no defined conversion to
`uint32_t`; its result is the parameter `undefinedCast`, and every property holds for any value of it.

**The miner.** `MinerState` gives each critical section of `miner.c` as a function on values, `Miner` is the structure behind
the lock with its share ring, proved to do exactly that, and `MinerRun` proves what holds in every interleaving of workers,
job changes, pauses, stops and pops. Runs have fewer than 2^64 steps, so that the 64-bit job number and pause epoch do not
come around; hash counters do wrap. A callback may be for any nonce that solves the job, in the worker's range or not, and
may come again: soundness, freshness, tiling and accounting hold all the same. `MinerLaws` tells every run by its events
alone: pauses, what a fetch hands out, the queue and each worker's credit. `MinerScans` says which callbacks a CPU scan
or a launch makes, that they all solve the job, and when no share comes twice.

**The session.** `Session` is the part of the Stratum client that makes jobs, `SessionRun` joins it with the miner's runs
and with what the pool sent, and `SessionLaws` says which messages give the workers a job. The pool's side is written in
its own terms: it puts coinbase, Merkle root and header together from the strings it sent. `PendingShares` is the table of
unanswered submissions, `SessionLoop` the main loop of one connection; its clock is monotonic and never negative. `TlsConn`
and `LineReader` are the two buffers between the socket and a line; `network(k)` is whatever the reader thread does before
the k-th call. `CoreStats` and `Donation` are the counters and the phase scheduler of the core thread.

## What the proofs found

- The grid of an OpenCL launch is exact if and only if no 32-bit product wraps (`OpenClGrid.GridIsExactIffNoWrap`). For
  2^32 - 1 nonces, two to an item, in work groups of 100, the padding wraps and the grid is not exact
  (`OpenClGrid.PaddingWraps`); with 64 to an item, offset 2^32 - 1 is scanned, which is not in the range
  (`OpenClGrid.LastItemLeavesRange`).
- Because of that a share can be queued twice: callbacks are not checked for duplicates. Among launches that scan fewer
  than 2^32 offsets exactly those that wrap and can report two matches do so (`MinerScans.NoShareTwiceIff`), for example
  4294967201 nonces in work groups of 100 (`MinerScans.OneNonceMoreWraps`). For larger ones it takes a job that the stray
  nonce solves and whose hits do not bring the counter around (`MinerScans.ShareTwice`, `MinerScans.LastNonceTwice`).
- The hit counter of a launch comes around at 2^32 hits (`OpenClOrders.CountIsExactIff`), and past 477218588 stored rows
  the 32-bit row index leaves the end of the buffer unwritten: the host then reports stale words
  (`OpenClOrders.DeliversHitsIff`). `max-results` has no such limit.
- An extranonce2 text is longer than the pool asked for once the counter does not fit the size
  (`JobBuilder.ExtranonceSizeIff`, `JobBuilder.ExtranonceOverflows`): with size 1 from the 256th rebuild on. The pool then
  does not accept the shares (`SessionRun.ShareIsAcceptedIff`), and where the number of digits is odd there is no job at
  all: with size 1 for 3840 rebuilds in a row (`Session.OneByteRunsOut`). A roll that fails so leaves the workers asleep
  until the pool sends something (`SessionRun.FailedRollStalls`), since the flag is taken only once.
- Below difficulty 65535 / 2^48 the target loses its high bits (`Difficulty.ShortfallIffRepresentable`); at exactly that
  difficulty it is zero (`Difficulty.SmallestDifficultyFails`), so targets fall with the difficulty only above it
  (`Difficulty.MonotoneIff`).
- Without donation nothing resets the retry counter: a session then ends with 0 only when it was stopped
  (`SessionLoop.ZeroMeansStopped`), so a limit of r allows r + 1 sessions in all, however long they ran
  (`Donation.FailuresAreBounded`), and failing ones reach it (`Donation.LimitIsReached`).
- A notification is stored as it came if and only if its fields fit and it has at most 128 Merkle branches
  (`Session.TemplateKeptIff`); one with more is mined all the same, under the root of its first 128
  (`Session.BranchesAreCut`, `Session.LongNoticeIsMined`).
- A share popped for a submission that fails is lost, not queued again (`PendingShares.FlushShares`).
- A share queue that is full drops the newest share, and a full pending table forgets the id in the slot `id % 64`
  (`Miner.Miner.QueueShareLocked`, `PendingShares.Pending.Register`).

## Model

| member | source | states |
|---|---|---|
| ScalarRounds.ExpandSchedule | app/src/main/cpp/btcrig/sha256d.c:169-174 | the loop leaves in the array, at every index, the word section 6.2.2 defines |
| ScalarRounds.RunRounds | app/src/main/cpp/btcrig/sha256d.c:176-211 | 64 turns on eight variables give the working variables of section 6.2.2 |
| Sha256d.CompressWords | app/src/main/cpp/btcrig/sha256d.c:169-211 | in place, the state becomes the next hash value of section 6.2.2 for every state and block |
| OpensslSha.Context.Transform | app/src/main/cpp/compat/openssl_sha.c:54-100 | the same for 64 raw bytes in a context |
| OpensslSha.Context.Update | app/src/main/cpp/compat/openssl_sha.c:113-134 | a piece of any length, across any fill of the buffer, is appended to the message absorbed so far |
| OpensslSha.Context.Final | app/src/main/cpp/compat/openssl_sha.c:136-154 | for messages under 2^61 bytes the digest of section 5.1.1 padding, one or two closing blocks |
| OpensslSha.HashPieces | app/src/main/cpp/compat/openssl_sha.c:102-154 | any splitting of a message into updates gives the digest of the whole |
| OpensslSha.HashMessage | app/src/main/cpp/compat/openssl_sha.c:156-165 | the one-shot call equals the specification digest |
| Sha256.HashAppendBlock | app/src/main/cpp/compat/openssl_sha.c:121-133 | folding one more whole block continues the fold over the bytes before it |
| Sha256d.HashHeader | app/src/main/cpp/btcrig/sha256d.c:221-225 | the double digest of the 80 bytes |
| Sha256d.Midstate.constructor | app/src/main/cpp/btcrig/sha256d.c:227-234 | both prepared contexts and the fast state hold what the first 64 bytes lead to |
| Sha256d.Midstate.HashOpenssl | app/src/main/cpp/btcrig/sha256d.c:236-264 | byte-padded blocks through context copies give the specified closing state, and the prepared contexts stay as they were |
| Sha256d.Midstate.HashFastC | app/src/main/cpp/btcrig/sha256d.c:266-300 | word-padded blocks through the scalar compression give the same |
| Sha256d.MidstateIsDoubleDigest | app/src/main/cpp/btcrig/sha256d.c:221-300 | for every header, midstate plus padded tail plus padded second block is the double digest of the whole header |
| Scan.HashByMidstate | app/src/main/cpp/btcrig/sha256d.c:393-407 | prepare and finish with any backend: the 32 bytes are the double digest of the header |
| ShaConstants.InitialIsSquareRoots | app/src/main/cpp/compat/openssl_sha.c:5-8 | each word of the initial value is the first 32 bits of the fraction of the square root of its prime (section 5.3.3) |
| ShaConstants.KIsCubeRoots | app/src/main/cpp/compat/openssl_sha.c:10-27 | each of the 64 constants is the first 32 bits of the fraction of the cube root of its prime (section 4.2.2) |
| ShaConstants.PrimesInOrder | app/src/main/cpp/compat/openssl_sha.c:10-27 | the primes meant are the first 64: the list begins with 2 and each is followed by the next prime |
| SelfTest.SelfTestDigest | app/src/main/cpp/btcrig_core_full.c:552-564 | the double digest of 80 zero bytes is the one the self test expects |
| SelfTest.CoreSelfTest | app/src/main/cpp/btcrig_core_full.c:552-564 | so the self test passes |
| SelfTest.BackendSelfTest | app/src/main/cpp/btcrig/sha256d.c:393-407 | and would with every backend modelled |
| ArmSha2.ChoiceFunctionsAgree | app/src/main/cpp/btcrig/sha256d_arm_sha2.c:132-148 | the instruction's bit forms of choose and majority are those of section 4.1.2 |
| ArmSha2.FourTurnsAreFourRounds | app/src/main/cpp/btcrig/sha256d_arm_sha2.c:132-148 | one instruction pair on `w + K` advances the specification by exactly four rounds |
| ArmSha2.ScheduleStep | app/src/main/cpp/btcrig/sha256d_arm_sha2.c:150-159 | the two schedule instructions turn four window vectors into the next four schedule words |
| ArmSha2.TablesHoldSums | app/src/main/cpp/btcrig/sha256d_arm_sha2.c:47-65 | every pre-added table entry is the round constant plus the padding word of its block |
| ArmSha2.Rounds16 | app/src/main/cpp/btcrig/sha256d_arm_sha2.c:150-169 | sixteen rounds and a full turn of the four rotating vectors |
| ArmSha2.CompressTail | app/src/main/cpp/btcrig/sha256d_arm_sha2.c:119-171 | vector halves of the specified compression of the padded tail block, for every start state |
| ArmSha2.CompressSecond | app/src/main/cpp/btcrig/sha256d_arm_sha2.c:173-229 | the same for the second block, from the initial value |
| ArmSha2.HashTail | app/src/main/cpp/btcrig/sha256d_arm_sha2.c:432-455 | the eight words equal the specified closing state |
| ArmPair.CompressTailPair | app/src/main/cpp/btcrig/sha256d_arm_sha2.c:231-304 | each lane of the interleaved version equals the single version on its own tail |
| ArmPair.CompressSecondPair | app/src/main/cpp/btcrig/sha256d_arm_sha2.c:306-385 | the same for the second block |
| ArmPair.HashTailPair | app/src/main/cpp/btcrig/sha256d_arm_sha2.c:387-430 | both outputs equal the specified closing states of their own nonces |
| OpenClKernel.RollingStep | app/src/main/cpp/btcrig/opencl_miner.c:88-95 | overwriting slot `i & 15` of the window gives schedule word `i` and keeps the last sixteen words |
| OpenClKernel.CompressRolling | app/src/main/cpp/btcrig/opencl_miner.c:84-101 | the rolling loop equals the 64-word form for every state and block |
| OpenClKernel.RoundMacro | app/src/main/cpp/btcrig/opencl_miner.c:117-117 | with registers renamed instead of moved, two registers change and the eight hold the next working variables |
| OpenClKernel.NextSixteen | app/src/main/cpp/btcrig/opencl_miner.c:138-153 | sixteen rounds with in-place message updates, registers back at their names, window sixteen words on |
| OpenClKernel.CompressUnrolled | app/src/main/cpp/btcrig/opencl_miner.c:116-189 | the unrolled kernel equals the 64-word form for every state and block |
| OpenClKernel.CompressScalar | app/src/main/cpp/btcrig/opencl_miner.c:299-367 | so does the macro of the modern kernels, on registers alone |
| OpenClScanItem.MeetsTarget | app/src/main/cpp/btcrig/opencl_miner.c:192-202 | the written-out comparison decides the 256-bit order |
| OpenClScanItem.ScanOneNonce | app/src/main/cpp/btcrig/opencl_miner.c:220-246 | with either compression, a match is kept exactly when the plain loop would report it, with its hash |
| OpenClScanItem.ScanOneNonceScalar | app/src/main/cpp/btcrig/opencl_miner.c:393-412 | the same for the modern kernels with that macro |
| OpenClScanItem.CompressVec2 | app/src/main/cpp/btcrig/opencl_miner.c:555-572 | each lane of the two-lane loop equals the specification on its own state and block |
| OpenClScanItem.ScanTwoNonces | app/src/main/cpp/btcrig/opencl_miner.c:575-606 | both lanes report as the plain loop does for their nonces, the second only when it is in range |
| Targets.FirstDifferenceDecides | app/src/main/cpp/btcrig/miner.c:274-284 | two little-endian numbers are ordered as their most significant differing bytes |
| Targets.BytesMeetTarget | app/src/main/cpp/btcrig/miner.c:274-284 | true exactly if the 256-bit number of the hash is at most that of the target |
| Targets.WordsMeetTarget | app/src/main/cpp/btcrig/sha256d.c:308-320 | the same question about the byte images of the words |
| Targets.LoadTargetKeepsBytes | app/src/main/cpp/btcrig/miner.c:1206-1208 | loading the target as words loses nothing, so both loops decide the same |
| Scan.ScanGeneric | app/src/main/cpp/btcrig/sha256d.c:322-342 | the callbacks are those of `ScanMatches`, in order, whichever hashing path is used |
| Scan.ScanArm | app/src/main/cpp/btcrig/sha256d_arm_sha2.c:463-529 | pairs and the odd last nonce make exactly the callbacks of the plain loop, in its order |
| Scan.ScanNonceRange | app/src/main/cpp/btcrig/sha256d.c:366-385 | every backend the dispatcher can choose makes the same callbacks |
| Scan.NonceReadsBack | app/src/main/cpp/btcrig/sha256d.c:330-336 | a nonce as a 32-bit pattern has the bytes of the number and reads back as it |
| Scan.ScanAscends | app/src/main/cpp/btcrig/sha256d.c:322-342 | a range that ends by 2^32 is reported in ascending nonces, so none comes twice |
| Scan.NonceHashIsDoubleDigest | app/src/main/cpp/btcrig/sha256d.c:393-407 | the words found for a nonce are the double digest of the header with that nonce written little-endian at bytes 76 to 79 |
| Scan.NoncePlace | app/src/main/cpp/btcrig/sha256d.c:330-336 | bytes 76 to 79 of that header read little-endian are the nonce, and the other 76 bytes are unchanged |
| Scan.ScanIsExact | app/src/main/cpp/btcrig/sha256d.c:322-342 | a match is reported if and only if its nonce is in the range and its hash meets the target |
| OpenClGrid.KernelNpi1 | app/src/main/cpp/btcrig/opencl_miner.c:430-435 | item `gid` scans its own offset if it is below the count, as long as the identifier fits 32 bits; otherwise the one it wraps to |
| OpenClGrid.KernelNpi2 | app/src/main/cpp/btcrig/opencl_miner.c:436-442 | item `gid` scans the offsets from 2 gid to below 2 gid + 2 that are below the count, as long as those fit 32 bits; otherwise the wrapped ones |
| OpenClGrid.KernelNpi4 | app/src/main/cpp/btcrig/opencl_miner.c:443-451 | the same with four offsets to an item |
| OpenClGrid.KernelGeneral | app/src/main/cpp/btcrig/opencl_miner.c:452-472 | the same with any number of offsets to an item, as long as the end of the stretch of a working item is below 2^32; otherwise base and limit wrap |
| OpenClGrid.LaunchIsEnough | app/src/main/cpp/btcrig/opencl_miner.c:1918-1925 | the padded launch covers the count and exceeds it by less than one work group |
| OpenClGrid.WholeGroups | app/src/main/cpp/btcrig/opencl_miner.c:1918-1925 | the launch is a whole number of work groups |
| OpenClGrid.ItemsTile | app/src/main/cpp/btcrig/opencl_miner.c:430-472 | the first k items scan the first k times npi offsets in order |
| OpenClGrid.GridIsExactIffNoWrap | app/src/main/cpp/btcrig/opencl_miner.c:430-472 | for every count, kernel, npi and work-group size: the launch scans each offset below the count once and nothing else, if and only if no product or sum leaves 32 bits |
| OpenClGrid.PaddingWraps | app/src/main/cpp/btcrig/opencl_miner.c:1918-1925 | 2^32 - 1 nonces, two to an item, in groups of 100: the launch wraps and its grid is not exact |
| OpenClGrid.LastItemLeavesRange | app/src/main/cpp/btcrig/opencl_miner.c:466-468 | 2^32 - 1 nonces, 64 to an item: offset 2^32 - 1, outside the range, is scanned, for any work-group size |
| OpenClGrid.FewStayInside | app/src/main/cpp/btcrig/opencl_miner.c:430-472 | a launch that scans fewer than 2^32 offsets scans none outside its range, wrapped or not |
| OpenClGrid.FirstFourAgain | app/src/main/cpp/btcrig/opencl_miner.c:1918-1925 | 4294967201 nonces, one to an item, in groups of 100: the launch wraps and scans four offsets more than it has nonces |
| OpenClGrid.RoomForPadding | app/src/main/cpp/btcrig/opencl_miner.c:1918-1925 | n plus one padded work group within 2^32 is enough for that |
| OpenClResults.StepKeepsInvariant | app/src/main/cpp/btcrig/opencl_miner.c:203-219 | in any order of tickets and word writes, tickets are distinct and every row holds what its caller has written |
| OpenClResults.EveryOrderDelivers | app/src/main/cpp/btcrig/opencl_miner.c:203-219 | under every interleaving the host gets min(count, maxResults) of the hits, different ones, hashes intact, and all of them when they fit |
| OpenClResults.Drain | app/src/main/cpp/btcrig/opencl_miner.c:1990-2027 | the host makes one callback per stored row, its nonce read back from the first word |
| OpenClResults.LaunchDelivers | app/src/main/cpp/btcrig/opencl_miner.c:1918-2027 | a launch whose grid does not wrap delivers, as a multiset, callbacks of the plain loop, and all of them when they fit |
| OpenClResults.HitsSolve | app/src/main/cpp/btcrig/opencl_miner.c:203-246 | every hit of a launch is what the plain loop reports for its nonce, wherever the items scanned |
| OpenClOrders.DeliveredCount | app/src/main/cpp/btcrig/opencl_miner.c:203-219 | for any number of hits, under every interleaving: the host makes min(hits mod 2^32, maxResults) callbacks |
| OpenClOrders.CountIsExactIff | app/src/main/cpp/btcrig/opencl_miner.c:1990-2027 | that is min(hits, maxResults) if and only if there are fewer than 2^32 hits or the remainder still fills the buffer |
| OpenClOrders.AnyMayComeFirst | app/src/main/cpp/btcrig/opencl_miner.c:203-219 | any hits, in any order, as many as the buffer holds, are the first the host reports under some interleaving |
| OpenClOrders.DeliversHitsIff | app/src/main/cpp/btcrig/opencl_miner.c:203-219 | for fewer than 2^32 hits: every callback is a hit under every interleaving, if and only if nine times the stored rows are at most 2^32 |
| OpenClResults.LaunchFindsScanIffNoWrap | app/src/main/cpp/btcrig/opencl_miner.c:430-472 | for a target every hash meets, a launch finds what the plain loop does, as a multiset, if and only if its grid does not wrap |
| OpenClResults.Collect | app/src/main/cpp/btcrig/opencl_miner.c:1938-1988 | the callbacks of the flagged rows in slot order, cut at maxResults |
| OpenClResults.SlotsDeliver | app/src/main/cpp/btcrig/opencl_miner.c:475-1987 | a launch without atomics whose grid does not wrap reports the first maxResults callbacks of the plain loop, in its order, whatever order items write in |
| Difficulty.TargetFromDifficulty | app/src/main/cpp/btcrig/miner.c:240-272 | the loops end and the 32 bytes, little-endian, hold the three low mantissa bytes scaled by the exponent |
| Difficulty.NormalisedForm | app/src/main/cpp/btcrig/miner.c:250-258 | the loops keep mant * 256^(exp-3) and end with the mantissa in range unless the exponent ran out |
| Difficulty.TargetNeverExceedsIdeal | app/src/main/cpp/btcrig/miner.c:240-272 | for every difficulty the target is at most V = 65535 * 256^26 / d |
| Difficulty.ShortfallIffRepresentable | app/src/main/cpp/btcrig/miner.c:240-272 | for V of at least 2^15: short by less than V / 2^15 if and only if d > 65535 / 2^48 |
| Difficulty.SmallTargetIsFloor | app/src/main/cpp/btcrig/miner.c:254-258 | for smaller V the target is V rounded down |
| Difficulty.LargestCompact | app/src/main/cpp/btcrig/miner.c:240-272 | above 65535 / 2^48 the target is the largest number m * 256^k with m below 2^23 and k at most 29 that does not exceed V |
| Difficulty.OneHasTarget | app/src/main/cpp/btcrig/miner.c:240-272 | difficulty 1 has the target 65535 * 256^26 |
| Difficulty.SmallestDifficultyFails | app/src/main/cpp/btcrig/miner.c:260-266 | at d = 65535 / 2^48 the target is 0 although V is not |
| Difficulty.TargetIsMonotone | app/src/main/cpp/btcrig/miner.c:240-272 | above that difficulty a harder one never gets a larger target, across exponent changes |
| Difficulty.MonotoneIff | app/src/main/cpp/btcrig/miner.c:240-272 | so it is for all difficulties from D on if and only if D > 65535 / 2^48 |
| Hex.HexToBytes | app/src/main/cpp/btcrig/miner.c:127-143 | succeeds exactly on two hexadecimal digits per byte wanted, and gives their bytes |
| Hex.BytesToHex | app/src/main/cpp/btcrig_core_full.c:719-734 | the digits of every byte, or nothing when they do not fit |
| Hex.EncodedDecodes | app/src/main/cpp/btcrig_core_full.c:719-734 | decoding what was printed gives the bytes back |
| Hex.DecodedEncodes | app/src/main/cpp/btcrig/miner.c:127-143 | printing what was decoded gives the text back in lower case |
| JobBuilder.ExtranonceEmptyIff | app/src/main/cpp/btcrig/miner.c:299-308 | in the 32-byte buffer the text is empty exactly for sizes outside 1 to 15 |
| JobBuilder.ExtranonceSizeIff | app/src/main/cpp/btcrig/miner.c:299-308 | the text has the size asked for if and only if the value is below 16^(2*size); otherwise it is longer |
| JobBuilder.ExtranonceOverflows | app/src/main/cpp/btcrig/miner.c:299-308 | counter 256 with size 1 prints three digits |
| JobBuilder.BuildableIffEven | app/src/main/cpp/btcrig/miner.c:335-346 | where a job was built with an extranonce2 of even length, the next text builds one if and only if its length is even |
| JobBuilder.ExtranoncesDiffer | app/src/main/cpp/btcrig/miner.c:299-308 | different values never print the same text, whatever the two sizes |
| JobBuilder.PrevhashToHeaderBytes | app/src/main/cpp/btcrig/miner.c:219-238 | succeeds exactly on 64 hexadecimal digits; every four bytes reversed |
| JobBuilder.SwapAt | app/src/main/cpp/btcrig/miner.c:219-238 | where each byte of the previous hash comes from |
| JobBuilder.CoinbaseLayout | app/src/main/cpp/btcrig/miner.c:335-346 | the coinbase bytes, printed and cut where the parts end, are coinb1, extranonce1, extranonce2 and coinb2 in this order |
| JobBuilder.RootIsTreeHash | app/src/main/cpp/btcrig/miner.c:348-357 | for any tree of transactions whose first is the coinbase, folding the siblings of the way up gives the hash of the root |
| JobBuilder.FoldMerkle | app/src/main/cpp/btcrig/miner.c:348-357 | the Merkle root under all branches, or a failure exactly when one is not 32 bytes of hexadecimal |
| JobBuilder.BuildJob | app/src/main/cpp/btcrig/miner.c:310-387 | a job is built exactly when every field fits and decodes, and then it is the described one |
| JobBuilder.HeaderLayout | app/src/main/cpp/btcrig/miner.c:359-379 | where version, previous hash, root, time, bits and the zero nonce stand, as numbers read little-endian |
| Miner.Miner.Fetch | app/src/main/cpp/btcrig/miner.c:461-488 | the state and the range handed out are those of `FetchState` and `FetchRange` |
| Miner.Miner.FetchForCpu | app/src/main/cpp/btcrig/miner.c:415-429 | the same with the batch size for mixed mining when devices run |
| Miner.Miner.QueueShareLocked | app/src/main/cpp/btcrig/miner.c:389-406 | the ring is a queue of at most 256: appended, or kept as it is when full |
| Miner.Miner.QueueScanMatch | app/src/main/cpp/btcrig/miner.c:504-518 | a share with the hash bytes is queued only for a current result |
| Miner.Miner.CreditHashes | app/src/main/cpp/btcrig/miner.c:566-573 | total and own counter grow by the range for a current result, nothing otherwise |
| Miner.Miner.SetJob | app/src/main/cpp/btcrig/miner.c:1193-1219 | the job prepared for scanning, next sequence, nonces from 0, queue emptied |
| Miner.Miner.SetPaused | app/src/main/cpp/btcrig/miner.c:1231-1244 | the epoch moves on exactly when an unpaused miner is paused |
| Miner.Miner.TakeNonceExhausted | app/src/main/cpp/btcrig/miner.c:1257-1267 | the flag is returned and cleared |
| Miner.Miner.Pop | app/src/main/cpp/btcrig/miner.c:1269-1280 | the oldest share, if any, leaves the queue |
| Miner.RingPop | app/src/main/cpp/btcrig/miner.c:1269-1280 | moving the head drops exactly the first element of the queue |
| MinerState.FailedFetchWaits | app/src/main/cpp/btcrig/miner.c:449-459 | a fetch fails if and only if the miner is stopping or the worker then sleeps |
| MinerState.OnlyThreeWake | app/src/main/cpp/btcrig/miner.c:449-459 | a fetch, a report, a credit, a pop or a taken flag never gives a sleeping worker something to do; only what broadcasts can |
| MinerRun.InvariantStep | app/src/main/cpp/btcrig/miner.c:449-577 | every critical section by any thread keeps the whole invariant |
| MinerRun.SharesSolveTheirJobs | app/src/main/cpp/btcrig/miner.c:495-577 | in every run, whatever nonces the scans report and however often, each popped or queued share solves the job it names, carries its strings, and queued ones belong to the job in place |
| MinerScans.CallbacksAreHits | app/src/main/cpp/btcrig/miner.c:504-564 | whatever a CPU scan or a launch reports solves the job: the runs leave out no callback |
| MinerScans.SlotDeliveryIsMade | app/src/main/cpp/btcrig/opencl_miner.c:1976-1987 | what a launch without atomics delivers, if its grid does not wrap, is a prefix of what one with atomics may deliver |
| MinerScans.NoShareTwice | app/src/main/cpp/btcrig/miner.c:504-564 | in every run whose scans are CPU scans, launches that do not wrap, or launches that can report one match only, no two shares have the same job number and nonce |
| MinerScans.ShareTwice | app/src/main/cpp/btcrig/miner.c:504-564 | for any job and launch whose hits fit counter and buffer: if a nonce scanned twice or outside the range solves the job, a run with that job, that launch and CPU scans has a share twice |
| MinerScans.NoShareTwiceIff | app/src/main/cpp/btcrig/miner.c:504-564 | for a launch over n nonces that scans fewer than 2^32 offsets: no run of it and CPU scans, for any jobs, has a share twice, if and only if its grid does not wrap or it can report one match only |
| MinerScans.OneNonceMoreWraps | app/src/main/cpp/btcrig/opencl_miner.c:1918-1925 | one nonce to an item, groups of 100, 256 results: a batch of 4294967201 has a run with a share twice, one of 4294967200 has none |
| MinerScans.LastNonceTwice | app/src/main/cpp/btcrig/opencl_miner.c:1419-1435 | a batch of 2^32 - 1 with 64 to an item has a run with a share twice for every job that nonce 2^32 - 1 solves and whose hits fit counter and buffer |
| MinerRun.CurrentIffUnchanged | app/src/main/cpp/btcrig/miner.c:495-502 | in every run a held range tests as current if and only if no stop, job change or pause happened since it was fetched, resumed or not |
| MinerRun.CreditedIffUnchanged | app/src/main/cpp/btcrig/miner.c:566-573 | finishing credits a range exactly in that case, and never one already credited |
| MinerRun.RangesTile | app/src/main/cpp/btcrig/miner.c:461-488 | in every run the ranges of a job are not empty, do not overlap, tile from 0 to what was handed out, and stay within 2^32 |
| MinerRun.ExhaustedOnce | app/src/main/cpp/btcrig/miner.c:1257-1267 | in every run a job is taken as exhausted at most once and only after all 2^32 nonces |
| MinerRun.HashesAddUp | app/src/main/cpp/btcrig/miner.c:566-573 | in every run the total is the sum of thread and device counters and of the credited ranges; credit for a job is at most what was handed out |
| MinerLaws.PauseIsLastSaid | app/src/main/cpp/btcrig/miner.c:1231-1244 | in every run the miner is paused if and only if the last pause event said so, stopped if and only if told to, and the epoch counts the moves from running to paused |
| MinerLaws.ResumeGoesOn | app/src/main/cpp/btcrig/miner.c:449-488 | after a pause and a resume, whatever the workers did meanwhile, a fetch hands out the same range as without them, under the next epoch |
| MinerLaws.FetchHandsOut | app/src/main/cpp/btcrig/miner.c:461-488 | in every run a fetch grants the next min(wanted, left) nonces of the job in place, or finds that none is left, and does nothing when stopped, paused, without a job or after that was found |
| MinerLaws.QueueIsInOrder | app/src/main/cpp/btcrig/miner.c:389-406 | in every run the queue holds, in order, the shares found for the job in place while nothing changed and fewer than 256 waited, without those popped |
| MinerLaws.CreditIsTheWorkers | app/src/main/cpp/btcrig/miner.c:566-573 | in every run each counter of a thread or device is the sum of the ranges that worker finished while nothing had changed |
| Session.Client.Rebuild | app/src/main/cpp/btcrig/stratum.c:1172-1221 | the counter is used up past the guard, and a job is installed exactly when it can be built |
| Session.Client.Notify | app/src/main/cpp/btcrig/stratum.c:1244-1309 | the template is replaced when every field fits and dropped otherwise, then a job is built |
| Session.TemplateKeptIff | app/src/main/cpp/btcrig/stratum.c:1284-1306 | a notification is stored as it came if and only if its fields fit and it has at most 128 branches |
| Session.BranchesAreCut | app/src/main/cpp/btcrig/stratum.c:1284-1309 | with more than 128 branches a notification that makes a job is mined all the same, under its first 128 |
| Session.LongNoticeIsMined | app/src/main/cpp/btcrig/stratum.c:1284-1309 | such a notification: 129 well-formed branches, and the job installed has 128 |
| Session.RebuildWorksIffEven | app/src/main/cpp/btcrig/stratum.c:1172-1221 | in a session that has built a job with an extranonce2 of even length, a rebuild installs one if and only if the counter prints an even number of digits |
| Session.OneByteRunsOut | app/src/main/cpp/btcrig/stratum.c:1172-1221 | with size 1 no rebuild installs a job while the counter is 256 to 4095 |
| Session.Client.SetDifficulty | app/src/main/cpp/btcrig/stratum.c:1149-1162 | the new difficulty, and a new job if there is a template |
| Session.Client.SetExtranonce | app/src/main/cpp/btcrig/stratum.c:1223-1242 | the new extranonce fields, and a new job if there is a template |
| Session.Client.Subscribed | app/src/main/cpp/btcrig/stratum.c:1086-1102 | the extranonce fields of the reply; no job |
| Session.Client.MaybeRoll | app/src/main/cpp/btcrig/stratum.c:1378-1386 | exactly when exhaustion was flagged, the flag is cleared and a rebuild is made, which installs a job if it can be built |
| SessionRun.RebuildUsesCounter | app/src/main/cpp/btcrig/stratum.c:1187-1189 | an installed job shows the counter as a number and the counter has moved past it |
| SessionRun.NoWorkTwice | app/src/main/cpp/btcrig/stratum.c:1172-1386 | over a whole connection two grants covering the same nonce are for jobs with different extranonce2 texts |
| SessionLaws.MessageMinesIff | app/src/main/cpp/btcrig/stratum.c:1149-1309 | over a whole connection: a notification, a new difficulty, a new extranonce or a roll installs a job if and only if what the pool has sent makes one, in literal limits; it is the job of what was sent, with all its nonces left; otherwise nothing changes for the workers |
| SessionRun.ShareIsAcceptedIff | app/src/main/cpp/btcrig/stratum.c:1172-1309 | over a whole connection every popped share solves the header of what the session kept of the messages its job came from; where template and extranonce1 were kept whole, the pool accepts it (header of its own template, extranonce2 of the length it gave) if and only if the counter the extranonce2 shows is below 16^(2*size) |
| SessionRun.RollingIsOutOfWork | app/src/main/cpp/btcrig/stratum.c:1378-1386 | between taking the flag and the roll no worker can fetch anything |
| SessionRun.FailedRollStalls | app/src/main/cpp/btcrig/stratum.c:1378-1386 | when that roll installs no job, nothing is granted any more, whatever workers and session do, until a message comes |
| PendingShares.Pending.FindSlot | app/src/main/cpp/btcrig/stratum.c:784-798 | an active slot with the id, else a free one, else none: exactly when all 64 hold other ids |
| PendingShares.Pending.Register | app/src/main/cpp/btcrig/stratum.c:779-815 | the map gains the id; only a full map of other ids gives one up |
| PendingShares.Pending.Complete | app/src/main/cpp/btcrig/stratum.c:817-841 | the map loses exactly the answered id, with its difficulty and waiting time, and the last result is kept |
| PendingShares.TableSize | app/src/main/cpp/btcrig/stratum.c:779-841 | with distinct ids the map is as large as the number of active slots, and 64 only when all are taken |
| PendingShares.FlushShares | app/src/main/cpp/btcrig/stratum.c:1356-1376 | shares leave in order with consecutive ids; the one whose send fails is lost; all sent ones are pending while the table has room for them |
| SessionLoop.RunTurn | app/src/main/cpp/btcrig/stratum.c:1554-1629 | which check ends a turn first: stop, run limit, period, submission, read; then authorization once subscribed, the suggestion once authorized, the clock once there is work |
| SessionLoop.RunSession | app/src/main/cpp/btcrig/stratum.c:1554-1629 | the first turn that ends the session decides its end; turns after it change nothing |
| SessionLoop.ZeroMeansFullPeriod | app/src/main/cpp/btcrig/stratum.c:1563-1568 | without a run limit, a result of 0 without a stop means authorized work for at least the scheduled seconds |
| SessionLoop.ZeroMeansStopped | app/src/main/cpp/btcrig/stratum.c:1555-1568 | without a schedule or run limit, a result of 0 means the session was stopped |
| SessionLoop.RequestsOnce | app/src/main/cpp/btcrig/stratum.c:1600-1619 | authorization and suggestion are sent at most once each |
| SessionLoop.SentWhenDue | app/src/main/cpp/btcrig/stratum.c:1600-1627 | the authorization is sent if and only if the first turn that reads a line while subscribed could send it, the suggestion likewise once authorized; the clock starts in the first turn that is authorized with work |
| SessionLoop.EndsWithReason | app/src/main/cpp/btcrig/stratum.c:1555-1612 | a turn ends the session if and only if one of the reasons holds in it, with the first of them as its end |
| TlsConn.Conn.ReaderTurn | app/src/main/java/com/btcrig/android/BtcrigTls.java:182-211 | a chunk is appended, or dropped with an error when it would exceed 1 MiB; end and failure are recorded |
| TlsConn.Conn.Read | app/src/main/java/com/btcrig/android/BtcrigTls.java:70-97 | the next bytes of the queue; the end or an error only once it is empty |
| TlsConn.Conn.Pending | app/src/main/java/com/btcrig/android/BtcrigTls.java:101-113 | the number of queued bytes, and -1, -2 or 0 only when there are none |
| TlsConn.AppendRest | app/src/main/java/com/btcrig/android/BtcrigTls.java:195-206 | a chunk added to the deque is added to the end of the unread bytes |
| LineReader.Reader.ReadLine | app/src/main/cpp/btcrig/stratum.c:1006-1055 | each call gives the next line of the stream, or says why not; too long only for 65536 bytes without a line feed |
| LineReader.Reader.TakeLine | app/src/main/cpp/btcrig/stratum.c:1008-1025 | the line, one carriage return dropped, and exactly its bytes and line feed consumed |
| LineReader.Poll | app/src/main/cpp/btcrig/stratum.c:561-601 | ready exactly if bytes are queued or the stream has ended without an error |
| LineReader.LinesOfJoined | app/src/main/cpp/btcrig/stratum.c:1006-1055 | splitting a stream after a line feed splits its lines |
| LineReader.LinesReadBack | app/src/main/cpp/btcrig/stratum.c:1006-1055 | lines sent with a line feed, or a carriage return and a line feed, are the lines read |
| LineReader.LinesArePrefix | app/src/main/cpp/btcrig/stratum.c:1006-1055 | the lines handed out are a prefix of the lines of everything received, and all of them if no line feed is left |
| CoreStats.Stats.Update | app/src/main/cpp/btcrig_core_full.c:213-253 | base, last snapshot, totals and status after a snapshot |
| CoreStats.TotalsAreExact | app/src/main/cpp/btcrig_core_full.c:213-253 | for any sequence of connections the totals are the sum of their last values |
| CoreStats.TotalsAddUp | app/src/main/cpp/btcrig_core_full.c:213-253 | each of the five totals is the sum of that counter, modulo 2^64 |
| CoreStats.TotalsInProgress | app/src/main/cpp/btcrig_core_full.c:213-253 | and of the current snapshot, while a connection lasts |
| CoreStats.TotalsNeverDecrease | app/src/main/cpp/btcrig_core_full.c:213-231 | no snapshot whatever makes a total go down, as long as the sums stay in 64 bits |
| Donation.DonationLevel | app/src/main/cpp/btcrig_core_full.c:98-103 | levels are clamped to 0 to 99 |
| Donation.RunCore | app/src/main/cpp/btcrig_core_full.c:476-546 | for whom each session was, its scheduled length and whether it completed, up to the first stop, missing pool or used-up limit |
| Donation.PhasesAlternate | app/src/main/cpp/btcrig_core_full.c:523-532 | in every run a donation phase follows a completed user phase, and after one, completed or failed, comes a full user phase |
| Donation.FailuresAreBounded | app/src/main/cpp/btcrig_core_full.c:496-503 | with retries r of at least 0 never more than r + 1 failures in a row; without donation never more than r + 1 sessions |
| Donation.LimitEndsRun | app/src/main/cpp/btcrig_core_full.c:496-500 | a turn that is not stopped and has a pool ends the run if and only if the limit is used up |
| Donation.RunEndsIff | app/src/main/cpp/btcrig_core_full.c:488-546 | a run has ended if and only if there was no pool, it was stopped or the limit was used up; until then every turn is a session, completed if and only if it returned 0 |
| Donation.LimitIsReached | app/src/main/cpp/btcrig_core_full.c:496-541 | failing sessions reach it: r + 1 of them, and the next turn ends the run |
| Donation.NothingDonated | app/src/main/cpp/btcrig_core_full.c:480-482 | without donation no session is for the donation address |
| Donation.DonationIsBounded | app/src/main/cpp/btcrig_core_full.c:105-118 | in every run completed donation seconds times (100 - L) are at most L times completed user seconds plus 30 L (100 - L) |

## Left out

- Sockets, TLS handshakes, JNI, `select`, keyboard input, colours and printing: a read is a chunk the model is given.
- JSON: messages arrive as decoded fields.
- The plain socket path of `conn_read` and `conn_wait_read`, where a ready socket may still have nothing: the line reader is
  modelled over the Android TLS connection. A connection that was closed and removed from the table is not modelled either.
- OpenCL runtime calls, device discovery, kernel building and buffer allocation: only kernel arithmetic, grid size and
  draining. On 32-bit systems the host's `size_t` could wrap in the grid size; here it does not. What a launch without
  atomics that wraps writes past the end of its buffers is not modelled.
- The x86 SHA-NI backend and the CUDA device code are not part of this model.
- Rounding of `double`: difficulties, targets and phase lengths are reals. `miner_hash_difficulty` and hash rates are left
  out, so shares carry no difficulty of their own.
- NULL arguments, a missing miner or callback, and failed allocations.
- Starting and joining threads: the flags are written outside the lock. The condition variable is represented by
  `NothingToDo` alone: that a worker sleeps exactly then, not how it wakes.
- `extranonce2_size * 2` is computed without overflow; C leaves sizes of 2^30 and more undefined.
- Values the C code writes to its out-parameters are results where no caller shares the memory: hash words, decoded bytes,
  headers, targets, lines. The strings of jobs and shares are values. Bytes after an embedded terminator in a line are not cut off.
- Scan.ScanGeneric: callbacks are collected in a sequence instead of being called; that a callback takes the lock is in
  `MinerRun`, where each is a step of its own.
- OpenClScanItem.CompressVec2: the eight vector registers are one sequence, rebuilt every turn.
- SessionLoop.RunTurn: the loop's flags are one value; the pool's answers to the requests are inputs of later turns.
- MinerScans.NoShareTwice: for runs of fewer than 2^64 steps, as all of `MinerRun`, and for launches that keep nine times
  their stored rows within 2^32; what stale rows add to a run is not modelled.
- MinerScans.NoShareTwiceIff: for launches of 2^32 offsets and more only the half that `MinerScans.ShareTwice` proves.
- PendingShares.FlushShares: when the table is full, which of the earlier ids are given up is in `PendingShares.Pending.Register`
  for each registration, not summed up over a flush.
- MinerLaws.QueueIsInOrder: for runs of fewer than 2^64 steps; the same holds of `MinerLaws.FetchHandsOut` and
  `MinerLaws.CreditIsTheWorkers`.
- SessionLaws.MessageMinesIff: for connections of fewer than 2^63 steps, and for messages received while no roll is due, as
  the client receives them.
- SessionRun.NoWorkTwice: for connections of fewer than 2^63 steps, in which the 64-bit counter cannot come around.
- SessionRun.ShareIsAcceptedIff: a share for a template or extranonce1 that was cut has a header of its own; that the pool
  refuses it would need hashes that differ.
- OpenClResults.EveryOrderDelivers: for fewer than 2^32 hits; of more, `OpenClOrders.DeliveredCount` says how many arrive.
  Memory operations of different items interleave but each is atomic and seen at once; the weaker ordering an OpenCL
  device may show before the kernel ends is not modelled.
- Session start-up outside the main loop, `miner_hashes` and the other plain readers, configuration, CPU topology, the
  Compose interface, the Android service and log handling: they would only add easy members.
