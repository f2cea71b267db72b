/**
 The state behind the miner's lock (miner.c) and what each critical section does to it, as functions on values. The
 class in Miner.dfy is proved to do exactly this; MinerRun.dfy proves what holds in every interleaving.
 */
module MinerState {
  import opened Words
  import opened Sha256
  import opened Sha256d
  import opened Targets
  import opened Scan
  import opened Hex
  import opened JobBuilder

  const MINER_BATCH_SIZE: U32 := 262144
  const MINER_MIXED_CPU_BATCH_SIZE: U32 := 65536
  const SHARE_QUEUE_SIZE: nat := 256

  /** `active_job_t`: a job with everything the scan needs, and the pause epoch it was fetched in. */
  datatype ActiveJob = ActiveJob(publicJob: Job, midstate: State, tailWords: Tail, targetWords: TargetWords,
                                 pauseEpoch: U64, valid: bool)

  type TargetWords = w: seq<Word> | |w| == 8 witness seq(8, _ => 0)

  datatype Share = Share(sequence: U64, nonce: U32, hash: seq<Byte>, jobId: string, extranonce2: string, ntime: string)

  const NO_JOB: Job := Job(0, "", "", "", Zeros(80), Zeros(32))
  const NO_SHARE: Share := Share(0, 0, [], "", "", "")

  /** Who reports hashes: a CPU thread or an OpenCL device. */
  datatype Reporter = Thread(id: nat) | Device(id: nat)

  datatype MinerState = MinerState(stop: bool, paused: bool, pauseEpoch: U64, job: ActiveJob, nextNonce: U64,
                                   nonceExhausted: bool, hashes: U64, threadHashes: seq<U64>, deviceHashes: seq<U64>,
                                   shares: seq<Share>)

  /** A zeroed miner. */
  function Created(threads: nat, devices: nat): MinerState {
    MinerState(false, false, 0, ActiveJob(NO_JOB, INITIAL, [0, 0, 0, 0], seq(8, _ => 0), 0, false), 0, false, 0,
               seq(threads, _ => 0), seq(devices, _ => 0), [])
  }

  /** What a worker takes away. */
  datatype Range = Range(job: ActiveJob, start: U32, count: U32)

  /** `copy_job_and_nonce_range_sized`, the state afterwards. */
  function FetchState(m: MinerState, batchSize: U32): MinerState {
    if m.stop || m.paused || !m.job.valid then m
    else if m.nextNonce >= U32_LIMIT then m.(job := m.job.(valid := false), nonceExhausted := true)
    else m.(nextNonce := m.nextNonce + BatchCount(m, batchSize))
  }

  function BatchCount(m: MinerState, batchSize: U32): (count: U32)
    requires m.nextNonce < U32_LIMIT
    ensures 0 < count && m.nextNonce + count <= U32_LIMIT
  {
    var size := if batchSize == 0 then MINER_BATCH_SIZE else batchSize;
    if U32_LIMIT - m.nextNonce < size then U32_LIMIT - m.nextNonce else size
  }

  /** `copy_job_and_nonce_range`: smaller CPU batches when OpenCL devices mine too. */
  function CpuBatchSize(devices: nat): U32 { if devices > 0 then MINER_MIXED_CPU_BATCH_SIZE else MINER_BATCH_SIZE }

  /** `copy_job_and_nonce_range_sized`, the range handed out. */
  function FetchRange(m: MinerState, batchSize: U32): Option<Range> {
    if m.stop || m.paused || !m.job.valid || m.nextNonce >= U32_LIMIT then None
    else Some(Range(m.job.(pauseEpoch := m.pauseEpoch), m.nextNonce, BatchCount(m, batchSize)))
  }

  /** `scan_result_still_current_locked`. */
  predicate StillCurrent(m: MinerState, job: ActiveJob) {
    !m.stop && !m.paused && m.pauseEpoch == job.pauseEpoch && m.job.publicJob.sequence == job.publicJob.sequence
  }

  function ShareOf(job: Job, nonce: U32, hash: seq<Byte>): Share {
    Share(job.sequence, nonce, hash, job.jobId, job.extranonce2, job.ntime)
  }

  /** `queue_share_locked`: a full queue keeps what it has. */
  function QueueShare(m: MinerState, share: Share): MinerState {
    if |m.shares| >= SHARE_QUEUE_SIZE then m else m.(shares := m.shares + [share])
  }

  /** `queue_scan_match`. */
  function QueueMatch(m: MinerState, job: ActiveJob, match_: Match): MinerState {
    if StillCurrent(m, job) then QueueShare(m, ShareOf(job.publicJob, match_.nonce, WordsToBytes(match_.words))) else m
  }

  function Bump(counters: seq<U64>, id: nat, count: U32): (r: seq<U64>)
    ensures |r| == |counters|
  {
    if id < |counters| then counters[id := Wrap64(counters[id] + count)] else counters
  }

  /** The end of a worker's turn: its hashes count only if nothing changed meanwhile. */
  function Credit(m: MinerState, job: ActiveJob, who: Reporter, count: U32): MinerState {
    if !StillCurrent(m, job) then m
    else
      match who
      case Thread(id) =>
        m.(hashes := Wrap64(m.hashes + count), threadHashes := Bump(m.threadHashes, id, count))
      case Device(id) =>
        m.(hashes := Wrap64(m.hashes + count), deviceHashes := Bump(m.deviceHashes, id, count))
  }

  /** A job prepared for scanning. */
  function Activated(job: Job, sequence: U64): ActiveJob {
    ActiveJob(job.(sequence := sequence), MidstateOf(job.header), TailOf(job.header), LoadTarget(job.target), 0, true)
  }

  /** `miner_set_job`. */
  function SetJobState(m: MinerState, job: Job): MinerState {
    m.(job := Activated(job, Wrap64(m.job.publicJob.sequence + 1)), nextNonce := 0, nonceExhausted := false,
       shares := [])
  }

  /** `miner_set_paused`. */
  function SetPausedState(m: MinerState, paused: bool): MinerState {
    m.(paused := paused, pauseEpoch := if !m.paused && paused then Wrap64(m.pauseEpoch + 1) else m.pauseEpoch)
  }

  /** `miner_pop_share`. */
  function PopShare(m: MinerState): MinerState {
    if |m.shares| > 0 then m.(shares := m.shares[1..]) else m
  }

  /** Workers sleep in `miner_wait_for_work` while this holds. */
  predicate NothingToDo(m: MinerState) { !m.stop && (m.paused || !m.job.valid) }

  /** A worker that got no range sleeps, unless the miner is stopping: a failed fetch never leaves it spinning. */
  lemma FailedFetchWaits(m: MinerState, batchSize: U32)
    ensures FetchRange(m, batchSize).None? <==> m.stop || NothingToDo(FetchState(m, batchSize))
  {
  }

  /** The three changes that wake the workers are the only ones that can give a sleeping worker something to do. */
  lemma OnlyThreeWake(m: MinerState, batchSize: U32, job: ActiveJob, hit: Match, who: Reporter, count: U32)
    requires NothingToDo(m)
    ensures NothingToDo(FetchState(m, batchSize)) && NothingToDo(QueueMatch(m, job, hit))
    ensures NothingToDo(Credit(m, job, who, count)) && NothingToDo(PopShare(m))
    ensures NothingToDo(m.(nonceExhausted := false))
  {
    hide WordsToBytes;
  }
}
