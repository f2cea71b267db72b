/**
 `struct miner` (miner.c): the fields behind the lock, with the share ring, and the body of every critical section.
 `View()` is the value of MinerState.dfy the fields stand for.
 */
module Miner {
  import opened Words
  import opened Sha256
  import opened Sha256d
  import opened Targets
  import opened Scan
  import opened Hex
  import opened JobBuilder
  import opened MinerState

  /** The slot `i` places after `head`. */
  function Slot(head: nat, i: nat): (slot: nat)
    ensures slot < SHARE_QUEUE_SIZE
  {
    (head + i) % SHARE_QUEUE_SIZE
  }

  lemma NextSlot(head: nat, i: nat)
    ensures Slot(Slot(head, 1), i) == Slot(head, i + 1)
  {
  }

  /** The queued shares of a ring, oldest first. */
  function Ring(slots: seq<Share>, head: nat, count: nat): (shares: seq<Share>)
    requires |slots| == SHARE_QUEUE_SIZE && head < SHARE_QUEUE_SIZE
    ensures |shares| == count
  {
    seq(count, i requires 0 <= i < count => slots[Slot(head, i)])
  }

  lemma RingPush(slots: seq<Share>, head: nat, count: nat, share: Share)
    requires |slots| == SHARE_QUEUE_SIZE && head < SHARE_QUEUE_SIZE && count < SHARE_QUEUE_SIZE
    ensures Ring(slots[Slot(head, count) := share], head, count + 1) == Ring(slots, head, count) + [share]
  {
  }

  lemma RingEmpty(slots: seq<Share>, head: nat)
    requires |slots| == SHARE_QUEUE_SIZE && head < SHARE_QUEUE_SIZE
    ensures Ring(slots, head, 0) == []
  {
  }

  lemma RingPop(slots: seq<Share>, head: nat, count: nat)
    requires |slots| == SHARE_QUEUE_SIZE && head < SHARE_QUEUE_SIZE && count > 0
    ensures Ring(slots, Slot(head, 1), count - 1) == Ring(slots, head, count)[1..]
    ensures Ring(slots, head, count)[0] == slots[head]
  {
    var before, after := Ring(slots, head, count), Ring(slots, Slot(head, 1), count - 1);
    forall i | 0 <= i < count - 1
      ensures after[i] == before[1..][i]
    {
      NextSlot(head, i);
    }
  }

  class Miner {
    var stop: bool
    var paused: bool
    var pauseEpoch: U64
    var job: ActiveJob
    var nextNonce: U64
    var nonceExhausted: bool
    var hashes: U64
    const threadHashes: array<U64>
    const deviceHashes: array<U64>
    const slots: array<Share>
    var shareHead: nat
    var shareTail: nat
    var shareCount: nat

    ghost predicate Valid()
      reads this
    {
      && slots.Length == SHARE_QUEUE_SIZE && threadHashes != deviceHashes
      && shareHead < SHARE_QUEUE_SIZE && shareCount <= SHARE_QUEUE_SIZE
      && shareTail == (shareHead + shareCount) % SHARE_QUEUE_SIZE
    }

    ghost function View(): MinerState
      requires Valid()
      reads this, slots, threadHashes, deviceHashes
    {
      MinerState(stop, paused, pauseEpoch, job, nextNonce, nonceExhausted, hashes, threadHashes[..], deviceHashes[..],
                 Ring(slots[..], shareHead, shareCount))
    }

    /** `calloc`. */
    constructor (threads: nat, devices: nat)
      ensures Valid() && fresh(slots) && fresh(threadHashes) && fresh(deviceHashes)
      ensures View() == Created(threads, devices)
    {
      stop, paused, pauseEpoch, nextNonce, nonceExhausted, hashes := false, false, 0, 0, false, 0;
      job := ActiveJob(NO_JOB, INITIAL, [0, 0, 0, 0], seq(8, _ => 0), 0, false);
      threadHashes := new U64[threads](_ => 0);
      deviceHashes := new U64[devices](_ => 0);
      slots := new Share[SHARE_QUEUE_SIZE](_ => NO_SHARE);
      shareHead, shareTail, shareCount := 0, 0, 0;
    }

    /** `copy_job_and_nonce_range_sized`. */
    method Fetch(batchSize: U32) returns (range: Option<Range>)
      requires Valid()
      modifies `job, `nextNonce, `nonceExhausted
      ensures Valid() && View() == FetchState(old(View()), batchSize)
      ensures range == FetchRange(old(View()), batchSize)
    {
      range := None;
      var size := if batchSize == 0 then MINER_BATCH_SIZE else batchSize;
      if !stop && !paused && job.valid {
        if nextNonce > U32_LIMIT - 1 {
          job := job.(valid := false);
          nonceExhausted := true;
        } else {
          var remaining := (U32_LIMIT - 1) - nextNonce + 1;
          var count: U32 := if remaining < size then remaining else size;
          range := Some(Range(job.(pauseEpoch := pauseEpoch), nextNonce, count));
          nextNonce := nextNonce + count;
        }
      }
    }

    /** `copy_job_and_nonce_range`. */
    method FetchForCpu() returns (range: Option<Range>)
      requires Valid()
      modifies `job, `nextNonce, `nonceExhausted
      ensures Valid()
      ensures var batch: U32 := if deviceHashes.Length > 0 then 65536 else 262144;
              View() == FetchState(old(View()), batch) && range == FetchRange(old(View()), batch)
    {
      range := Fetch(CpuBatchSize(deviceHashes.Length));
    }

    /** `queue_share_locked`. */
    method QueueShareLocked(share: Share)
      requires Valid()
      modifies slots, `shareTail, `shareCount
      ensures Valid() && View() == QueueShare(old(View()), share)
    {
      if shareCount >= SHARE_QUEUE_SIZE {
        return;
      }
      hide Ring;
      RingPush(slots[..], shareHead, shareCount, share);
      ghost var before := slots[..];
      slots[shareTail] := share;
      assert slots[..] == before[shareTail := share];
      shareTail := (shareTail + 1) % SHARE_QUEUE_SIZE;
      shareCount := shareCount + 1;
    }

    /** `queue_scan_match`: what a scan calls for every hit. */
    method QueueScanMatch(fetched: ActiveJob, hit: Match)
      requires Valid()
      modifies slots, `shareTail, `shareCount
      ensures Valid() && View() == QueueMatch(old(View()), fetched, hit)
    {
      var hash := WordsToBytes(hit.words);
      if !stop && !paused && pauseEpoch == fetched.pauseEpoch && job.publicJob.sequence == fetched.publicJob.sequence {
        QueueShareLocked(ShareOf(fetched.publicJob, hit.nonce, hash));
      }
    }

    /** The last critical section of `worker_main` and of `opencl_worker_main`. */
    method CreditHashes(fetched: ActiveJob, who: Reporter, count: U32)
      requires Valid()
      modifies `hashes, threadHashes, deviceHashes
      ensures Valid() && View() == Credit(old(View()), fetched, who, count)
    {
      if !stop && !paused && pauseEpoch == fetched.pauseEpoch && job.publicJob.sequence == fetched.publicJob.sequence {
        hashes := Wrap64(hashes + count);
        match who
        case Thread(id) =>
          if id < threadHashes.Length {
            threadHashes[id] := Wrap64(threadHashes[id] + count);
          }
        case Device(id) =>
          if id < deviceHashes.Length {
            deviceHashes[id] := Wrap64(deviceHashes[id] + count);
          }
      }
    }

    /** `miner_set_job`. */
    method SetJob(publicJob: Job)
      requires Valid()
      modifies `job, `nextNonce, `nonceExhausted, `shareHead, `shareTail, `shareCount
      ensures Valid() && View() == SetJobState(old(View()), publicJob)
    {
      hide Compress, BlockWords, LoadTarget, TailOf, MidstateOf;
      var active := Activate(publicJob);
      job := active.(publicJob := active.publicJob.(sequence := Wrap64(job.publicJob.sequence + 1)));
      nextNonce := 0;
      nonceExhausted := false;
      shareHead, shareTail, shareCount := 0, 0, 0;
    }

    /** `miner_set_paused`. */
    method SetPaused(nowPaused: bool)
      requires Valid()
      modifies `paused, `pauseEpoch
      ensures Valid() && View() == SetPausedState(old(View()), nowPaused)
    {
      if !paused && nowPaused {
        pauseEpoch := Wrap64(pauseEpoch + 1);
      }
      paused := nowPaused;
    }

    /** The critical section of `miner_stop`. */
    method Stop()
      requires Valid()
      modifies `stop
      ensures Valid() && View() == old(View()).(stop := true)
    {
      stop := true;
    }

    /** `miner_take_nonce_exhausted`. */
    method TakeNonceExhausted() returns (exhausted: bool)
      requires Valid()
      modifies `nonceExhausted
      ensures Valid() && View() == old(View()).(nonceExhausted := false) && exhausted == old(nonceExhausted)
    {
      exhausted := nonceExhausted;
      nonceExhausted := false;
    }

    /** `miner_pop_share`. */
    method Pop() returns (share: Option<Share>)
      requires Valid()
      modifies `shareHead, `shareCount
      ensures Valid() && View() == PopShare(old(View()))
      ensures share == if |old(View()).shares| > 0 then Some(old(View()).shares[0]) else None
    {
      hide Ring;
      share := None;
      RingEmpty(slots[..], shareHead);
      if shareCount > 0 {
        RingPop(slots[..], shareHead, shareCount);
        share := Some(slots[shareHead]);
        shareHead := (shareHead + 1) % SHARE_QUEUE_SIZE;
        shareCount := shareCount - 1;
      }
    }
  }

  /** The part of `miner_set_job` before the lock. */
  method Activate(publicJob: Job) returns (active: ActiveJob)
    ensures active == Activated(publicJob, publicJob.sequence)
  {
    hide Compress, BlockWords, LoadTarget, TailOf;
    var prepared := new Midstate(publicJob.header[..64]);
    var tailWords := LoadTail(publicJob.header);
    var targetWords := LoadTargetWords(publicJob.target);
    active := ActiveJob(publicJob, FromWords(prepared.fastState[..]), tailWords, targetWords, 0, true);
  }

  /** The loop that loads `target_words`. */
  method LoadTargetWords(target: Target) returns (words: TargetWords)
    ensures words == LoadTarget(target)
  {
    hide LoadLe32;
    var loaded := [];
    for i := 0 to 8
      invariant |loaded| == i && forall k :: 0 <= k < i ==> loaded[k] == LoadLe32(target[4 * k..4 * k + 4])
    {
      loaded := loaded + [LoadLe32(target[i * 4..i * 4 + 4])];
    }
    words := loaded;
  }
}
