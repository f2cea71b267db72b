/**
 The miner under every interleaving (miner.c). A step is one critical section by one thread; an event list is any
 schedule of them, with any jobs, pauses and batch sizes. An event that its thread cannot take changes nothing, so
 every event list is a run. Besides the miner's own state a `World` records what happened: the jobs set, the ranges
 granted, which of them were credited, the callbacks made, the shares popped and the jobs whose exhaustion was taken.
 */
module MinerRun {
  import opened Words
  import opened Sha256
  import opened Sha256d
  import opened Targets
  import opened Scan
  import opened JobBuilder
  import opened MinerState

  /** A worker holds nothing, or grant number `grant`, fetched when `since` changes had happened. */
  datatype Worker = Idle | Holding(range: Range, grant: nat, since: nat)

  datatype Grant = Grant(sequence: nat, start: U32, count: U32)

  /** One callback: for which grant and job, and what it said. */
  datatype Callback = Callback(grant: nat, sequence: nat, hit: Match)

  /** `changes` counts stops, job changes and pauses. */
  datatype World = World(m: MinerState, workers: seq<Worker>, changes: nat, jobs: seq<Job>, grants: seq<Grant>,
                         credited: seq<bool>, callbacks: seq<Callback>, popped: seq<Share>, rolled: seq<nat>)

  datatype Event =
    | Fetch(who: nat, batchSize: U32)
    | Report(who: nat, hit: Match)
    | Finish(who: nat)
    | Abandon(who: nat)
    | NewJob(job: Job)
    | Pause(paused: bool)
    | Stop
    | PopOne
    | TakeExhausted

  function Start(threads: nat, devices: nat): World {
    World(Created(threads, devices), seq(threads + devices, _ => Idle), 0, [], [], [], [], [], [])
  }

  /** The hash is the nonce's and meets the target. Nothing more is asked of a callback: it may be for a nonce
      outside the range its worker holds, and it may come again. */
  ghost predicate Hits(job: ActiveJob, hit: Match) {
    hit in MatchOf(job.midstate, job.tailWords, job.targetWords, hit.nonce)
  }

  function ReporterOf(world: World, who: nat): Reporter {
    if who < |world.m.threadHashes| then Thread(who) else Device(who - |world.m.threadHashes|)
  }

  ghost predicate Enabled(world: World, e: Event) {
    match e
    case Fetch(who, _) => who < |world.workers| && world.workers[who].Idle?
    case Report(who, hit) =>
      who < |world.workers| && world.workers[who].Holding?
      && Hits(world.workers[who].range.job, hit)
    case Finish(who) => who < |world.workers| && world.workers[who].Holding?
    case Abandon(who) => who < |world.workers| && world.workers[who].Holding?
    case _ => true
  }

  ghost function FetchWorld(world: World, who: nat, batchSize: U32): World
    requires who < |world.workers|
  {
    var after := world.(m := FetchState(world.m, batchSize));
    match FetchRange(world.m, batchSize)
    case None => after
    case Some(range) =>
      after.(workers := world.workers[who := Holding(range, |world.grants|, world.changes)],
             grants := world.grants + [Grant(range.job.publicJob.sequence, range.start, range.count)],
             credited := world.credited + [false])
  }

  ghost function FinishWorld(world: World, who: nat): World
    requires who < |world.workers| && world.workers[who].Holding?
  {
    var held := world.workers[who];
    world.(m := Credit(world.m, held.range.job, ReporterOf(world, who), held.range.count),
           workers := world.workers[who := Idle],
           credited := if StillCurrent(world.m, held.range.job) && held.grant < |world.credited|
                       then world.credited[held.grant := true] else world.credited)
  }

  ghost function ReportWorld(world: World, who: nat, hit: Match): World
    requires who < |world.workers| && world.workers[who].Holding?
  {
    var held := world.workers[who];
    world.(m := QueueMatch(world.m, held.range.job, hit),
           callbacks := world.callbacks + [Callback(held.grant, held.range.job.publicJob.sequence, hit)])
  }

  ghost function Apply(world: World, e: Event): World
    requires Enabled(world, e)
  {
    match e
    case Fetch(who, batchSize) => FetchWorld(world, who, batchSize)
    case Report(who, hit) => ReportWorld(world, who, hit)
    case Finish(who) => FinishWorld(world, who)
    case Abandon(who) => world.(workers := world.workers[who := Idle])
    case NewJob(job) => world.(m := SetJobState(world.m, job), jobs := world.jobs + [job], changes := world.changes + 1)
    case Pause(paused) =>
      world.(m := SetPausedState(world.m, paused),
             changes := if paused && !world.m.paused then world.changes + 1 else world.changes)
    case Stop => world.(m := world.m.(stop := true), changes := world.changes + 1)
    case PopOne =>
      world.(m := PopShare(world.m),
             popped := if |world.m.shares| > 0 then world.popped + [world.m.shares[0]] else world.popped)
    case TakeExhausted =>
      world.(m := world.m.(nonceExhausted := false),
             rolled := if world.m.nonceExhausted then world.rolled + [world.m.job.publicJob.sequence] else world.rolled)
  }

  ghost function Next(world: World, e: Event): World {
    if Enabled(world, e) then Apply(world, e) else world
  }

  ghost function Run(threads: nat, devices: nat, events: seq<Event>): World {
    if |events| == 0 then Start(threads, devices)
    else Next(Run(threads, devices, events[..|events| - 1]), events[|events| - 1])
  }

  // Jobs and freshness

  /** The job in place is the last one set, prepared; its number is how many were set. */
  ghost predicate JobKnown(world: World) {
    && world.m.job.publicJob.sequence == |world.jobs|
    && (|world.jobs| == 0 ==> !world.m.job.valid)
    && (|world.jobs| > 0 ==>
          world.m.job == Activated(world.jobs[|world.jobs| - 1], |world.jobs|).(valid := world.m.job.valid))
  }

  /** A held range belongs to a job that was set, and is current exactly if nothing changed since it was fetched. */
  ghost predicate Fresh(world: World, worker: Worker) {
    worker.Holding? ==>
      var job := worker.range.job;
      var s: nat := job.publicJob.sequence;
      && 1 <= s <= |world.jobs| < U64_LIMIT
      && job == Activated(world.jobs[s - 1], s).(pauseEpoch := job.pauseEpoch)
      && job.pauseEpoch <= world.m.pauseEpoch
      && worker.since <= world.changes
      && (worker.since == world.changes <==> StillCurrent(world.m, job))
      && (worker.since < world.changes ==>
            world.m.stop || job.pauseEpoch < world.m.pauseEpoch || s < |world.jobs|)
  }

  ghost predicate AllFresh(world: World) {
    forall worker <- world.workers :: Fresh(world, worker)
  }

  ghost predicate Numbered(world: World, steps: nat) {
    |world.jobs| <= steps && world.m.pauseEpoch <= steps && JobKnown(world)
  }

  lemma NumberedStep(world: World, e: Event, steps: nat)
    requires Numbered(world, steps) && steps + 1 < U64_LIMIT
    ensures Numbered(Next(world, e), steps + 1)
  {
    hide MidstateOf, TailOf, LoadTarget, Hits, Wrap64;
    SmallWraps(|world.jobs| + 1);
    SmallWraps(world.m.pauseEpoch + 1);
  }

  lemma SmallWraps(x: int)
    ensures 0 <= x < U64_LIMIT ==> Wrap64(x) == x
  {
  }

  /** What `Fresh` looks at is the same in both worlds. */
  ghost predicate SameClock(a: World, b: World) {
    && a.changes == b.changes && a.jobs == b.jobs
    && a.m.stop == b.m.stop && a.m.paused == b.m.paused && a.m.pauseEpoch == b.m.pauseEpoch
    && a.m.job.publicJob.sequence == b.m.job.publicJob.sequence
  }

  predicate Controls(e: Event) { e.NewJob? || e.Pause? || e.Stop? }

  lemma OnlyControlsMoveClock(world: World, e: Event)
    requires !Controls(e)
    ensures SameClock(world, Next(world, e))
  {
    hide MidstateOf, TailOf, LoadTarget, Hits, Wrap64, WordsToBytes, Bump;
  }

  lemma FreshKept(world: World, next: World, before: Worker, after: Worker)
    requires SameClock(world, next) && Fresh(world, before)
    requires after.Idle? || (before.Holding? && after.range == before.range && after.since == before.since)
    ensures Fresh(next, after)
  {
    hide Activated;
  }

  lemma FreshFetched(world: World, batchSize: U32, steps: nat, grant: nat)
    requires Numbered(world, steps) && steps < U64_LIMIT && FetchRange(world.m, batchSize).Some?
    ensures Fresh(world, Holding(FetchRange(world.m, batchSize).value, grant, world.changes))
  {
    hide MidstateOf, TailOf, LoadTarget;
  }

  lemma FreshControl(world: World, e: Event, steps: nat, worker: Worker)
    requires Numbered(world, steps) && steps + 1 < U64_LIMIT && Controls(e) && Fresh(world, worker)
    ensures Fresh(Next(world, e), worker)
  {
    hide MidstateOf, TailOf, LoadTarget, Wrap64, Hits;
    SmallWraps(|world.jobs| + 1);
    SmallWraps(world.m.pauseEpoch + 1);
  }

  lemma FreshStep(world: World, e: Event, steps: nat, who: nat)
    requires Numbered(world, steps) && steps + 1 < U64_LIMIT && AllFresh(world) && who < |world.workers|
    ensures |Next(world, e).workers| == |world.workers| && Fresh(Next(world, e), Next(world, e).workers[who])
  {
    hide AllFresh, Fresh, Numbered, SameClock, FetchState, QueueMatch, Credit, PopShare, StillCurrent, Hits;
    WorkerIsFresh(world, who);
    var next := Next(world, e);
    var before := world.workers[who];
    if Controls(e) {
      FreshControl(world, e, steps, before);
    } else {
      OnlyControlsMoveClock(world, e);
      if e.Fetch? && e.who == who && before.Idle? && FetchRange(world.m, e.batchSize).Some? {
        FreshFetched(world, e.batchSize, steps, |world.grants|);
        FreshKept(world, next, next.workers[who], next.workers[who]);
      } else {
        FreshKept(world, next, before, next.workers[who]);
      }
    }
  }

  lemma WorkerIsFresh(world: World, who: nat)
    requires AllFresh(world) && who < |world.workers|
    ensures Fresh(world, world.workers[who])
  {
  }

  // Shares

  /** A share answers the job with its number: header, target, and the strings the pool needs. */
  predicate Answers(share: Share, jobs: seq<Job>) {
    && 1 <= share.sequence <= |jobs|
    && var job := jobs[share.sequence - 1];
       && Solves(job.header, job.target, share.nonce, share.hash)
       && share.jobId == job.jobId && share.extranonce2 == job.extranonce2 && share.ntime == job.ntime
  }

  ghost predicate SharesSound(world: World) {
    && (forall i :: 0 <= i < |world.popped| ==> Answers(world.popped[i], world.jobs))
    && (forall i :: 0 <= i < |world.m.shares| ==>
          Answers(world.m.shares[i], world.jobs) && world.m.shares[i].sequence == |world.jobs|)
    && |world.m.shares| <= SHARE_QUEUE_SIZE
  }

  /** What a current worker reports is a solution of the current job. */
  lemma HitAnswers(world: World, who: nat, hit: Match, steps: nat)
    requires Numbered(world, steps) && AllFresh(world) && Enabled(world, Report(who, hit))
    requires StillCurrent(world.m, world.workers[who].range.job)
    ensures var job := world.workers[who].range.job.publicJob;
            var share := ShareOf(job, hit.nonce, WordsToBytes(hit.words));
            Answers(share, world.jobs) && share.sequence == |world.jobs|
  {
    hide MidstateOf, TailOf, LoadTarget, WordsToBytes, DoubleDigest, WithNonce, LittleEndian, NonceHash, LeBytes;
    WorkerIsFresh(world, who);
    var job := world.jobs[world.workers[who].range.job.publicJob.sequence - 1];
    LoadTargetKeepsBytes(job.target);
    NonceHashIsDoubleDigest(job.header, hit.nonce);
  }

  lemma SharesStep(world: World, e: Event, steps: nat)
    requires Numbered(world, steps) && steps + 1 < U64_LIMIT && AllFresh(world) && SharesSound(world)
    ensures SharesSound(Next(world, e))
  {
    hide MidstateOf, TailOf, LoadTarget, WordsToBytes, Hits, AllFresh, Solves, Wrap64;
    if Enabled(world, e) && e.Report? && StillCurrent(world.m, world.workers[e.who].range.job) {
      HitAnswers(world, e.who, e.hit, steps);
    }
  }

  // Shares and callbacks

  function Key(share: Share): (int, int) { (share.sequence as int, share.nonce as int) }

  function Keys(shares: seq<Share>): seq<(int, int)> {
    seq(|shares|, i requires 0 <= i < |shares| => Key(shares[i]))
  }

  function CallbackKeys(callbacks: seq<Callback>): seq<(int, int)> {
    seq(|callbacks|, i requires 0 <= i < |callbacks| => (callbacks[i].sequence as int, callbacks[i].hit.nonce as int))
  }

  /** Every callback belongs to a grant, and there is a callback for every share, popped or queued. */
  ghost predicate Logged(world: World) {
    && (forall i :: 0 <= i < |world.callbacks| ==>
          world.callbacks[i].grant < |world.grants|
          && world.callbacks[i].sequence == world.grants[world.callbacks[i].grant].sequence)
    && multiset(Keys(world.popped + world.m.shares)) <= multiset(CallbackKeys(world.callbacks))
  }

  lemma KeysJoin(a: seq<Share>, b: seq<Share>)
    ensures Keys(a + b) == Keys(a) + Keys(b)
  {
  }

  lemma CallbackKeysJoin(a: seq<Callback>, c: Callback)
    ensures CallbackKeys(a + [c]) == CallbackKeys(a) + [(c.sequence as int, c.hit.nonce as int)]
  {
  }

  lemma ReportLogged(world: World, who: nat, hit: Match)
    requires Accounted(world) && Logged(world) && Enabled(world, Report(who, hit))
    ensures Logged(ReportWorld(world, who, hit))
  {
    hide WordsToBytes, Hits, Sum, CreditedSum, Wrap64, Keys, CallbackKeys;
    var held := world.workers[who];
    var next := ReportWorld(world, who, hit);
    var share := ShareOf(held.range.job.publicJob, hit.nonce, WordsToBytes(hit.words));
    assert Held(world, held);
    CallbackKeysJoin(world.callbacks, Callback(held.grant, share.sequence, hit));
    if next.m.shares != world.m.shares {
      assert next.popped + next.m.shares == (world.popped + world.m.shares) + [share];
      KeysJoin(world.popped + world.m.shares, [share]);
      OneKey(share);
    }
  }

  lemma OneKey(share: Share)
    ensures Keys([share]) == [Key(share)]
  {
  }

  lemma OtherLogged(world: World, e: Event)
    requires Logged(world) && !e.Report?
    ensures Logged(Next(world, e))
  {
    hide Activated, Hits, Wrap64, Keys, CallbackKeys, StillCurrent, BatchCount;
    if e.NewJob? {
      KeysJoin(world.popped, world.m.shares);
      assert world.popped + [] == world.popped;
    } else if e.PopOne? {
      PopKeepsShares(world);
    } else {
      SharesUntouched(world, e);
    }
  }

  lemma PopKeepsShares(world: World)
    ensures var next := Next(world, PopOne); next.popped + next.m.shares == world.popped + world.m.shares
  {
  }

  lemma SharesUntouched(world: World, e: Event)
    requires !e.Report? && !e.NewJob? && !e.PopOne?
    ensures Next(world, e).popped == world.popped && Next(world, e).m.shares == world.m.shares
  {
    hide Activated, Hits, Wrap64, Bump;
  }

  lemma LoggedStep(world: World, e: Event)
    requires Accounted(world) && Logged(world)
    ensures Logged(Next(world, e))
  {
    hide Accounted, Logged, ReportWorld, Hits;
    if !e.Report? {
      OtherLogged(world, e);
    } else if Enabled(world, e) {
      ReportLogged(world, e.who, e.hit);
    }
  }

  // Ranges

  /** Nonces granted for job `s`. */
  function TotalFor(grants: seq<Grant>, s: nat): nat {
    if |grants| == 0 then 0
    else
      var last := grants[|grants| - 1];
      TotalFor(grants[..|grants| - 1], s) + if last.sequence == s then last.count else 0
  }

  /** Every grant starts where the earlier ones for its job ended, is not empty, and stays within 32 bits. */
  ghost predicate Tiled(grants: seq<Grant>) {
    |grants| > 0 ==>
      var before, last := grants[..|grants| - 1], grants[|grants| - 1];
      && Tiled(before) && last.start == TotalFor(before, last.sequence)
      && 0 < last.count && last.start + last.count <= U32_LIMIT
  }

  ghost predicate Allocated(world: World) {
    && Tiled(world.grants)
    && |world.credited| == |world.grants|
    && (forall i :: 0 <= i < |world.grants| ==> 1 <= world.grants[i].sequence <= |world.jobs|)
    && world.m.nextNonce == TotalFor(world.grants, |world.jobs|)
  }

  lemma {:induction false} NothingGranted(grants: seq<Grant>, s: nat)
    requires forall i :: 0 <= i < |grants| ==> grants[i].sequence < s
    ensures TotalFor(grants, s) == 0
  {
    if |grants| > 0 {
      NothingGranted(grants[..|grants| - 1], s);
    }
  }

  lemma AllocatedFetch(world: World, who: nat, batchSize: U32, steps: nat)
    requires Numbered(world, steps) && Allocated(world) && who < |world.workers|
    ensures Allocated(FetchWorld(world, who, batchSize))
  {
    hide MidstateOf, TailOf, LoadTarget;
    var next := FetchWorld(world, who, batchSize);
    if FetchRange(world.m, batchSize).Some? {
      assert next.grants[..|next.grants| - 1] == world.grants;
    }
  }

  lemma AllocatedJob(world: World, job: Job)
    requires Allocated(world)
    ensures Allocated(Next(world, NewJob(job)))
  {
    hide MidstateOf, TailOf, LoadTarget, Wrap64, Tiled, TotalFor;
    NothingGranted(world.grants, |world.jobs| + 1);
  }

  lemma OthersKeepGrants(world: World, e: Event)
    requires Allocated(world) && !e.Fetch? && !e.NewJob?
    ensures Allocated(Next(world, e))
  {
    hide WordsToBytes, Hits, Wrap64, Bump, Tiled, TotalFor, StillCurrent;
  }

  lemma AllocatedStep(world: World, e: Event, steps: nat)
    requires Numbered(world, steps) && Allocated(world)
    ensures Allocated(Next(world, e))
  {
    hide Numbered, Allocated, FetchWorld, Hits;
    match e
    case Fetch(who, batchSize) =>
      if Enabled(world, e) {
        AllocatedFetch(world, who, batchSize, steps);
      }
    case NewJob(job) => AllocatedJob(world, job);
    case _ => OthersKeepGrants(world, e);
  }

  /** Two grants for one job do not overlap. */
  lemma {:induction false} GrantsDisjoint(grants: seq<Grant>, i: nat, j: nat)
    requires Tiled(grants) && i < j < |grants| && grants[i].sequence == grants[j].sequence
    ensures grants[i].start + grants[i].count <= grants[j].start
  {
    var before := grants[..|grants| - 1];
    if j < |grants| - 1 {
      GrantsDisjoint(before, i, j);
    } else {
      GrantsEndBelow(before, i);
    }
  }

  lemma {:induction false} GrantsEndBelow(grants: seq<Grant>, i: nat)
    requires Tiled(grants) && i < |grants|
    ensures grants[i].start + grants[i].count <= TotalFor(grants, grants[i].sequence)
  {
    if i < |grants| - 1 {
      GrantsEndBelow(grants[..|grants| - 1], i);
    }
  }

  /** Together the grants for a job cover every nonce below their total, and the total is at most 2^32. */
  lemma {:induction false} GrantsCover(grants: seq<Grant>, s: nat, nonce: nat) returns (i: nat)
    requires Tiled(grants) && nonce < TotalFor(grants, s)
    ensures i < |grants| && grants[i].sequence == s && grants[i].start <= nonce < grants[i].start + grants[i].count
  {
    var last, before := grants[|grants| - 1], grants[..|grants| - 1];
    if last.sequence == s && nonce >= last.start {
      i := |grants| - 1;
    } else {
      i := GrantsCover(before, s, nonce);
    }
  }

  lemma {:induction false} TotalFits(grants: seq<Grant>, s: nat)
    requires Tiled(grants)
    ensures TotalFor(grants, s) <= U32_LIMIT
  {
    if |grants| > 0 {
      TotalFits(grants[..|grants| - 1], s);
    }
  }

  // Exhaustion

  ghost predicate RolledOnce(world: World) {
    && (forall i, j :: 0 <= i < j < |world.rolled| ==> world.rolled[i] != world.rolled[j])
    && (forall s <- world.rolled :: 1 <= s <= |world.jobs| && TotalFor(world.grants, s) == U32_LIMIT)
    && (world.m.nonceExhausted ==> |world.jobs| !in world.rolled && !world.m.job.valid)
    && (world.m.job.valid ==> |world.jobs| !in world.rolled)
    && (|world.jobs| == 0 ==> !world.m.nonceExhausted)
    && (|world.jobs| > 0 && !world.m.job.valid ==> world.m.nextNonce == U32_LIMIT)
  }

  /** What `RolledOnce` looks at is the same in both worlds. */
  ghost predicate SameLedger(a: World, b: World) {
    && a.jobs == b.jobs && a.grants == b.grants && a.rolled == b.rolled
    && a.m.nonceExhausted == b.m.nonceExhausted && a.m.job.valid == b.m.job.valid && a.m.nextNonce == b.m.nextNonce
  }

  lemma OthersKeepLedger(world: World, e: Event)
    requires !e.Fetch? && !e.NewJob? && !e.TakeExhausted?
    ensures SameLedger(world, Next(world, e))
  {
    hide WordsToBytes, Hits, Wrap64, Bump;
  }

  lemma RolledFetch(world: World, who: nat, batchSize: U32, steps: nat)
    requires Numbered(world, steps) && Allocated(world) && RolledOnce(world) && who < |world.workers|
    ensures RolledOnce(FetchWorld(world, who, batchSize))
  {
    hide MidstateOf, TailOf, LoadTarget, Tiled;
    TotalFits(world.grants, |world.jobs|);
    if FetchRange(world.m, batchSize).Some? {
      var next := FetchWorld(world, who, batchSize);
      assert next.grants[..|next.grants| - 1] == world.grants;
    }
  }

  lemma RolledStep(world: World, e: Event, steps: nat)
    requires Numbered(world, steps) && steps + 1 < U64_LIMIT && Allocated(world) && RolledOnce(world)
    ensures RolledOnce(Next(world, e))
  {
    hide MidstateOf, TailOf, LoadTarget, Hits, Wrap64, Tiled, FetchWorld, TotalFor;
    if e.Fetch? {
      if Enabled(world, e) {
        RolledFetch(world, e.who, e.batchSize, steps);
      }
    } else if !e.NewJob? && !e.TakeExhausted? {
      OthersKeepLedger(world, e);
    }
  }

  // Accounting

  function Sum(counters: seq<U64>): nat {
    if |counters| == 0 then 0 else Sum(counters[..|counters| - 1]) + counters[|counters| - 1]
  }

  lemma {:induction false} SumBump(counters: seq<U64>, id: nat, count: U32)
    requires id < |counters|
    ensures Wrap64(Sum(Bump(counters, id, count))) == Wrap64(Sum(counters) + count)
  {
    var n := |counters| - 1;
    var after := Bump(counters, id, count);
    if id < n {
      SumBump(counters[..n], id, count);
      assert after[..n] == Bump(counters[..n], id, count);
      WrapSum(Sum(after[..n]), Sum(counters[..n]) + count, counters[n]);
    } else {
      assert after[..n] == counters[..n];
      WrapSum(Wrap64(counters[n] + count), counters[n] + count, Sum(counters[..n]));
    }
  }

  lemma WrapSum(a: int, b: int, c: int)
    ensures Wrap64(a) == Wrap64(b) ==> Wrap64(a + c) == Wrap64(b + c)
    ensures Wrap64(Wrap64(a)) == Wrap64(a)
  {
  }

  /** Hashes of the credited grants, for job `s` or for all of them. */
  function CreditedFor(grants: seq<Grant>, credited: seq<bool>, s: nat): nat
    requires |grants| == |credited|
  {
    if |grants| == 0 then 0
    else
      var n := |grants| - 1;
      CreditedFor(grants[..n], credited[..n], s) + if credited[n] && grants[n].sequence == s then grants[n].count else 0
  }

  function CreditedSum(grants: seq<Grant>, credited: seq<bool>): nat
    requires |grants| == |credited|
  {
    if |grants| == 0 then 0
    else
      var n := |grants| - 1;
      CreditedSum(grants[..n], credited[..n]) + if credited[n] then grants[n].count else 0
  }

  lemma {:induction false} CreditAtMostGranted(grants: seq<Grant>, credited: seq<bool>, s: nat)
    requires |grants| == |credited|
    ensures CreditedFor(grants, credited, s) <= TotalFor(grants, s)
  {
    if |grants| > 0 {
      CreditAtMostGranted(grants[..|grants| - 1], credited[..|grants| - 1], s);
    }
  }

  lemma {:induction false} CreditOne(grants: seq<Grant>, credited: seq<bool>, i: nat)
    requires |grants| == |credited| && i < |grants| && !credited[i]
    ensures CreditedSum(grants, credited[i := true]) == CreditedSum(grants, credited) + grants[i].count
  {
    var n := |grants| - 1;
    if i < n {
      CreditOne(grants[..n], credited[..n], i);
      assert credited[i := true][..n] == credited[..n][i := true];
    } else {
      assert credited[i := true][..n] == credited[..n];
    }
  }

  /** A held grant is recorded, not yet credited, and held by one worker only. */
  ghost predicate Held(world: World, worker: Worker)
    requires |world.credited| == |world.grants|
  {
    worker.Holding? ==>
      && worker.grant < |world.grants| && !world.credited[worker.grant]
      && world.grants[worker.grant] ==
         Grant(worker.range.job.publicJob.sequence, worker.range.start, worker.range.count)
  }

  ghost predicate Accounted(world: World) {
    && |world.credited| == |world.grants|
    && |world.workers| == |world.m.threadHashes| + |world.m.deviceHashes|
    && world.m.hashes == Wrap64(Sum(world.m.threadHashes) + Sum(world.m.deviceHashes))
    && world.m.hashes == Wrap64(CreditedSum(world.grants, world.credited))
    && (forall i :: 0 <= i < |world.workers| ==> Held(world, world.workers[i]))
    && (forall i, j :: 0 <= i < j < |world.workers| && world.workers[i].Holding? && world.workers[j].Holding? ==>
          world.workers[i].grant != world.workers[j].grant)
  }

  lemma CreditKeepsSums(m: MinerState, job: ActiveJob, who: Reporter, count: U32)
    requires match who case Thread(id) => id < |m.threadHashes| case Device(id) => id < |m.deviceHashes|
    requires m.hashes == Wrap64(Sum(m.threadHashes) + Sum(m.deviceHashes))
    ensures var after := Credit(m, job, who, count);
            after.hashes == Wrap64(Sum(after.threadHashes) + Sum(after.deviceHashes))
            && |after.threadHashes| == |m.threadHashes| && |after.deviceHashes| == |m.deviceHashes|
            && after.hashes == if StillCurrent(m, job) then Wrap64(m.hashes + count) else m.hashes
  {
    hide Wrap64, Bump, Sum;
    var threads, devices := Sum(m.threadHashes), Sum(m.deviceHashes);
    WrapSum(threads + devices, m.hashes, count);
    match who
    case Thread(id) =>
      SumBump(m.threadHashes, id, count);
      WrapSum(Sum(Bump(m.threadHashes, id, count)), threads + count, devices);
    case Device(id) =>
      SumBump(m.deviceHashes, id, count);
      WrapSum(Sum(Bump(m.deviceHashes, id, count)), devices + count, threads);
  }

  lemma FinishAccounted(world: World, who: nat)
    requires Accounted(world) && Enabled(world, Finish(who))
    ensures Accounted(Next(world, Finish(who)))
  {
    hide Wrap64, Bump, Sum, Credit, CreditedSum, StillCurrent;
    var held := world.workers[who];
    assert Held(world, held);
    CreditKeepsSums(world.m, held.range.job, ReporterOf(world, who), held.range.count);
    CreditOne(world.grants, world.credited, held.grant);
    WrapSum(CreditedSum(world.grants, world.credited), world.m.hashes, held.range.count);
    WrapSum(world.m.hashes, world.m.hashes, 0);
  }

  lemma AccountedStep(world: World, e: Event)
    requires Accounted(world)
    ensures Accounted(Next(world, e))
  {
    hide MidstateOf, TailOf, LoadTarget, WordsToBytes, Hits, Wrap64, Sum, Credit;
    if e.Finish? {
      if Enabled(world, e) {
        FinishAccounted(world, e.who);
      }
    } else {
      var next := Next(world, e);
      var n := |world.grants|;
      assert |next.grants| > n ==> next.grants[..n] == world.grants && next.credited[..n] == world.credited;
    }
  }

  // Every run

  ghost predicate Invariant(world: World, steps: nat) {
    && Numbered(world, steps) && AllFresh(world) && SharesSound(world)
    && Allocated(world) && RolledOnce(world) && Accounted(world) && Logged(world)
  }

  lemma {:induction false} SumOfZeros(n: nat)
    ensures Sum(seq(n, _ => 0)) == 0
  {
    if n > 0 {
      SumOfZeros(n - 1);
      assert seq(n, _ => 0 as U64)[..n - 1] == seq(n - 1, _ => 0 as U64);
    }
  }

  lemma StartInvariant(threads: nat, devices: nat)
    ensures Invariant(Start(threads, devices), 0)
  {
    SumOfZeros(threads);
    SumOfZeros(devices);
  }

  lemma InvariantStep(world: World, e: Event, steps: nat)
    requires Invariant(world, steps) && steps + 1 < U64_LIMIT
    ensures Invariant(Next(world, e), steps + 1)
  {
    hide Next, Numbered, Fresh, SharesSound, Logged, Allocated, RolledOnce, Accounted;
    NumberedStep(world, e, steps);
    var next := Next(world, e);
    SameWorkers(world, e);
    forall worker | worker in next.workers
      ensures Fresh(next, worker)
    {
      var who :| 0 <= who < |next.workers| && next.workers[who] == worker;
      FreshStep(world, e, steps, who);
    }
    SharesStep(world, e, steps);
    AllocatedStep(world, e, steps);
    RolledStep(world, e, steps);
    AccountedStep(world, e);
    LoggedStep(world, e);
  }

  lemma SameWorkers(world: World, e: Event)
    ensures |Next(world, e).workers| == |world.workers|
  {
    hide Hits;
  }

  /** Every run of fewer than 2^64 critical sections keeps the invariant. */
  lemma {:induction false} RunKeepsInvariant(threads: nat, devices: nat, events: seq<Event>)
    requires |events| < U64_LIMIT
    ensures Invariant(Run(threads, devices, events), |events|)
  {
    hide Next, Invariant, Start;
    if |events| == 0 {
      StartInvariant(threads, devices);
    } else {
      var before := events[..|events| - 1];
      RunKeepsInvariant(threads, devices, before);
      InvariantStep(Run(threads, devices, before), events[|events| - 1], |before|);
    }
  }

  /** Share soundness: every share popped in any run, and every share still queued, solves the job it names and
      carries that job's strings; queued shares belong to the job in place, and there are at most 256 of them. */
  lemma SharesSolveTheirJobs(threads: nat, devices: nat, events: seq<Event>)
    requires |events| < U64_LIMIT
    ensures var world := Run(threads, devices, events);
            && (forall share <- world.popped :: Answers(share, world.jobs))
            && (forall share <- world.m.shares :: Answers(share, world.jobs) && share.sequence == |world.jobs|)
            && |world.m.shares| <= SHARE_QUEUE_SIZE
  {
    hide Run, Answers, Numbered, AllFresh, Logged, Allocated, RolledOnce, Accounted;
    RunKeepsInvariant(threads, devices, events);
  }

  /** The test for a current result is exact: it holds for a held range if and only if no stop, job change or pause
      happened since the range was fetched, even if the miner was resumed in between. */
  lemma CurrentIffUnchanged(threads: nat, devices: nat, events: seq<Event>, who: nat)
    requires |events| < U64_LIMIT
    requires var world := Run(threads, devices, events); who < |world.workers| && world.workers[who].Holding?
    ensures var world := Run(threads, devices, events);
            StillCurrent(world.m, world.workers[who].range.job) <==> world.changes == world.workers[who].since
  {
    hide Run, Numbered, SharesSound, Logged, Allocated, RolledOnce, Accounted, StillCurrent;
    RunKeepsInvariant(threads, devices, events);
    WorkerIsFresh(Run(threads, devices, events), who);
  }

  /** The nonce allocator: the ranges granted for a job are not empty, do not overlap, and tile the nonces from 0 to
      what was handed out so far, which is at most 2^32. */
  lemma RangesTile(threads: nat, devices: nat, events: seq<Event>)
    requires |events| < U64_LIMIT
    ensures var world := Run(threads, devices, events);
            && world.m.nextNonce == TotalFor(world.grants, |world.jobs|)
            && (forall s: nat :: TotalFor(world.grants, s) <= U32_LIMIT)
            && (forall i, j :: 0 <= i < j < |world.grants| && world.grants[i].sequence == world.grants[j].sequence ==>
                  world.grants[i].start + world.grants[i].count <= world.grants[j].start)
            && (forall i :: 0 <= i < |world.grants| ==>
                  world.grants[i].count > 0 && world.grants[i].start + world.grants[i].count <= U32_LIMIT)
            && (forall s: nat, nonce: nat :: nonce < TotalFor(world.grants, s) ==> Granted(world.grants, s, nonce))
  {
    hide Run, Numbered, AllFresh, SharesSound, Logged, RolledOnce, Accounted, TotalFor, Tiled, Granted;
    RunKeepsInvariant(threads, devices, events);
    var world := Run(threads, devices, events);
    forall s: nat
      ensures TotalFor(world.grants, s) <= U32_LIMIT
    {
      TotalFits(world.grants, s);
    }
    forall i, j | 0 <= i < j < |world.grants| && world.grants[i].sequence == world.grants[j].sequence
      ensures world.grants[i].start + world.grants[i].count <= world.grants[j].start
    {
      GrantsDisjoint(world.grants, i, j);
    }
    forall i | 0 <= i < |world.grants|
      ensures world.grants[i].count > 0 && world.grants[i].start + world.grants[i].count <= U32_LIMIT
    {
      GrantsFit(world.grants, i);
    }
    forall s: nat, nonce: nat | nonce < TotalFor(world.grants, s)
      ensures Granted(world.grants, s, nonce)
    {
      var i := GrantsCover(world.grants, s, nonce);
      GrantedBy(world.grants, s, nonce, i);
    }
  }

  ghost predicate Granted(grants: seq<Grant>, s: nat, nonce: nat) {
    exists i :: 0 <= i < |grants| && grants[i].sequence == s
                && grants[i].start <= nonce < grants[i].start + grants[i].count
  }

  lemma GrantedBy(grants: seq<Grant>, s: nat, nonce: nat, i: nat)
    requires i < |grants| && grants[i].sequence == s && grants[i].start <= nonce < grants[i].start + grants[i].count
    ensures Granted(grants, s, nonce)
  {
  }

  lemma {:induction false} GrantsFit(grants: seq<Grant>, i: nat)
    requires Tiled(grants) && i < |grants|
    ensures grants[i].count > 0 && grants[i].start + grants[i].count <= U32_LIMIT
  {
    if i < |grants| - 1 {
      GrantsFit(grants[..|grants| - 1], i);
    }
  }

  /** A job's exhaustion is taken at most once, and only after all 2^32 of its nonces were handed out. */
  lemma ExhaustedOnce(threads: nat, devices: nat, events: seq<Event>)
    requires |events| < U64_LIMIT
    ensures var world := Run(threads, devices, events);
            && (forall i, j :: 0 <= i < j < |world.rolled| ==> world.rolled[i] != world.rolled[j])
            && (forall s <- world.rolled :: TotalFor(world.grants, s) == U32_LIMIT)
            && (world.m.nonceExhausted ==>
                  TotalFor(world.grants, |world.jobs|) == U32_LIMIT && |world.jobs| !in world.rolled)
  {
    hide Run, Numbered, AllFresh, SharesSound, Logged, Accounted, TotalFor, Tiled;
    RunKeepsInvariant(threads, devices, events);
  }

  /** Accounting: the total is the sum of the threads' and devices' counters and of the credited ranges, each range
      counting once, modulo 2^64; credit for a job never exceeds what was handed out for it. */
  lemma HashesAddUp(threads: nat, devices: nat, events: seq<Event>, s: nat)
    requires |events| < U64_LIMIT
    ensures var world := Run(threads, devices, events);
            && world.m.hashes == Wrap64(Sum(world.m.threadHashes) + Sum(world.m.deviceHashes))
            && |world.credited| == |world.grants|
            && world.m.hashes == Wrap64(CreditedSum(world.grants, world.credited))
            && CreditedFor(world.grants, world.credited, s) <= TotalFor(world.grants, s) <= U32_LIMIT
  {
    hide Run, Numbered, AllFresh, SharesSound, Logged, RolledOnce, TotalFor, Tiled, Sum, CreditedFor;
    RunKeepsInvariant(threads, devices, events);
    var world := Run(threads, devices, events);
    CreditAtMostGranted(world.grants, world.credited, s);
    TotalFits(world.grants, s);
  }

  /** Finishing credits a range exactly when nothing changed since it was fetched, and a range credited stays so. */
  lemma CreditedIffUnchanged(threads: nat, devices: nat, events: seq<Event>, who: nat)
    requires |events| < U64_LIMIT && Enabled(Run(threads, devices, events), Finish(who))
    ensures var world := Run(threads, devices, events);
            var held := world.workers[who];
            var next := Next(world, Finish(who));
            && held.grant < |world.credited| && !world.credited[held.grant]
            && next.credited == world.credited[held.grant := world.changes == held.since]
            && next.m.hashes ==
               if world.changes == held.since then Wrap64(world.m.hashes + held.range.count) else world.m.hashes
  {
    hide Run, Numbered, SharesSound, Logged, RolledOnce, TotalFor, Tiled, Sum, CreditedSum, StillCurrent,
         AllFresh, Allocated, Wrap64;
    RunKeepsInvariant(threads, devices, events);
    CurrentIffUnchanged(threads, devices, events, who);
    assert Held(Run(threads, devices, events), Run(threads, devices, events).workers[who]);
  }
}
