/**
 What the miner does in every run, told by the events alone: whether it is paused, what a fetch hands out, which shares
 wait in which order, and who gets credit. Nothing here is said in terms of the critical sections' own functions.
 */
module MinerLaws {
  import opened Words
  import opened Sha256
  import opened Sha256d
  import opened Targets
  import opened Scan
  import opened Hex
  import opened MinerState
  import opened MinerRun

  // Pausing and stopping

  /** The value of the last pause event. */
  ghost predicate Paused(events: seq<Event>) {
    exists i :: 0 <= i < |events| && events[i] == Pause(true) && forall j :: i < j < |events| ==> !events[j].Pause?
  }

  ghost predicate Stopped(events: seq<Event>) { exists i :: 0 <= i < |events| && events[i] == Stop }

  /** How often the miner went from running to paused. */
  ghost function Pauses(events: seq<Event>): nat {
    if |events| == 0 then 0
    else
      var before := events[..|events| - 1];
      Pauses(before) + if events[|events| - 1] == Pause(true) && !Paused(before) then 1 else 0
  }

  ghost predicate ControlsAre(world: World, events: seq<Event>) {
    && (world.m.paused <==> Paused(events)) && (world.m.stop <==> Stopped(events))
    && world.m.pauseEpoch == Wrap64(Pauses(events))
  }

  lemma OneMoreEvent(events: seq<Event>, e: Event)
    ensures Paused(events + [e]) <==> if e.Pause? then e.paused else Paused(events)
    ensures Stopped(events + [e]) <==> Stopped(events) || e == Stop
    ensures Pauses(events + [e]) == Pauses(events) + if e == Pause(true) && !Paused(events) then 1 else 0
  {
    var all := events + [e];
    assert all[..|events|] == events && all[|events|] == e;
    if Paused(events) && !e.Pause? {
      var i :| 0 <= i < |events| && events[i] == Pause(true) && forall j :: i < j < |events| ==> !events[j].Pause?;
      assert all[i] == Pause(true);
    }
    if Paused(all) && !e.Pause? {
      var i :| 0 <= i < |all| && all[i] == Pause(true) && forall j :: i < j < |all| ==> !all[j].Pause?;
      assert events[i] == Pause(true);
      assert forall j :: i < j < |events| ==> all[j] == events[j];
    }
    if Stopped(events) {
      var i :| 0 <= i < |events| && events[i] == Stop;
      assert all[i] == Stop;
    }
  }

  lemma ControlsStep(world: World, e: Event, events: seq<Event>)
    requires ControlsAre(world, events)
    ensures ControlsAre(Next(world, e), events + [e])
  {
    hide Paused, Stopped, Pauses, Hits, MidstateOf, TailOf, LoadTarget, WordsToBytes, Bump;
    OneMoreEvent(events, e);
  }

  /** In every run the miner is paused if and only if the last pause event said so, stopped if and only if it was told
      to, and its epoch counts how often it went from running to paused. */
  lemma {:induction false} PauseIsLastSaid(threads: nat, devices: nat, events: seq<Event>)
    ensures ControlsAre(Run(threads, devices, events), events)
  {
    hide Next, ControlsAre;
    if |events| == 0 {
      NothingSaid(threads, devices);
    } else {
      var before := events[..|events| - 1];
      PauseIsLastSaid(threads, devices, before);
      ControlsStep(Run(threads, devices, before), events[|events| - 1], before);
      assert before + [events[|events| - 1]] == events;
    }
  }

  lemma NothingSaid(threads: nat, devices: nat)
    ensures ControlsAre(Start(threads, devices), [])
  {
  }

  // What a fetch hands out

  /** Nonces of the job in place not handed out yet. */
  ghost function Left(world: World): int { 0x1_0000_0000 - TotalFor(world.grants, |world.jobs|) }

  ghost function Wanted(batchSize: U32): U32 { if batchSize == 0 then 262144 else batchSize }

  /** Some fetch found that nothing was left. */
  ghost predicate FoundEmpty(world: World) { world.m.nonceExhausted || |world.jobs| in world.rolled }

  /** What a fetch by an idle worker does: nothing while the miner is stopped or paused, has no job or knows that
      nothing is left; otherwise the next nonces, as many as wanted and left, or the finding that none is left. */
  ghost predicate Handed(world: World, events: seq<Event>, who: nat, batchSize: U32, next: World)
    requires who < |world.workers| == |next.workers|
  {
    if Stopped(events) || Paused(events) || |world.jobs| == 0 || FoundEmpty(world) then next == world
    else if Left(world) > 0 then
      var count := if Left(world) < Wanted(batchSize) then Left(world) else Wanted(batchSize);
      && |world.jobs| < U64_LIMIT
      && next.grants == world.grants + [Grant(|world.jobs|, 0x1_0000_0000 - Left(world), count)]
      && next.workers[who].Holding? && next.workers[who].grant == |world.grants|
      && next.workers[who].range.start == 0x1_0000_0000 - Left(world) && next.workers[who].range.count == count
      && next.workers[who].range.job == Activated(world.jobs[|world.jobs| - 1], |world.jobs|).(
           pauseEpoch := world.m.pauseEpoch)
      && !FoundEmpty(next)
    else next.grants == world.grants && next.workers == world.workers && next.m.nonceExhausted
  }

  /** Without a valid job somebody found that nothing was left. */
  ghost predicate Known(world: World) { |world.jobs| > 0 ==> (world.m.job.valid <==> !FoundEmpty(world)) }

  lemma KnownStep(world: World, e: Event)
    requires Known(world) && JobKnown(world) && (|world.jobs| == 0 ==> !world.m.nonceExhausted)
    requires forall s <- world.rolled :: s <= |world.jobs|
    ensures Known(Next(world, e))
  {
    hide Hits, MidstateOf, TailOf, LoadTarget, WordsToBytes, Bump, Wrap64;
  }

  lemma {:induction false} AlwaysKnown(threads: nat, devices: nat, events: seq<Event>)
    requires |events| < U64_LIMIT
    ensures Known(Run(threads, devices, events))
  {
    hide Next, AllFresh, SharesSound, Allocated, Accounted, Logged, TotalFor, Known, Start;
    if |events| == 0 {
      StartKnown(threads, devices);
    } else {
      var before := events[..|events| - 1];
      AlwaysKnown(threads, devices, before);
      RunKeepsInvariant(threads, devices, before);
      KnownStep(Run(threads, devices, before), events[|events| - 1]);
    }
  }

  lemma StartKnown(threads: nat, devices: nat)
    ensures Known(Start(threads, devices))
  {
  }

  /** In every run a fetch hands out exactly that. */
  lemma FetchHandsOut(threads: nat, devices: nat, events: seq<Event>, who: nat, batchSize: U32)
    requires |events| < U64_LIMIT
    requires var world := Run(threads, devices, events); who < |world.workers| && world.workers[who].Idle?
    ensures var world := Run(threads, devices, events);
            |Next(world, Fetch(who, batchSize)).workers| == |world.workers|
            && Handed(world, events, who, batchSize, Next(world, Fetch(who, batchSize)))
  {
    hide Run, AllFresh, SharesSound, Accounted, Logged, TotalFor, Tiled, Paused, Stopped, Pauses, MidstateOf, TailOf,
         LoadTarget;
    var world := Run(threads, devices, events);
    RunKeepsInvariant(threads, devices, events);
    AlwaysKnown(threads, devices, events);
    PauseIsLastSaid(threads, devices, events);
    TotalFits(world.grants, |world.jobs|);
  }

  // Pause and resume

  /** Events that neither set a job nor stop, pause or resume. */
  ghost predicate ByWorkers(events: seq<Event>) {
    forall i :: 0 <= i < |events| ==> !events[i].NewJob? && !events[i].Stop? && !events[i].Pause?
  }

  /** The same jobs and grants, and the same job in place. */
  ghost predicate SameWork(a: World, b: World) {
    a.jobs == b.jobs && a.grants == b.grants && a.m.job == b.m.job && a.m.nextNonce == b.m.nextNonce
  }

  lemma RunNext(threads: nat, devices: nat, events: seq<Event>, e: Event)
    ensures Run(threads, devices, events + [e]) == Next(Run(threads, devices, events), e)
  {
    hide Next, Start;
    assert (events + [e])[..|events|] == events;
  }

  lemma PausedStep(world: World, e: Event)
    requires world.m.paused && !e.NewJob? && !e.Stop? && !e.Pause?
    ensures SameWork(world, Next(world, e)) && Next(world, e).m.paused && Next(world, e).m.stop == world.m.stop
    ensures Next(world, e).m.pauseEpoch == world.m.pauseEpoch
  {
    hide Hits, WordsToBytes, Bump, Wrap64;
  }

  /** Whatever the workers do while the miner is paused, no work is handed out and none is lost. */
  lemma {:induction false} PausedStandsStill(threads: nat, devices: nat, events: seq<Event>, during: seq<Event>)
    requires Run(threads, devices, events).m.paused && ByWorkers(during)
    ensures var world, later := Run(threads, devices, events), Run(threads, devices, events + during);
            && SameWork(world, later) && later.m.paused && later.m.stop == world.m.stop
            && later.m.pauseEpoch == world.m.pauseEpoch
  {
    hide Run, Next, SameWork;
    if |during| == 0 {
      assert events + during == events;
      Same(Run(threads, devices, events));
    } else {
      var before, last := during[..|during| - 1], during[|during| - 1];
      PausedStandsStill(threads, devices, events, before);
      assert events + during == events + before + [last];
      RunNext(threads, devices, events + before, last);
      PausedStep(Run(threads, devices, events + before), last);
      Chain(Run(threads, devices, events), Run(threads, devices, events + before),
            Run(threads, devices, events + during));
    }
  }

  lemma Same(world: World)
    ensures SameWork(world, world)
  {
  }

  lemma Chain(a: World, b: World, c: World)
    requires SameWork(a, b) && SameWork(b, c)
    ensures SameWork(a, c)
  {
  }

  lemma PauseStep(world: World, paused: bool)
    ensures var next := Next(world, Pause(paused));
            && SameWork(world, next) && next.m.paused == paused && next.m.stop == world.m.stop
            && next.m.pauseEpoch == if paused && !world.m.paused then Wrap64(world.m.pauseEpoch + 1)
                                    else world.m.pauseEpoch
  {
    hide Wrap64;
  }

  /** After a pause and a resume, whatever happened between them, the next fetch hands out what it would have handed out
      without them, under the next epoch. */
  lemma ResumeGoesOn(threads: nat, devices: nat, events: seq<Event>, during: seq<Event>, batchSize: U32)
    requires !Run(threads, devices, events).m.paused && ByWorkers(during)
    ensures var world := Run(threads, devices, events);
            var resumed := Run(threads, devices, events + [Pause(true)] + during + [Pause(false)]);
            && SameWork(world, resumed)
            && match FetchRange(world.m, batchSize)
               case None => FetchRange(resumed.m, batchSize).None?
               case Some(range) =>
                 FetchRange(resumed.m, batchSize)
                 == Some(range.(job := range.job.(pauseEpoch := Wrap64(world.m.pauseEpoch + 1))))
  {
    hide Run, Next, Wrap64;
    var world := Run(threads, devices, events);
    RunNext(threads, devices, events, Pause(true));
    PauseStep(world, true);
    PausedStandsStill(threads, devices, events + [Pause(true)], during);
    RunNext(threads, devices, events + [Pause(true)] + during, Pause(false));
    PauseStep(Run(threads, devices, events + [Pause(true)] + during), false);
  }

  // The queue

  /** The shares queued for the job in place, in the order they were found, and how many of them were popped. */
  datatype Ledger = Ledger(found: seq<Share>, taken: nat)

  /** What a worker reports is queued if nothing changed since its range was fetched and fewer than 256 are waiting;
      a new job clears the queue. */
  ghost function LedgerOf(threads: nat, devices: nat, events: seq<Event>): (l: Ledger)
    ensures l.taken <= |l.found|
  {
    if |events| == 0 then Ledger([], 0)
    else
      var before := LedgerOf(threads, devices, events[..|events| - 1]);
      var world := Run(threads, devices, events[..|events| - 1]);
      match events[|events| - 1]
      case NewJob(_) => Ledger([], 0)
      case PopOne => if before.taken < |before.found| then before.(taken := before.taken + 1) else before
      case Report(who, hit) =>
        if Reported(world, who, hit) && |before.found| - before.taken < 256 then
          before.(found := before.found + [FoundShare(world, hit)])
        else before
      case _ => before
  }

  ghost predicate Reported(world: World, who: nat, hit: Match) {
    && who < |world.workers| && world.workers[who].Holding? && world.workers[who].since == world.changes
    && Hits(world.workers[who].range.job, hit) && 0 < |world.jobs| < U64_LIMIT
  }

  /** The share for the job in place: its number and strings, the nonce and the bytes of the hash. */
  ghost function FoundShare(world: World, hit: Match): Share
    requires 0 < |world.jobs| < U64_LIMIT
  {
    var job := world.jobs[|world.jobs| - 1];
    Share(|world.jobs|, hit.nonce, WordsToBytes(hit.words), job.jobId, job.extranonce2, job.ntime)
  }

  ghost predicate Waits(world: World, l: Ledger)
    requires l.taken <= |l.found|
  {
    world.m.shares == l.found[l.taken..]
  }

  lemma WaitsStep(threads: nat, devices: nat, events: seq<Event>, e: Event)
    requires |events| + 1 < U64_LIMIT && Waits(Run(threads, devices, events), LedgerOf(threads, devices, events))
    ensures Waits(Next(Run(threads, devices, events), e), LedgerOf(threads, devices, events + [e]))
  {
    hide Run, Hits, WordsToBytes, MidstateOf, TailOf, LoadTarget, SharesSound, Allocated, RolledOnce, Accounted, Logged,
         Wrap64, Bump, AllFresh;
    var world := Run(threads, devices, events);
    RunKeepsInvariant(threads, devices, events);
    assert (events + [e])[..|events|] == events;
    if e.Report? && e.who < |world.workers| {
      WorkerIsFresh(world, e.who);
    }
  }

  /** In every run the queue holds what was found for the job in place and not yet popped, in that order. */
  lemma {:induction false} QueueIsInOrder(threads: nat, devices: nat, events: seq<Event>)
    requires |events| < U64_LIMIT
    ensures Waits(Run(threads, devices, events), LedgerOf(threads, devices, events))
  {
    hide Next, LedgerOf;
    if |events| == 0 {
      NothingWaits(threads, devices);
    } else {
      var before := events[..|events| - 1];
      QueueIsInOrder(threads, devices, before);
      WaitsStep(threads, devices, before, events[|events| - 1]);
      assert before + [events[|events| - 1]] == events;
    }
  }

  lemma NothingWaits(threads: nat, devices: nat)
    ensures Waits(Start(threads, devices), LedgerOf(threads, devices, []))
  {
  }

  // Credit

  /** The nonces of the ranges that worker `who` finished while nothing had changed since they were fetched. */
  ghost function FinishedBy(threads: nat, devices: nat, events: seq<Event>, who: nat): nat {
    if |events| == 0 then 0
    else
      var world := Run(threads, devices, events[..|events| - 1]);
      FinishedBy(threads, devices, events[..|events| - 1], who)
      + if events[|events| - 1] == Finish(who) && who < |world.workers| && world.workers[who].Holding?
           && world.workers[who].since == world.changes
        then world.workers[who].range.count else 0
  }

  /** Threads come first among the workers, then devices. */
  ghost predicate CreditIs(threads: nat, devices: nat, events: seq<Event>, world: World) {
    && |world.m.threadHashes| == threads && |world.m.deviceHashes| == devices && |world.workers| == threads + devices
    && (forall k :: 0 <= k < threads ==> world.m.threadHashes[k] == Wrap64(FinishedBy(threads, devices, events, k)))
    && (forall k :: 0 <= k < devices ==>
          world.m.deviceHashes[k] == Wrap64(FinishedBy(threads, devices, events, threads + k)))
  }

  ghost function Earned(world: World, e: Event, who: nat): nat {
    if e == Finish(who) && who < |world.workers| && world.workers[who].Holding?
       && world.workers[who].since == world.changes
    then world.workers[who].range.count else 0
  }

  lemma OneMoreFinish(threads: nat, devices: nat, events: seq<Event>, e: Event, who: nat)
    ensures FinishedBy(threads, devices, events + [e], who)
            == FinishedBy(threads, devices, events, who) + Earned(Run(threads, devices, events), e, who)
  {
    hide Run;
    assert (events + [e])[..|events|] == events;
  }

  /** One event adds what it earns to the counter of the worker that finished, and to no other. */
  lemma CountersStep(world: World, e: Event, threads: nat)
    requires |world.m.threadHashes| == threads && |world.workers| == threads + |world.m.deviceHashes|
    requires AllFresh(world)
    ensures var next := Next(world, e);
            && |next.m.threadHashes| == threads && |next.m.deviceHashes| == |world.m.deviceHashes|
            && |next.workers| == |world.workers|
            && (forall k :: 0 <= k < threads ==>
                  next.m.threadHashes[k] == Wrap64(world.m.threadHashes[k] + Earned(world, e, k)))
            && (forall k :: 0 <= k < |world.m.deviceHashes| ==>
                  next.m.deviceHashes[k] == Wrap64(world.m.deviceHashes[k] + Earned(world, e, threads + k)))
  {
    hide Hits, AllFresh, Next, Wrap64;
    ZeroEarned(world);
    if e.Finish? && Enabled(world, e) {
      FinishCounts(world, e.who);
    } else {
      OthersKeepCounters(world, e);
    }
  }

  lemma ZeroEarned(world: World)
    ensures forall k :: 0 <= k < |world.m.threadHashes| ==>
              Wrap64(world.m.threadHashes[k] + 0) == world.m.threadHashes[k]
    ensures forall k :: 0 <= k < |world.m.deviceHashes| ==>
              Wrap64(world.m.deviceHashes[k] + 0) == world.m.deviceHashes[k]
  {
  }

  lemma OthersKeepCounters(world: World, e: Event)
    requires !e.Finish? || !Enabled(world, e)
    ensures var next := Next(world, e);
            && next.m.threadHashes == world.m.threadHashes && next.m.deviceHashes == world.m.deviceHashes
            && |next.workers| == |world.workers|
  {
    hide Hits, WordsToBytes, MidstateOf, TailOf, LoadTarget, Wrap64;
  }

  lemma FinishCounts(world: World, who: nat)
    requires Enabled(world, Finish(who)) && AllFresh(world)
    requires |world.workers| == |world.m.threadHashes| + |world.m.deviceHashes|
    ensures var next, n, count := Next(world, Finish(who)), |world.m.threadHashes|, Earned(world, Finish(who), who);
            && |next.workers| == |world.workers|
            && next.m.threadHashes ==
               (if who < n && count > 0 then world.m.threadHashes[who := Wrap64(world.m.threadHashes[who] + count)]
                else world.m.threadHashes)
            && next.m.deviceHashes ==
               (if who >= n && count > 0
                then world.m.deviceHashes[who - n := Wrap64(world.m.deviceHashes[who - n] + count)]
                else world.m.deviceHashes)
  {
    hide MidstateOf, TailOf, LoadTarget, Hits;
    WorkerIsFresh(world, who);
  }

  lemma CreditStep(threads: nat, devices: nat, events: seq<Event>, e: Event)
    requires |events| + 1 < U64_LIMIT && CreditIs(threads, devices, events, Run(threads, devices, events))
    ensures CreditIs(threads, devices, events + [e], Next(Run(threads, devices, events), e))
  {
    hide Run, FinishedBy, Next, Earned, Wrap64, Numbered, AllFresh, SharesSound, Allocated, RolledOnce, Accounted,
         Logged;
    var world := Run(threads, devices, events);
    var next := Next(world, e);
    RunKeepsInvariant(threads, devices, events);
    CountersStep(world, e, threads);
    forall who: nat
      ensures FinishedBy(threads, devices, events + [e], who)
              == FinishedBy(threads, devices, events, who) + Earned(world, e, who)
    {
      OneMoreFinish(threads, devices, events, e, who);
    }
    forall k | 0 <= k < threads
      ensures next.m.threadHashes[k] == Wrap64(FinishedBy(threads, devices, events + [e], k))
    {
      SumInCounter(world.m.threadHashes[k], FinishedBy(threads, devices, events, k), Earned(world, e, k));
    }
    forall k | 0 <= k < devices
      ensures next.m.deviceHashes[k] == Wrap64(FinishedBy(threads, devices, events + [e], threads + k))
    {
      SumInCounter(world.m.deviceHashes[k], FinishedBy(threads, devices, events, threads + k),
                   Earned(world, e, threads + k));
    }
  }

  lemma SumInCounter(counter: U64, sum: nat, more: nat)
    requires counter == Wrap64(sum)
    ensures Wrap64(counter + more) == Wrap64(sum + more)
  {
  }

  /** In every run each worker's counter is the sum of what it finished while it counted, modulo 2^64. */
  lemma {:induction false} CreditIsTheWorkers(threads: nat, devices: nat, events: seq<Event>)
    requires |events| < U64_LIMIT
    ensures CreditIs(threads, devices, events, Run(threads, devices, events))
  {
    hide Next, CreditIs;
    if |events| == 0 {
      NoCredit(threads, devices);
    } else {
      var before := events[..|events| - 1];
      CreditIsTheWorkers(threads, devices, before);
      CreditStep(threads, devices, before, events[|events| - 1]);
      assert before + [events[|events| - 1]] == events;
    }
  }

  lemma NoCredit(threads: nat, devices: nat)
    ensures CreditIs(threads, devices, [], Start(threads, devices))
  {
  }
}
