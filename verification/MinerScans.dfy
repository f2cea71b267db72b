/**
 Which callbacks the workers' scans make, and whether a share can come twice. `queue_scan_match` does not look for
 duplicates: that no share comes twice rests on the scans reporting every nonce of their range once and no other. The
 CPU scans do. An OpenCL launch whose grid does not wrap does; one that wraps brings a share twice as soon as a nonce
 it scans twice, or scans outside its range, solves the job.
 */
module MinerScans {
  import opened Words
  import opened Sha256
  import opened Sha256d
  import opened Targets
  import opened Scan
  import opened JobBuilder
  import opened MinerState
  import opened MinerRun
  import opened OpenClGrid
  import Results = OpenClResults
  import Orders = OpenClOrders

  /** How the range of a grant was scanned. */
  datatype ScanKind = CpuScan | Launched(kernel: Kernel, npi: U32, local: U32, maxResults: U32)

  /** The callbacks of the plain loop over a range. */
  function PlainScan(job: Job, start: U32, count: U32): seq<Match> {
    ScanMatches(MidstateOf(job.header), TailOf(job.header), LoadTarget(job.target), start, count)
  }

  /** The hits of a launch over a range. */
  function LaunchHits(kernel: Kernel, npi: U32, local: U32, job: Job, start: U32, count: U32): seq<Match>
    requires npi > 0
  {
    Results.HitsOf(kernel, npi, local, MidstateOf(job.header), TailOf(job.header), LoadTarget(job.target), start, count)
  }

  /** The callbacks a scan has made so far: the first of those of the plain loop, or the first of those the host makes
      at the end of a launch, whatever the order of its items and whatever the buffer held. */
  ghost predicate Makes(kind: ScanKind, job: Job, start: U32, count: U32, callbacks: seq<Match>) {
    match kind
    case CpuScan => callbacks <= PlainScan(job, start, count)
    case Launched(kernel, npi, local, maxResults) =>
      Serves(kernel, npi) && npi > 0
      && Orders.MayDeliver(LaunchHits(kernel, npi, local, job, start, count), maxResults, callbacks)
  }

  /** The hits fit the counter, and their rows the 32-bit index. */
  ghost predicate HitsFit(kind: ScanKind, job: Job, start: U32, count: U32) {
    kind.Launched? && kind.npi > 0 ==>
      var hits := LaunchHits(kind.kernel, kind.npi, kind.local, job, start, count);
      |hits| < U32_LIMIT && 9 * Min(|hits|, kind.maxResults) <= U32_LIMIT
  }

  lemma PrefixIsPart<T>(part: seq<T>, whole: seq<T>)
    requires part <= whole
    ensures multiset(part) <= multiset(whole)
  {
    assert whole == part + whole[|part|..];
  }

  /** What a scan reports is always a solution: the callback's nonce has the callback's hash, which meets the target.
      So the runs of MinerRun, in which only hits are reported, leave out no callback of a scan. */
  lemma CallbacksAreHits(kind: ScanKind, job: Job, sequence: U64, start: U32, count: U32, callbacks: seq<Match>,
                         hit: Match)
    requires Makes(kind, job, start, count, callbacks) && HitsFit(kind, job, start, count)
    requires start + count <= U32_LIMIT && hit in callbacks
    ensures Hits(Activated(job, sequence), hit)
  {
    hide MidstateOf, TailOf, LoadTarget, MatchOf, ScanMatches, Results.MatchesAt, GlobalSize, Scanned;
    var mid, tail, target := MidstateOf(job.header), TailOf(job.header), LoadTarget(job.target);
    match kind {
      case CpuScan => HitInRange(mid, tail, target, start, count, hit);
      case Launched(kernel, npi, local, maxResults) =>
        var hits := LaunchHits(kernel, npi, local, job, start, count);
        Orders.OnlyHits(hits, maxResults, callbacks);
        assert hit in multiset(callbacks) && hit in multiset(hits);
        Results.HitsSolve(mid, tail, target, start, Scanned(kernel, count, npi, GlobalSize(count, npi, local)), hit);
    }
  }

  /** A launch without atomics whose grid does not wrap reports what one with atomics and that grid may report. */
  lemma SlotDeliveryIsMade(npi: U32, local: U32, job: Job, start: U32, count: U32, maxResults: U32,
                           matches: seq<Word>, schedule: seq<nat>, callbacks: seq<Match>)
    requires 1 <= npi <= 64 && count > 0 && NoWrap(General, count, npi, GlobalSize(count, npi, local))
    requires |matches| == 9 * count < U32_LIMIT
    requires var mid, tail, target := MidstateOf(job.header), TailOf(job.header), LoadTarget(job.target);
             Results.SlotLaunchEnds(npi, local, mid, tail, target, start, count, matches, schedule)
             && var end := Results.SlotsAfter(npi, local, mid, tail, target, start, count, matches, schedule);
                callbacks <= Results.FirstOf(Results.Flagged(end, count), maxResults)
    ensures Makes(Launched(General, npi, local, maxResults), job, start, count, callbacks)
  {
    hide Results.HitsOf, MidstateOf, TailOf, LoadTarget, ScanMatches, GlobalSize, NoWrap, Orders.MayDeliver;
    hide Results.SlotLaunchEnds, Results.SlotsAfter, Results.Flagged;
    var mid, tail, target := MidstateOf(job.header), TailOf(job.header), LoadTarget(job.target);
    Results.SlotsDeliver(npi, local, mid, tail, target, start, count, maxResults, matches, schedule);
    Results.LaunchHitsAreScan(General, npi, local, mid, tail, target, start, count);
    Orders.FirstMayComeFirst(LaunchHits(General, npi, local, job, start, count), maxResults, |callbacks|);
    assert callbacks == LaunchHits(General, npi, local, job, start, count)[..|callbacks|];
  }

  /** The callbacks of one grant, in order. */
  function CallbacksOf(callbacks: seq<Callback>, grant: nat): seq<Match> {
    if |callbacks| == 0 then []
    else
      var last := callbacks[|callbacks| - 1];
      CallbacksOf(callbacks[..|callbacks| - 1], grant) + if last.grant == grant then [last.hit] else []
  }

  ghost predicate MadeFor(world: World, kind: ScanKind, g: nat)
    requires g < |world.grants|
  {
    var grant := world.grants[g];
    1 <= grant.sequence <= |world.jobs|
    && Makes(kind, world.jobs[grant.sequence - 1], grant.start, grant.count, CallbacksOf(world.callbacks, g))
  }

  /** The callbacks of a run are those of scans of the given kinds, one for each grant. */
  ghost predicate Made(world: World, kinds: seq<ScanKind>) {
    |kinds| == |world.grants| && forall g :: 0 <= g < |kinds| ==> MadeFor(world, kinds[g], g)
  }

  /** A CPU scan, or a launch whose grid does not wrap and whose rows the 32-bit index reaches. With a buffer for a
      single match a launch that wraps will do too, if it scans fewer than 2^32 offsets. */
  ghost predicate Exact(kind: ScanKind, count: U32) {
    match kind
    case CpuScan => true
    case Launched(kernel, npi, local, maxResults) =>
      && count > 0 && npi > 0
      && (|| (NoWrap(kernel, count, npi, GlobalSize(count, npi, local)) && 9 * Min(count, maxResults) <= U32_LIMIT)
          || (maxResults <= 1 && |Scanned(kernel, count, npi, GlobalSize(count, npi, local))| < U32_LIMIT))
  }

  /** No two shares, popped or queued, have the same job number and nonce. */
  ghost predicate SharesDiffer(world: World) {
    var keys := Keys(world.popped + world.m.shares);
    forall i, j :: 0 <= i < j < |keys| ==> keys[i] != keys[j]
  }

  // Exact scans make no share twice

  /** No nonce twice. */
  ghost predicate NoncesDiffer(callbacks: seq<Match>) {
    forall i, j :: 0 <= i < j < |callbacks| ==> callbacks[i].nonce != callbacks[j].nonce
  }

  lemma {:induction false} AtMostOnce<T>(s: seq<T>, x: T)
    requires forall i, j :: 0 <= i < j < |s| ==> s[i] != s[j]
    ensures multiset(s)[x] <= 1
  {
    if |s| > 0 {
      var n := |s| - 1;
      AtMostOnce(s[..n], x);
      assert s == s[..n] + [s[n]];
      if s[n] == x {
        assert forall i :: 0 <= i < n ==> s[..n][i] == s[i] != s[n];
        assert x !in s[..n];
      }
    }
  }

  lemma Twice<T>(s: seq<T>, i: nat, j: nat)
    requires i < j < |s| && s[i] == s[j]
    ensures multiset(s)[s[i]] >= 2
  {
    assert s == s[..j] + [s[j]] + s[j + 1..];
    assert s[i] in s[..j];
  }

  lemma PartMembers<T>(part: seq<T>, whole: seq<T>, i: nat)
    requires multiset(part) <= multiset(whole) && i < |part|
    ensures part[i] in whole
  {
    assert part[i] in multiset(part);
    assert part[i] in multiset(whole);
  }

  /** Some of the callbacks of an ascending scan, each once: still no nonce twice. */
  lemma PartOfAscending(part: seq<Match>, whole: seq<Match>)
    requires multiset(part) <= multiset(whole) && Ascending(whole)
    ensures NoncesDiffer(part)
  {
    forall i, j | 0 <= i < j < |part|
      ensures part[i].nonce != part[j].nonce
    {
      PartMembers(part, whole, i);
      PartMembers(part, whole, j);
      if part[i].nonce == part[j].nonce {
        var a :| 0 <= a < |whole| && whole[a] == part[i];
        var b :| 0 <= b < |whole| && whole[b] == part[j];
        assert a == b;
        AtMostOnce(whole, part[i]);
        Twice(part, i, j);
      }
    }
  }

  /** What a launch without wrap reports are callbacks of the plain loop. */
  lemma UnwrappedLaunch(kind: ScanKind, job: Job, start: U32, count: U32, callbacks: seq<Match>)
    requires kind.Launched? && Makes(kind, job, start, count, callbacks) && count > 0
    requires NoWrap(kind.kernel, count, kind.npi, GlobalSize(count, kind.npi, kind.local))
    requires 9 * Min(count, kind.maxResults) <= U32_LIMIT
    ensures multiset(callbacks) <= multiset(PlainScan(job, start, count))
  {
    hide MidstateOf, TailOf, LoadTarget, Results.HitsOf, ScanMatches, GlobalSize, NoWrap, Orders.MayDeliver;
    Results.LaunchHitsAreScan(kind.kernel, kind.npi, kind.local, MidstateOf(job.header), TailOf(job.header),
                              LoadTarget(job.target), start, count);
    Orders.OnlyHits(LaunchHits(kind.kernel, kind.npi, kind.local, job, start, count), kind.maxResults, callbacks);
  }

  /** A launch that can report a single match reports one of its range. */
  lemma SingleResult(kind: ScanKind, job: Job, start: U32, count: U32, callbacks: seq<Match>)
    requires kind.Launched? && Makes(kind, job, start, count, callbacks) && count > 0 && kind.maxResults <= 1
    requires |Scanned(kind.kernel, count, kind.npi, GlobalSize(count, kind.npi, kind.local))| < U32_LIMIT
    requires start + count <= U32_LIMIT
    ensures |callbacks| <= 1 && forall c <- callbacks :: start <= c.nonce < start + count
  {
    hide MidstateOf, TailOf, LoadTarget, Results.MatchesAt, MatchOf, Scanned, GlobalSize, Orders.MayDeliver;
    var mid, tail, target := MidstateOf(job.header), TailOf(job.header), LoadTarget(job.target);
    var hits := LaunchHits(kind.kernel, kind.npi, kind.local, job, start, count);
    var offsets := Scanned(kind.kernel, count, kind.npi, GlobalSize(count, kind.npi, kind.local));
    FewStayInside(kind.kernel, count, kind.npi, kind.local);
    Results.AtMostOneMatchEach(mid, tail, target, start, offsets);
    Orders.OnlyHits(hits, kind.maxResults, callbacks);
    forall c <- callbacks
      ensures start <= c.nonce < start + count
    {
      assert c in multiset(callbacks) && c in multiset(hits);
      Results.HitsSolve(mid, tail, target, start, offsets, c);
    }
  }

  /** An exact scan makes callbacks for nonces of its range only, for each at most once. */
  lemma ExactScan(kind: ScanKind, job: Job, start: U32, count: U32, callbacks: seq<Match>)
    requires Makes(kind, job, start, count, callbacks) && Exact(kind, count) && start + count <= U32_LIMIT
    ensures NoncesDiffer(callbacks)
    ensures forall i :: 0 <= i < |callbacks| ==> start <= callbacks[i].nonce < start + count
  {
    hide MidstateOf, TailOf, LoadTarget, LaunchHits, ScanMatches, GlobalSize, NoWrap, Scanned, Orders.MayDeliver;
    var plain := PlainScan(job, start, count);
    if kind.Launched? && kind.maxResults <= 1
       && |Scanned(kind.kernel, count, kind.npi, GlobalSize(count, kind.npi, kind.local))| < U32_LIMIT {
      SingleResult(kind, job, start, count, callbacks);
    } else {
      if kind.Launched? {
        UnwrappedLaunch(kind, job, start, count, callbacks);
      } else {
        PrefixIsPart(callbacks, plain);
      }
      PartOfPlain(job, start, count, callbacks);
    }
  }

  lemma PartOfPlain(job: Job, start: U32, count: U32, callbacks: seq<Match>)
    requires multiset(callbacks) <= multiset(PlainScan(job, start, count)) && start + count <= U32_LIMIT
    ensures NoncesDiffer(callbacks)
    ensures forall i :: 0 <= i < |callbacks| ==> start <= callbacks[i].nonce < start + count
  {
    hide MidstateOf, TailOf, LoadTarget, ScanMatches;
    var mid, tail, target := MidstateOf(job.header), TailOf(job.header), LoadTarget(job.target);
    ScanAscends(mid, tail, target, start, count);
    PartOfAscending(callbacks, PlainScan(job, start, count));
    forall i | 0 <= i < |callbacks|
      ensures start <= callbacks[i].nonce < start + count
    {
      PartMembers(callbacks, PlainScan(job, start, count), i);
      HitInRange(mid, tail, target, start, count, callbacks[i]);
    }
  }

  /** A callback of a grant has its place among that grant's callbacks. */
  lemma {:induction false} PlaceOf(callbacks: seq<Callback>, i: nat) returns (p: nat)
    requires i < |callbacks|
    ensures var own := CallbacksOf(callbacks, callbacks[i].grant); p < |own| && own[p] == callbacks[i].hit
    ensures i == |callbacks| - 1 ==> p == |CallbacksOf(callbacks, callbacks[i].grant)| - 1
    ensures i < |callbacks| - 1 ==> p < |CallbacksOf(callbacks[..|callbacks| - 1], callbacks[i].grant)|
  {
    if i == |callbacks| - 1 {
      p := |CallbacksOf(callbacks, callbacks[i].grant)| - 1;
    } else {
      p := PlaceOf(callbacks[..|callbacks| - 1], i);
    }
  }

  lemma {:induction false} SameGrantDiffers(callbacks: seq<Callback>, i: nat, j: nat)
    requires i < j < |callbacks| && callbacks[i].grant == callbacks[j].grant
    requires NoncesDiffer(CallbacksOf(callbacks, callbacks[i].grant))
    ensures callbacks[i].hit.nonce != callbacks[j].hit.nonce
  {
    var g, before := callbacks[i].grant, callbacks[..|callbacks| - 1];
    if j < |callbacks| - 1 {
      var own, all := CallbacksOf(before, g), CallbacksOf(callbacks, g);
      assert forall p :: 0 <= p < |own| ==> own[p] == all[p];
      SameGrantDiffers(before, i, j);
    } else {
      var p := PlaceOf(callbacks, i);
      var q := PlaceOf(callbacks, j);
    }
  }

  lemma GrantCallbacks(world: World, kinds: seq<ScanKind>, g: nat)
    requires Made(world, kinds) && g < |kinds| && Exact(kinds[g], world.grants[g].count)
    requires world.grants[g].start + world.grants[g].count <= U32_LIMIT
    ensures NoncesDiffer(CallbacksOf(world.callbacks, g))
    ensures forall c :: 0 <= c < |world.callbacks| && world.callbacks[c].grant == g ==>
              world.grants[g].start <= world.callbacks[c].hit.nonce < world.grants[g].start + world.grants[g].count
  {
    hide Makes, Exact;
    assert MadeFor(world, kinds[g], g);
    var grant := world.grants[g];
    ExactScan(kinds[g], world.jobs[grant.sequence - 1], grant.start, grant.count, CallbacksOf(world.callbacks, g));
    forall c | 0 <= c < |world.callbacks| && world.callbacks[c].grant == g
      ensures grant.start <= world.callbacks[c].hit.nonce < grant.start + grant.count
    {
      var p := PlaceOf(world.callbacks, c);
    }
  }

  /** Two callbacks of a run with exact scans differ in job or nonce. */
  lemma CallbacksDiffer(world: World, kinds: seq<ScanKind>, a: nat, b: nat)
    requires Allocated(world) && Logged(world) && Made(world, kinds)
    requires forall g :: 0 <= g < |kinds| ==> Exact(kinds[g], world.grants[g].count)
    requires a < b < |world.callbacks|
    ensures CallbackKeys(world.callbacks)[a] != CallbackKeys(world.callbacks)[b]
  {
    hide Made, Exact, Keys, TotalFor, Tiled;
    var g, h := world.callbacks[a].grant, world.callbacks[b].grant;
    GrantsFit(world.grants, g);
    GrantsFit(world.grants, h);
    KindsFit(world, kinds);
    GrantCallbacks(world, kinds, g);
    GrantCallbacks(world, kinds, h);
    if g == h {
      SameGrantDiffers(world.callbacks, a, b);
    } else if world.callbacks[a].sequence == world.callbacks[b].sequence {
      if g < h {
        GrantsDisjoint(world.grants, g, h);
      } else {
        GrantsDisjoint(world.grants, h, g);
      }
    }
  }

  lemma KindsFit(world: World, kinds: seq<ScanKind>)
    requires Made(world, kinds)
    ensures |kinds| == |world.grants|
  {
    hide MadeFor;
  }

  /** In every run whose scans are CPU scans or launches that do not wrap and fit the buffer, no share comes twice. */
  lemma NoShareTwice(threads: nat, devices: nat, events: seq<Event>, kinds: seq<ScanKind>)
    requires |events| < U64_LIMIT && Made(Run(threads, devices, events), kinds)
    requires forall g :: 0 <= g < |kinds| ==> Exact(kinds[g], Run(threads, devices, events).grants[g].count)
    ensures SharesDiffer(Run(threads, devices, events))
  {
    hide Run, Made, Exact, Numbered, AllFresh, SharesSound, Allocated, RolledOnce, Accounted, Keys, CallbackKeys;
    var world := Run(threads, devices, events);
    RunKeepsInvariant(threads, devices, events);
    KindsFit(world, kinds);
    var keys, all := Keys(world.popped + world.m.shares), CallbackKeys(world.callbacks);
    KeyCount(world);
    forall a, b | 0 <= a < b < |all|
      ensures all[a] != all[b]
    {
      CallbacksDiffer(world, kinds, a, b);
    }
    forall i, j | 0 <= i < j < |keys|
      ensures keys[i] != keys[j]
    {
      if keys[i] == keys[j] {
        Twice(keys, i, j);
        AtMostOnce(all, keys[i]);
      }
    }
  }

  lemma KeyCount(world: World)
    ensures |CallbackKeys(world.callbacks)| == |world.callbacks|
  {
  }

  // A launch that wraps makes a share twice

  predicate Solved(job: Job, nonce: U32) {
    WordsMeet(NonceHash(MidstateOf(job.header), TailOf(job.header), nonce), LoadTarget(job.target))
  }

  function HitOf(job: Job, nonce: U32): Match {
    Match(nonce, NonceHash(MidstateOf(job.header), TailOf(job.header), nonce))
  }

  function ShareFor(job: Job, nonce: U32): Share {
    ShareOf(Activated(job, 1).publicJob, nonce, WordsToBytes(HitOf(job, nonce).words))
  }

  lemma SolvedHits(job: Job, nonce: U32)
    requires Solved(job, nonce)
    ensures MatchOf(MidstateOf(job.header), TailOf(job.header), LoadTarget(job.target), nonce) == [HitOf(job, nonce)]
  {
    hide MidstateOf, TailOf, LoadTarget, NonceHash, WordsMeet;
  }

  /** Two threads and a device mine that job, and nothing was stopped, paused or popped. */
  ghost predicate Mining(job: Job, world: World, nextNonce: nat) {
    && !world.m.stop && !world.m.paused && world.m.pauseEpoch == 0 && world.m.job == Activated(job, 1)
    && world.m.nextNonce == nextNonce && |world.workers| == 3
    && world.jobs == [job] && world.popped == [] && |world.m.shares| <= |world.callbacks|
  }

  ghost predicate Holds(job: Job, world: World, who: nat, grant: nat) {
    who < |world.workers| && world.workers[who].Holding?
    && world.workers[who].grant == grant && world.workers[who].range.job == Activated(job, 1)
  }

  lemma FirstJob(job: Job)
    ensures var world := Next(Start(2, 1), NewJob(job));
            Mining(job, world, 0) && world.workers == [Idle, Idle, Idle]
            && world.grants == [] && world.callbacks == [] && world.m.shares == []
  {
    hide MidstateOf, TailOf, LoadTarget;
    assert Wrap64(1) == 1;
  }

  ghost predicate Fetched(job: Job, world: World, next: World, who: nat, nextNonce: U32, count: U32) {
    && Mining(job, next, nextNonce + count) && Holds(job, next, who, |world.grants|)
    && next.grants == world.grants + [Grant(1, nextNonce, count)]
    && next.callbacks == world.callbacks && next.m.shares == world.m.shares
    && |next.workers| == |world.workers|
    && forall other :: 0 <= other < |world.workers| && other != who ==> next.workers[other] == world.workers[other]
  }

  lemma FetchMore(job: Job, world: World, who: nat, nextNonce: U32, batchSize: U32)
    requires Mining(job, world, nextNonce) && who < 3 && world.workers[who].Idle?
    requires 0 < batchSize && nextNonce + batchSize <= U32_LIMIT
    ensures Fetched(job, world, Next(world, Fetch(who, batchSize)), who, nextNonce, batchSize)
  {
    hide MidstateOf, TailOf, LoadTarget;
  }

  lemma ReportOne(job: Job, world: World, who: nat, nextNonce: nat, grant: nat, nonce: U32)
    requires Mining(job, world, nextNonce) && Holds(job, world, who, grant) && Solved(job, nonce)
    requires |world.callbacks| < SHARE_QUEUE_SIZE
    ensures var next := Next(world, Report(who, HitOf(job, nonce)));
            && Mining(job, next, nextNonce) && next.workers == world.workers && next.grants == world.grants
            && next.callbacks == world.callbacks + [Callback(grant, 1, HitOf(job, nonce))]
            && next.m.shares == world.m.shares + [ShareFor(job, nonce)]
  {
    hide MidstateOf, TailOf, LoadTarget, NonceHash, WordsToBytes, MatchOf, Solved;
    SolvedHits(job, nonce);
  }

  lemma RunOne(threads: nat, devices: nat, events: seq<Event>, e: Event)
    ensures Run(threads, devices, events + [e]) == Next(Run(threads, devices, events), e)
  {
    hide Next, Start;
    assert (events + [e])[..|events|] == events;
  }

  lemma RunNone(threads: nat, devices: nat)
    ensures Run(threads, devices, []) == Start(threads, devices)
  {
  }

  lemma OneMoreCallback(callbacks: seq<Callback>, c: Callback, g: nat)
    ensures CallbacksOf(callbacks + [c], g) ==
            if c.grant == g then CallbacksOf(callbacks, g) + [c.hit] else CallbacksOf(callbacks, g)
  {
    assert (callbacks + [c])[..|callbacks|] == callbacks;
  }

  /** More than `n` offsets either repeat one or leave the range. */
  lemma RepeatsOrLeaves(offsets: seq<U32>, n: nat)
    requires |offsets| > n
    ensures (exists i: nat, j: nat :: i < j < |offsets| && offsets[i] == offsets[j]) || exists o <- offsets :: o >= n
  {
    if forall o <- offsets :: o < n {
      var picks := seq(|offsets|, i requires 0 <= i < |offsets| => offsets[i] as nat);
      var range := seq(n, i => i);
      forall i | 0 <= i < |picks|
        ensures picks[i] < n
      {
        assert offsets[i] in offsets;
      }
      if Results.Distinct(picks) {
        Results.PickDistinct(range, picks);
      } else {
        var i, j :| 0 <= i < j < |picks| && picks[i] == picks[j];
        assert offsets[i] == offsets[j];
      }
    }
  }

  /** The device reports a hit twice. */
  lemma TwiceInOneLaunch(job: Job, launch: ScanKind, n: U32, o: U32) returns (events: seq<Event>, kinds: seq<ScanKind>)
    requires n > 0 && launch.Launched? && Solved(job, o)
    requires Makes(launch, job, 0, n, [HitOf(job, o), HitOf(job, o)])
    ensures |events| < U64_LIMIT && Made(Run(2, 1, events), kinds) && !SharesDiffer(Run(2, 1, events))
    ensures OnlyLaunch(Run(2, 1, events), kinds, launch, n) && Run(2, 1, events).jobs == [job]
  {
    hide Next, Makes, Mining, Holds, HitOf, ShareFor, Solved;
    var before := DeviceLeaves(job, n, o);
    var again := Report(2, HitOf(job, o));
    events, kinds := before + [again], [launch];
    RunOne(2, 1, before, again);
    ReportOne(job, Run(2, 1, before), 2, n, 0, o);
    var world, c := Run(2, 1, events), Callback(0, 1, HitOf(job, o));
    assert world.callbacks == [] + [c] + [c];
    OneMoreCallback([], c, 0);
    OneMoreCallback([] + [c], c, 0);
    assert CallbacksOf(world.callbacks, 0) == [HitOf(job, o), HitOf(job, o)];
    MiningJobs(job, world, n);
    assert MadeFor(world, kinds[0], 0);
    SameShareTwice(job, world, n, o);
  }

  /** The device reports a nonce outside its range, and a thread scans that nonce as its own. */
  lemma TwiceAcrossScans(job: Job, launch: ScanKind, n: U32, o: U32) returns (events: seq<Event>, kinds: seq<ScanKind>)
    requires n > 0 && launch.Launched? && Solved(job, o) && n <= o && Makes(launch, job, 0, n, [HitOf(job, o)])
    ensures |events| < U64_LIMIT && Made(Run(2, 1, events), kinds) && !SharesDiffer(Run(2, 1, events))
    ensures OnlyLaunch(Run(2, 1, events), kinds, launch, n) && Run(2, 1, events).jobs == [job]
  {
    hide Next, Makes, Mining, Holds, Fetched, HitOf, ShareFor, Solved, Made, MadeFor, CallbacksOf, OnlyLaunch;
    var launched: seq<Event>;
    launched := DeviceLeaves(job, n, o);
    var world := Run(2, 1, launched);
    var gap: seq<Event> := if o > n then [Fetch(0, o - n)] else [];
    var reached := launched + gap;
    if o > n {
      RunOne(2, 1, launched, Fetch(0, o - n));
      FetchMore(job, world, 0, n, o - n);
    } else {
      assert reached == launched;
    }
    FetchedParts(job, world, Run(2, 1, reached), 0, n, o - n, o > n);
    var at := Run(2, 1, reached);
    RunOne(2, 1, reached, Fetch(1, 1));
    FetchMore(job, at, 1, o, 1);
    FetchedParts(job, at, Run(2, 1, reached + [Fetch(1, 1)]), 1, o, 1, true);
    var last := Report(1, HitOf(job, o));
    RunOne(2, 1, reached + [Fetch(1, 1)], last);
    ReportOne(job, Run(2, 1, reached + [Fetch(1, 1)]), 1, o + 1, |at.grants|, o);
    events := reached + [Fetch(1, 1)] + [last];
    kinds := [launch] + (if o > n then [CpuScan] else []) + [CpuScan];
    AcrossScansMade(job, Run(2, 1, events), kinds, launch, n, o);
    SameShareTwice(job, Run(2, 1, events), o + 1, o);
    MiningJobs(job, Run(2, 1, events), o + 1);
  }

  /** The device's part: a job, a range of `n`, and a hit at `o`. */
  lemma DeviceLeaves(job: Job, n: U32, o: U32) returns (events: seq<Event>)
    requires n > 0 && Solved(job, o)
    ensures var world := Run(2, 1, events);
            && |events| == 3 && Mining(job, world, n) && world.grants == [Grant(1, 0, n)]
            && |world.workers| == 3 && world.workers[0].Idle? && world.workers[1].Idle? && Holds(job, world, 2, 0)
            && world.callbacks == [Callback(0, 1, HitOf(job, o))] && world.m.shares == [ShareFor(job, o)]
  {
    hide Next, Mining, Holds, HitOf, ShareFor, Solved;
    var fetch, report := Fetch(2, n), Report(2, HitOf(job, o));
    var first: seq<Event> := [NewJob(job)];
    events := first + [fetch] + [report];
    RunNone(2, 1);
    assert [] + [NewJob(job)] == first;
    RunOne(2, 1, [], NewJob(job));
    FirstJob(job);
    RunOne(2, 1, first, fetch);
    IdleThree(Run(2, 1, first));
    FetchMore(job, Run(2, 1, first), 2, 0, n);
    RunOne(2, 1, first + [fetch], report);
    ReportOne(job, Run(2, 1, first + [fetch]), 2, n, 0, o);
    SameHolder(job, Run(2, 1, first + [fetch]), Run(2, 1, events), 2, 0);
    MiningJobs(job, Run(2, 1, events), n);
  }

  /** What a fetch changes, whether it happened or not. */
  lemma FetchedParts(job: Job, world: World, next: World, who: nat, nextNonce: U32, count: U32, happened: bool)
    requires nextNonce + count <= U32_LIMIT && |world.workers| == 3 && who < 2
    requires if happened then Fetched(job, world, next, who, nextNonce, count)
             else next == world && count == 0 && Mining(job, world, nextNonce)
    ensures Mining(job, next, nextNonce + count) && |next.workers| == 3
    ensures next.grants == world.grants + if happened then [Grant(1, nextNonce, count)] else []
    ensures next.callbacks == world.callbacks && next.m.shares == world.m.shares
    ensures forall other :: 0 <= other < 3 && other != who ==> next.workers[other] == world.workers[other]
    ensures happened ==> Holds(job, next, who, |world.grants|)
  {
    hide Mining, Holds;
  }

  /** The three scans made what they did: the launch its stray hit, the gap nothing yet, the thread its only hit. */
  lemma AcrossScansMade(job: Job, world: World, kinds: seq<ScanKind>, launch: ScanKind, n: U32, o: U32)
    requires n > 0 && n <= o && launch.Launched? && Solved(job, o) && Makes(launch, job, 0, n, [HitOf(job, o)])
    requires Mining(job, world, o + 1)
    requires world.grants == [Grant(1, 0, n)] + (if o > n then [Grant(1, n, o - n)] else []) + [Grant(1, o, 1)]
    requires kinds == [launch] + (if o > n then [CpuScan] else []) + [CpuScan]
    requires world.callbacks ==
             [Callback(0, 1, HitOf(job, o)), Callback(|world.grants| - 1, 1, HitOf(job, o))]
    ensures Made(world, kinds) && OnlyLaunch(world, kinds, launch, n)
  {
    hide Mining, HitOf, Makes, MadeFor, CallbacksOf, Solved;
    var g := |world.grants| - 1;
    MiningJobs(job, world, o + 1);
    OwnScanMade(job, o);
    TwoCallbacks(HitOf(job, o), g, 0);
    MadeFrom(world, kinds[0], 0, [HitOf(job, o)]);
    TwoCallbacks(HitOf(job, o), g, g);
    assert world.grants[g] == Grant(1, o, 1);
    MadeFrom(world, kinds[g], g, [HitOf(job, o)]);
    if o > n {
      EmptyScanMade(job, n, o - n);
      TwoCallbacks(HitOf(job, o), g, 1);
      assert world.grants[1] == Grant(1, n, o - n);
      MadeFrom(world, kinds[1], 1, []);
    }
  }

  lemma TwoCallbacks(hit: Match, g: nat, i: nat)
    requires g > 0
    ensures CallbacksOf([Callback(0, 1, hit), Callback(g, 1, hit)], i) == if i == 0 || i == g then [hit] else []
  {
    var c0, c1 := Callback(0, 1, hit), Callback(g, 1, hit);
    assert [c0, c1] == [] + [c0] + [c1];
    OneMoreCallback([], c0, i);
    OneMoreCallback([] + [c0], c1, i);
  }

  lemma MadeFrom(world: World, kind: ScanKind, g: nat, own: seq<Match>)
    requires g < |world.grants| && |world.jobs| == 1 && world.grants[g].sequence == 1
    requires CallbacksOf(world.callbacks, g) == own
    requires Makes(kind, world.jobs[0], world.grants[g].start, world.grants[g].count, own)
    ensures MadeFor(world, kind, g)
  {
    hide Makes, CallbacksOf;
  }

  lemma OwnScanMade(job: Job, o: U32)
    requires Solved(job, o)
    ensures Makes(CpuScan, job, o, 1, [HitOf(job, o)])
  {
    hide MidstateOf, TailOf, LoadTarget, MatchOf, NonceHash, ScanMatches, Solved;
    SolvedHits(job, o);
    var mid, tail, target := MidstateOf(job.header), TailOf(job.header), LoadTarget(job.target);
    NoNonces(mid, tail, target, o);
    OneMoreNonce(mid, tail, target, o, 0);
    assert PlainScan(job, o, 1) == [HitOf(job, o)];
  }

  lemma EmptyScanMade(job: Job, start: U32, count: U32)
    ensures Makes(CpuScan, job, start, count, [])
  {
    hide PlainScan;
    assert PlainScan(job, start, count)[..0] == [];
  }

  lemma IdleThree(world: World)
    requires world.workers == [Idle, Idle, Idle]
    ensures forall who :: 0 <= who < 3 ==> world.workers[who].Idle?
  {
  }

  lemma SameHolder(job: Job, a: World, b: World, who: nat, grant: nat)
    requires Holds(job, a, who, grant) && a.workers == b.workers
    ensures Holds(job, b, who, grant)
  {
  }

  lemma MiningJobs(job: Job, world: World, nextNonce: nat)
    requires Mining(job, world, nextNonce)
    ensures world.jobs == [job] && world.popped == [] && |world.workers| == 3
  {
  }

  lemma SameShareTwice(job: Job, world: World, nextNonce: nat, o: U32)
    requires Mining(job, world, nextNonce) && world.m.shares == [ShareFor(job, o), ShareFor(job, o)]
    ensures !SharesDiffer(world)
  {
    hide ShareFor;
    assert world.popped + world.m.shares == [ShareFor(job, o), ShareFor(job, o)];
    var keys := Keys(world.popped + world.m.shares);
    assert keys[0] == keys[1];
  }

  /** Every scan of the run is a CPU scan, or this launch over `n` nonces. */
  ghost predicate OnlyLaunch(world: World, kinds: seq<ScanKind>, launch: ScanKind, n: U32) {
    |kinds| == |world.grants| && forall g :: 0 <= g < |kinds| ==>
      kinds[g] == CpuScan || (kinds[g] == launch && world.grants[g].count == n)
  }

  // When a launch can do that

  ghost predicate Repeats(offsets: seq<U32>, o: U32) {
    exists i: nat, j: nat :: i < j < |offsets| && offsets[i] == o == offsets[j]
  }

  /** A launch over `n` nonces can report offset `o` twice, or can report it although it is not in the range. */
  ghost predicate Stray(launch: ScanKind, n: U32, o: U32)
    requires launch.Launched? && launch.npi > 0
  {
    var offsets := Scanned(launch.kernel, n, launch.npi, GlobalSize(n, launch.npi, launch.local));
    || (launch.maxResults >= 2 && Repeats(offsets, o))
    || (launch.maxResults >= 1 && o >= n && o in offsets)
  }

  lemma RepeatMade(job: Job, launch: ScanKind, n: U32, o: U32)
    requires launch.Launched? && launch.npi > 0 && Serves(launch.kernel, launch.npi) && launch.maxResults >= 2
    requires Solved(job, o) && HitsFit(launch, job, 0, n)
    requires Repeats(Scanned(launch.kernel, n, launch.npi, GlobalSize(n, launch.npi, launch.local)), o)
    ensures Makes(launch, job, 0, n, [HitOf(job, o), HitOf(job, o)])
  {
    hide MidstateOf, TailOf, LoadTarget, MatchOf, NonceHash, Scanned, GlobalSize, Solved, HitOf, Orders.MayDeliver;
    hide Results.MatchesAt;
    var mid, tail, target := MidstateOf(job.header), TailOf(job.header), LoadTarget(job.target);
    var offsets := Scanned(launch.kernel, n, launch.npi, GlobalSize(n, launch.npi, launch.local));
    var i: nat, j: nat :| i < j < |offsets| && offsets[i] == o == offsets[j];
    SolvedHits(job, o);
    var p, q := Results.TwoPlaces(mid, tail, target, 0, offsets, i, j);
    var hits := LaunchHits(launch.kernel, launch.npi, launch.local, job, 0, n);
    var picks: seq<nat> := [p, q];
    Orders.AnyMayComeFirst(hits, launch.maxResults, picks);
    assert Results.Picked(hits, picks) == [HitOf(job, o), HitOf(job, o)];
  }

  lemma OffsetMade(job: Job, launch: ScanKind, n: U32, o: U32)
    requires launch.Launched? && launch.npi > 0 && Serves(launch.kernel, launch.npi) && launch.maxResults >= 1
    requires Solved(job, o) && HitsFit(launch, job, 0, n)
    requires o in Scanned(launch.kernel, n, launch.npi, GlobalSize(n, launch.npi, launch.local))
    ensures Makes(launch, job, 0, n, [HitOf(job, o)])
  {
    hide MidstateOf, TailOf, LoadTarget, MatchOf, NonceHash, Scanned, GlobalSize, Solved, HitOf, Orders.MayDeliver;
    hide Results.MatchesAt;
    var mid, tail, target := MidstateOf(job.header), TailOf(job.header), LoadTarget(job.target);
    var offsets := Scanned(launch.kernel, n, launch.npi, GlobalSize(n, launch.npi, launch.local));
    var i :| 0 <= i < |offsets| && offsets[i] == o;
    SolvedHits(job, o);
    var p, _ := Results.TwoPlaces(mid, tail, target, 0, offsets, i, i);
    var hits := LaunchHits(launch.kernel, launch.npi, launch.local, job, 0, n);
    var picks: seq<nat> := [p];
    Orders.AnyMayComeFirst(hits, launch.maxResults, picks);
    assert Results.Picked(hits, picks) == [HitOf(job, o)];
  }

  /** For any job and any launch: when a nonce the launch scans twice or outside its range solves the job, some run
      with that job, that launch and CPU scans makes a share twice. */
  lemma ShareTwice(job: Job, launch: ScanKind, n: U32, o: U32) returns (events: seq<Event>, kinds: seq<ScanKind>)
    requires n > 0 && launch.Launched? && launch.npi > 0 && Serves(launch.kernel, launch.npi)
    requires Stray(launch, n, o) && Solved(job, o) && HitsFit(launch, job, 0, n)
    ensures |events| < U64_LIMIT && Made(Run(2, 1, events), kinds) && !SharesDiffer(Run(2, 1, events))
    ensures OnlyLaunch(Run(2, 1, events), kinds, launch, n) && Run(2, 1, events).jobs == [job]
  {
    hide Scanned, GlobalSize, Repeats, Solved, HitsFit, Makes, Run, Made, SharesDiffer, OnlyLaunch, HitOf;
    var offsets := Scanned(launch.kernel, n, launch.npi, GlobalSize(n, launch.npi, launch.local));
    if launch.maxResults >= 2 && Repeats(offsets, o) {
      RepeatMade(job, launch, n, o);
      events, kinds := TwiceInOneLaunch(job, launch, n, o);
    } else {
      OffsetMade(job, launch, n, o);
      events, kinds := TwiceAcrossScans(job, launch, n, o);
    }
  }

  /** In a run of CPU scans and this launch over `n` nonces no share comes twice. */
  ghost predicate NeverTwice(launch: ScanKind, n: U32) {
    forall threads: nat, devices: nat, events: seq<Event>, kinds: seq<ScanKind> ::
      |events| < U64_LIMIT && Made(Run(threads, devices, events), kinds)
      && OnlyLaunch(Run(threads, devices, events), kinds, launch, n)
      ==> SharesDiffer(Run(threads, devices, events))
  }

  /** A job that every nonce solves. */
  function AnyJob(header: Header): Job { Job(0, "", "", "", header, seq(32, _ => 0xff)) }

  lemma AnyTarget(header: Header)
    ensures LoadTarget(AnyJob(header).target) == Results.ANY_HASH
  {
    assert LoadLe32([0xff, 0xff, 0xff, 0xff]) == 0xffffffff;
    forall i | 0 <= i < 8
      ensures LoadTarget(AnyJob(header).target)[i] == 0xffffffff
    {
      assert AnyJob(header).target[4 * i..4 * i + 4] == [0xff, 0xff, 0xff, 0xff];
    }
  }

  lemma AnyNonceSolves(header: Header, nonce: U32)
    ensures Solved(AnyJob(header), nonce)
  {
    hide MidstateOf, TailOf, LoadTarget, NonceHash;
    AnyTarget(header);
    Results.EveryHashMeets(MidstateOf(header), TailOf(header), nonce);
  }

  /** The rows a launch could store are within reach of counter and index, whatever it is that solves. */
  ghost predicate AlwaysFits(kernel: Kernel, npi: U32, local: U32, maxResults: U32, n: U32)
    requires npi > 0
  {
    var scanned := |Scanned(kernel, n, npi, GlobalSize(n, npi, local))|;
    scanned < U32_LIMIT && 9 * Min(scanned, maxResults) <= U32_LIMIT
  }

  lemma FitsEveryJob(kernel: Kernel, npi: U32, local: U32, maxResults: U32, n: U32, job: Job)
    requires npi > 0 && AlwaysFits(kernel, npi, local, maxResults, n)
    ensures HitsFit(Launched(kernel, npi, local, maxResults), job, 0, n)
  {
    hide MidstateOf, TailOf, LoadTarget, Results.MatchesAt, Scanned, GlobalSize;
    Results.AtMostOneMatchEach(MidstateOf(job.header), TailOf(job.header), LoadTarget(job.target), 0,
                               Scanned(kernel, n, npi, GlobalSize(n, npi, local)));
  }

  /** A launch that wraps and scans fewer than 2^32 offsets scans one of its range twice. */
  lemma WrapRepeats(kernel: Kernel, npi: U32, local: U32, n: U32) returns (o: U32)
    requires n > 0 && npi > 0 && Serves(kernel, npi) && !NoWrap(kernel, n, npi, GlobalSize(n, npi, local))
    requires |Scanned(kernel, n, npi, GlobalSize(n, npi, local))| < U32_LIMIT
    ensures Repeats(Scanned(kernel, n, npi, GlobalSize(n, npi, local)), o)
  {
    hide Scanned, GlobalSize, NoWrap;
    var offsets := Scanned(kernel, n, npi, GlobalSize(n, npi, local));
    LaunchOverruns(kernel, n, npi, local);
    FewStayInside(kernel, n, npi, local);
    RepeatsOrLeaves(offsets, n);
    var i: nat, j: nat :| i < j < |offsets| && offsets[i] == offsets[j];
    o := offsets[i];
  }

  /** No share comes twice, whatever the jobs and in any run of CPU scans and a launch, if and only if the launch does
      not wrap or can report only one match. */
  lemma NoShareTwiceIff(kernel: Kernel, npi: U32, local: U32, maxResults: U32, n: U32)
    requires n > 0 && npi > 0 && Serves(kernel, npi) && AlwaysFits(kernel, npi, local, maxResults, n)
    ensures NeverTwice(Launched(kernel, npi, local, maxResults), n)
       <==> NoWrap(kernel, n, npi, GlobalSize(n, npi, local)) || maxResults <= 1
  {
    hide GlobalSize, NoWrap, Run, Made, SharesDiffer, Scanned, HitsFit, Solved;
    var launch := Launched(kernel, npi, local, maxResults);
    if NoWrap(kernel, n, npi, GlobalSize(n, npi, local)) || maxResults <= 1 {
      if NoWrap(kernel, n, npi, GlobalSize(n, npi, local)) {
        Results.LaunchScansRange(kernel, n, npi, local);
      }
      forall threads: nat, devices: nat, events: seq<Event>, kinds: seq<ScanKind> |
        |events| < U64_LIMIT && Made(Run(threads, devices, events), kinds)
        && OnlyLaunch(Run(threads, devices, events), kinds, launch, n)
        ensures SharesDiffer(Run(threads, devices, events))
      {
        NoShareTwice(threads, devices, events, kinds);
      }
    } else {
      var o := WrapRepeats(kernel, npi, local, n);
      AnyNonceSolves(Zeros(80), o);
      FitsEveryJob(kernel, npi, local, maxResults, n, AnyJob(Zeros(80)));
      var events, kinds := ShareTwice(AnyJob(Zeros(80)), launch, n, o);
    }
  }

  /** The default buffer and one nonce to an item, in work groups of 100: a batch of 4294967201 nonces makes a share
      twice, one of 4294967200 does not. */
  lemma OneNonceMoreWraps()
    ensures !NeverTwice(Launched(Npi1, 1, 100, 256), 4294967201) && NeverTwice(Launched(Npi1, 1, 100, 256), 4294967200)
  {
    hide NeverTwice, GlobalSize, Scanned;
    FirstFourAgain();
    NoShareTwiceIff(Npi1, 1, 100, 256, 4294967201);
    WholeGroups();
    Results.LaunchScansRange(Npi1, 4294967200, 1, 100);
    NoShareTwiceIff(Npi1, 1, 100, 256, 4294967200);
  }

  lemma WholeGroups()
    ensures NoWrap(Npi1, 4294967200, 1, GlobalSize(4294967200, 1, 100))
  {
    assert 4294967200 % 100 == 0;
  }

  /** A batch of 2^32 - 1 nonces with 64 to an item, which the configuration accepts, makes a share twice for every job
      that nonce 2^32 - 1 solves and whose hits fit the counter. */
  lemma LastNonceTwice(job: Job, local: U32, maxResults: U32) returns (events: seq<Event>, kinds: seq<ScanKind>)
    requires maxResults >= 1 && Solved(job, 4294967295)
    requires HitsFit(Launched(General, 64, local, maxResults), job, 0, 4294967295)
    ensures |events| < U64_LIMIT && Made(Run(2, 1, events), kinds) && !SharesDiffer(Run(2, 1, events))
    ensures OnlyLaunch(Run(2, 1, events), kinds, Launched(General, 64, local, maxResults), 4294967295)
    ensures Run(2, 1, events).jobs == [job]
  {
    hide GlobalSize, Scanned, HitsFit, Solved, Run, Made, SharesDiffer, OnlyLaunch;
    LastItemLeavesRange(local);
    events, kinds := ShareTwice(job, Launched(General, 64, local, maxResults), 4294967295, 4294967295);
  }
}
