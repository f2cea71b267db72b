/**
 A whole connection: pool messages, extranonce rolling and the miner's critical sections in any order. The session is
 the only one to set jobs and to take exhaustion; the miner's world is the run of the events so far. Between taking
 the flag and installing the next job the session handles no message, but the workers go on.
 */
module SessionRun {
  import opened Words
  import opened Sha256
  import opened Sha256d
  import opened Targets
  import opened Difficulty
  import opened Scan
  import opened Hex
  import opened JobBuilder
  import opened MinerState
  import opened MinerRun
  import opened Session

  datatype Step = Receive(message: Message) | Work(event: Event) | TakeFlag | RollNow(undefinedCast: U32)

  /** What the pool last sent of each thing, as it sent it. */
  datatype Sent = Sent(t: Option<Template>, extranonce1: string, size: int, difficulty: real)

  const NOTHING_SENT: Sent := Sent(None, "", 4, 1.0)

  function Told(sent: Sent, message: Message): Sent {
    match message
    case Subscription(extranonce1, size) => ToldExtranonce(sent, extranonce1, size)
    case NewDifficulty(value, _) => sent.(difficulty := value)
    case NewExtranonce(extranonce1, size, _) => ToldExtranonce(sent, extranonce1, size)
    case Notification(t, _) => sent.(t := Some(t))
    case Roll(_) => sent
  }

  function ToldExtranonce(sent: Sent, extranonce1: Option<string>, size: Option<int>): Sent {
    sent.(extranonce1 := if extranonce1.Some? then extranonce1.value else sent.extranonce1,
          size := if size.Some? then size.value else sent.size)
  }

  /** What the pool had sent when a job was installed. */
  datatype Origin = Origin(t: Template, extranonce1: string, size: int, difficulty: real, undefinedCast: U32)

  /** `rolling` is the flag `maybe_roll_extranonce` took; `origins` records where each job came from. */
  datatype Node = Node(session: SessionState, events: seq<Event>, rolling: bool, sent: Sent, origins: seq<Origin>)

  function WithJob(events: seq<Event>, job: Option<Job>): seq<Event> {
    if job.Some? then events + [NewJob(job.value)] else events
  }

  /** The session after it handled something, and the job it installed, if it did. */
  ghost function Handled(n: Node, message: Message, undefinedCast: U32): Node {
    var handled, sent := Handle(n.session, message), Told(n.sent, message);
    Node(handled.0, WithJob(n.events, handled.1), false, sent,
         if handled.1.Some? && sent.t.Some?
         then n.origins + [Origin(sent.t.value, sent.extranonce1, sent.size, sent.difficulty, undefinedCast)]
         else n.origins)
  }

  function CastOf(message: Message): U32 { if message.Subscription? then 0 else message.undefinedCast }

  ghost function After(threads: nat, devices: nat, n: Node, step: Step): Node {
    match step
    case Receive(message) => if message.Roll? || n.rolling then n else Handled(n, message, CastOf(message))
    case Work(event) => if event.NewJob? || event.TakeExhausted? then n else n.(events := n.events + [event])
    case TakeFlag =>
      if n.rolling then n
      else n.(events := n.events + [TakeExhausted], rolling := Run(threads, devices, n.events).m.nonceExhausted)
    case RollNow(undefinedCast) => if n.rolling then Handled(n, Roll(undefinedCast), undefinedCast) else n
  }

  ghost function Connection(threads: nat, devices: nat, steps: seq<Step>): Node {
    if |steps| == 0 then Node(FRESH, [], false, NOTHING_SENT, [])
    else After(threads, devices, Connection(threads, devices, steps[..|steps| - 1]), steps[|steps| - 1])
  }

  function JobsOf(events: seq<Event>): seq<Job> {
    if |events| == 0 then []
    else JobsOf(events[..|events| - 1]) + if events[|events| - 1].NewJob? then [events[|events| - 1].job] else []
  }

  lemma {:induction false} RunJobs(threads: nat, devices: nat, events: seq<Event>)
    ensures Run(threads, devices, events).jobs == JobsOf(events)
  {
    hide Hits;
    if |events| > 0 {
      RunJobs(threads, devices, events[..|events| - 1]);
    }
  }

  lemma JobsOfJoined(events: seq<Event>, event: Event)
    ensures JobsOf(events + [event]) == if event.NewJob? then JobsOf(events) + [event.job] else JobsOf(events)
  {
    assert (events + [event])[..|events|] == events;
  }

  /** A rebuild that installs a job prints the counter into it, and no later one will print it again. */
  lemma RebuildUsesCounter(s: SessionState, undefinedCast: U32)
    requires s.counter + 1 < U64_LIMIT
    ensures var after := Rebuilt(s, undefinedCast);
            && s.counter <= after.0.counter <= s.counter + 1
            && (after.1.Some? ==> after.0.counter == s.counter + 1 && Number(after.1.value.extranonce2) == s.counter)
  {
    hide Buildable, Padded, Number, HeaderOf;
    ExtranonceEmptyIff(s.size, s.counter);
    if 0 < s.size <= 15 {
      ExtranonceIsNotCut(s.size, s.counter);
      PaddedReadsBack(s.counter, s.size * 2);
    }
  }

  lemma HandleUsesCounter(s: SessionState, message: Message)
    requires s.counter + 1 < U64_LIMIT
    ensures var after := Handle(s, message);
            && s.counter <= after.0.counter <= s.counter + 1
            && (after.1.Some? ==> after.0.counter == s.counter + 1 && Number(after.1.value.extranonce2) == s.counter)
  {
    hide Rebuilt, Number;
    match message
    case Subscription(_, _) =>
    case NewDifficulty(value, undefinedCast) => RebuildUsesCounter(s.(difficulty := value), undefinedCast);
    case NewExtranonce(extranonce1, size, undefinedCast) =>
      RebuildUsesCounter(WithExtranonce(s, extranonce1, size), undefinedCast);
    case Notification(t, undefinedCast) => RebuildUsesCounter(WithTemplate(s, t), undefinedCast);
    case Roll(undefinedCast) => RebuildUsesCounter(s, undefinedCast);
  }

  /** The jobs' extranonces are increasing numbers below the counter. */
  ghost predicate Increasing(jobs: seq<Job>, counter: nat) {
    && (forall i :: 0 <= i < |jobs| ==> Number(jobs[i].extranonce2) < counter)
    && (forall i, j :: 0 <= i < j < |jobs| ==> Number(jobs[i].extranonce2) < Number(jobs[j].extranonce2))
  }

  lemma IncreasingJoined(events: seq<Event>, counter: nat, job: Option<Job>, next: nat)
    requires Increasing(JobsOf(events), counter) && counter <= next
    requires job.Some? ==> next == counter + 1 && Number(job.value.extranonce2) == counter
    ensures Increasing(JobsOf(WithJob(events, job)), next)
  {
    hide Number, JobsOf;
    if job.Some? {
      JobsOfJoined(events, NewJob(job.value));
    }
  }

  lemma {:induction false} ConnectionIncreasing(threads: nat, devices: nat, steps: seq<Step>)
    requires |steps| < U64_LIMIT / 2
    ensures var n := Connection(threads, devices, steps);
            n.session.counter <= 1 + |steps| && |n.events| <= 2 * |steps|
            && Increasing(JobsOf(n.events), n.session.counter)
  {
    hide JobsOf, Handle, Run, Number, Increasing;
    if |steps| == 0 {
      NoJobs();
    } else {
      var before, step := Connection(threads, devices, steps[..|steps| - 1]), steps[|steps| - 1];
      ConnectionIncreasing(threads, devices, steps[..|steps| - 1]);
      match step
      case Receive(message) => HandledIncreasing(before, message);
      case Work(event) => JobsOfJoined(before.events, event);
      case TakeFlag => JobsOfJoined(before.events, TakeExhausted);
      case RollNow(undefinedCast) => HandledIncreasing(before, Roll(undefinedCast));
    }
  }

  lemma HandledIncreasing(n: Node, message: Message)
    requires n.session.counter + 1 < U64_LIMIT && Increasing(JobsOf(n.events), n.session.counter)
    ensures var next := Handled(n, message, CastOf(message));
            next.session.counter <= n.session.counter + 1 && |next.events| <= |n.events| + 1
            && Increasing(JobsOf(next.events), next.session.counter)
  {
    hide JobsOf, Handle, Number, Increasing;
    var handled := Handle(n.session, message);
    HandleUsesCounter(n.session, message);
    IncreasingJoined(n.events, n.session.counter, handled.1, handled.0.counter);
  }

  lemma NoJobs()
    ensures Increasing(JobsOf([]), FRESH.counter)
  {
  }

  ghost predicate Covers(grant: Grant, nonce: nat) { grant.start <= nonce < grant.start + grant.count }

  /** No work is repeated: two grants of one connection that cover the same nonce are for jobs with different
      extranonce2 texts, whatever sizes the pool asked for. */
  lemma NoWorkTwice(threads: nat, devices: nat, steps: seq<Step>, i: nat, j: nat, nonce: nat)
    requires |steps| < U64_LIMIT / 2
    requires var world := Run(threads, devices, Connection(threads, devices, steps).events);
             i < j < |world.grants| && Covers(world.grants[i], nonce) && Covers(world.grants[j], nonce)
    ensures var world := Run(threads, devices, Connection(threads, devices, steps).events);
            var a, b := world.grants[i].sequence, world.grants[j].sequence;
            && 1 <= a <= |world.jobs| && 1 <= b <= |world.jobs| && a != b
            && world.jobs[a - 1].extranonce2 != world.jobs[b - 1].extranonce2
  {
    hide Run, Connection, Number, JobsOf, Numbered, AllFresh, SharesSound, Logged, RolledOnce, Accounted,
         TotalFor, Tiled, Granted;
    var events := Connection(threads, devices, steps).events;
    var world := Run(threads, devices, events);
    ConnectionIncreasing(threads, devices, steps);
    RunJobs(threads, devices, events);
    RunKeepsInvariant(threads, devices, events);
    RangesTile(threads, devices, events);
    var a, b := world.grants[i].sequence, world.grants[j].sequence;
    if a < b {
      assert Number(world.jobs[a - 1].extranonce2) < Number(world.jobs[b - 1].extranonce2);
    } else if b < a {
      assert Number(world.jobs[b - 1].extranonce2) < Number(world.jobs[a - 1].extranonce2);
    }
  }

  // What the pool reconstructs

  /** What is left of the template in the session's buffers. */
  function Kept(t: Template): Template { t.(merkle := if |t.merkle| > 128 then t.merkle[..128] else t.merkle) }

  /** And of the extranonce1. */
  function Cut(text: string): string { if |text| > 127 then text[..127] else text }

  /** Every field fits its buffer. */
  ghost predicate Fits(t: Template) {
    && |t.jobId| <= 127 && |t.prevhash| <= 64 && |t.coinb1| <= 16383 && |t.coinb2| <= 16383
    && |t.version| <= 8 && |t.nbits| <= 8 && |t.ntime| <= 8
    && forall i :: 0 <= i < |Kept(t).merkle| ==> |Kept(t).merkle[i]| <= 64
  }

  /** The session holds what the pool sent, as far as its buffers allow. */
  ghost predicate Mirrors(s: SessionState, sent: Sent) {
    && s.extranonce1 == Cut(sent.extranonce1) && s.size == sent.size && s.difficulty == sent.difficulty
    && s.template == if sent.t.Some? && Fits(sent.t.value) then Some(Kept(sent.t.value)) else None
  }

  /** The text of a counter in `size` bytes, or in more where it does not fit them. */
  ghost predicate CounterText(text: string, size: int) {
    0 < size <= 15 && 0 <= Number(text) < U64_LIMIT && text == FormatExtranonce2(32, size, Number(text))
  }

  ghost predicate BuiltFrom(job: Job, t: Template, extranonce1: string, difficulty: real, undefinedCast: U32) {
    && Buildable(t, extranonce1, job.extranonce2)
    && job == JobOf(t, extranonce1, job.extranonce2, difficulty, undefinedCast)
  }

  /** The job is made of what the pool had sent, and its extranonce2 is the text of a counter. */
  ghost predicate FromOrigin(job: Job, o: Origin) {
    && BuiltFrom(job, Kept(o.t), Cut(o.extranonce1), o.difficulty, o.undefinedCast)
    && CounterText(job.extranonce2, o.size)
  }

  ghost predicate FromOrigins(jobs: seq<Job>, origins: seq<Origin>) {
    |jobs| == |origins| && forall k :: 0 <= k < |jobs| ==> FromOrigin(jobs[k], origins[k])
  }

  lemma RebuildKeepsOrigin(s: SessionState, sent: Sent, undefinedCast: U32)
    requires Mirrors(s, sent)
    ensures var after := Rebuilt(s, undefinedCast);
            && Mirrors(after.0, sent)
            && (after.1.Some? ==>
                  sent.t.Some?
                  && FromOrigin(after.1.value,
                                Origin(sent.t.value, sent.extranonce1, sent.size, sent.difficulty, undefinedCast)))
  {
    hide Buildable, JobOf, FormatExtranonce2, Padded, Number, Wrap64;
    ExtranonceEmptyIff(s.size, s.counter);
    if 0 < s.size <= 15 {
      ExtranonceIsNotCut(s.size, s.counter);
      PaddedReadsBack(s.counter, s.size * 2);
    }
    var job := Rebuilt(s, undefinedCast).1;
    if job.Some? {
      JobKeepsText(Kept(sent.t.value), s.extranonce1, FormatExtranonce2(32, s.size, s.counter), s.difficulty,
                   undefinedCast);
    }
  }

  lemma JobKeepsText(t: Template, extranonce1: string, extranonce2: string, difficulty: real, undefinedCast: U32)
    requires Buildable(t, extranonce1, extranonce2)
    ensures JobOf(t, extranonce1, extranonce2, difficulty, undefinedCast).extranonce2 == extranonce2
  {
    hide Buildable, HeaderOf, TargetNumber, BytesOf;
  }

  lemma HandleKeepsOrigin(s: SessionState, sent: Sent, message: Message)
    requires Mirrors(s, sent)
    ensures var after, told := Handle(s, message), Told(sent, message);
            && Mirrors(after.0, told)
            && (after.1.Some? ==>
                  told.t.Some?
                  && FromOrigin(after.1.value,
                                Origin(told.t.value, told.extranonce1, told.size, told.difficulty, CastOf(message))))
  {
    hide Rebuilt, FromOrigin, Storable, Fits;
    var told := Told(sent, message);
    if message.Notification? {
      StoresWhatFits(s, message.t);
    }
    match message
    case Subscription(_, _) =>
    case NewDifficulty(value, undefinedCast) => RebuildKeepsOrigin(s.(difficulty := value), told, undefinedCast);
    case NewExtranonce(extranonce1, size, undefinedCast) =>
      RebuildKeepsOrigin(WithExtranonce(s, extranonce1, size), told, undefinedCast);
    case Notification(t, undefinedCast) => RebuildKeepsOrigin(WithTemplate(s, t), told, undefinedCast);
    case Roll(undefinedCast) => RebuildKeepsOrigin(s, told, undefinedCast);
  }

  lemma StoresWhatFits(s: SessionState, t: Template)
    ensures WithTemplate(s, t).template == if Fits(t) then Some(Kept(t)) else None
  {
    if Fits(t) {
      forall branch <- FirstBranches(t.merkle)
        ensures |branch| < 65
      {
        var i :| 0 <= i < |FirstBranches(t.merkle)| && FirstBranches(t.merkle)[i] == branch;
        assert Kept(t).merkle[i] == branch;
      }
    }
    if Storable(t) {
      forall i | 0 <= i < |Kept(t).merkle|
        ensures |Kept(t).merkle[i]| <= 64
      {
        assert Kept(t).merkle[i] in FirstBranches(t.merkle);
      }
    }
  }

  ghost predicate Traced(n: Node) { Mirrors(n.session, n.sent) && FromOrigins(JobsOf(n.events), n.origins) }

  lemma HandledTraced(n: Node, message: Message)
    requires Traced(n)
    ensures Traced(Handled(n, message, CastOf(message)))
  {
    hide JobsOf, Handle, FromOrigin, Mirrors, Told;
    HandleKeepsOrigin(n.session, n.sent, message);
    var job := Handle(n.session, message).1;
    if job.Some? {
      JobsOfJoined(n.events, NewJob(job.value));
    }
  }

  lemma WorkTraced(n: Node, event: Event, rolling: bool)
    requires Traced(n) && !event.NewJob?
    ensures Traced(n.(events := n.events + [event], rolling := rolling))
  {
    hide JobsOf, FromOrigins;
    JobsOfJoined(n.events, event);
  }

  lemma {:induction false} ConnectionTraced(threads: nat, devices: nat, steps: seq<Step>)
    ensures Traced(Connection(threads, devices, steps))
  {
    hide Traced, Handled, Run;
    if |steps| == 0 {
      NothingTraced();
    } else {
      var before, step := Connection(threads, devices, steps[..|steps| - 1]), steps[|steps| - 1];
      ConnectionTraced(threads, devices, steps[..|steps| - 1]);
      match step
      case Receive(message) => HandledTraced(before, message);
      case Work(event) =>
        if !event.NewJob? {
          WorkTraced(before, event, before.rolling);
        }
      case TakeFlag => WorkTraced(before, TakeExhausted, Run(threads, devices, before.events).m.nonceExhausted);
      case RollNow(undefinedCast) => HandledTraced(before, Roll(undefinedCast));
    }
  }

  lemma NothingTraced()
    ensures Traced(Node(FRESH, [], false, NOTHING_SENT, []))
  {
  }

  /** A hash folded with branch after branch from number `i` on, as the pool goes up its tree. */
  ghost function FoldedUp(hash: seq<Byte>, merkle: seq<string>, i: nat): seq<Byte>
    requires i <= |merkle| && forall k :: 0 <= k < |merkle| ==> Decodes(merkle[k], 32)
    decreases |merkle| - i
  {
    if i == |merkle| then hash else FoldedUp(DoubleDigest(hash + Branch(merkle[i])), merkle, i + 1)
  }

  /** The header the pool puts together: the coinbase is the one whose digits are the four parts in this order, and
      version, previous hash, Merkle root, time and bits stand where the protocol has them. */
  ghost predicate PoolHeader(h: Header, t: Template, extranonce1: string, extranonce2: string) {
    && (forall i :: 0 <= i < |t.merkle| ==> Decodes(t.merkle[i], 32))
    && exists coinbase: seq<Byte>, prevhash: seq<Byte> :: PoolBlock(h, t, extranonce1, extranonce2, coinbase, prevhash)
  }

  ghost predicate PoolBlock(h: Header, t: Template, extranonce1: string, extranonce2: string, coinbase: seq<Byte>,
                            prevhash: seq<Byte>)
    requires forall i :: 0 <= i < |t.merkle| ==> Decodes(t.merkle[i], 32)
  {
    && Encoded(coinbase) == LowerText(t.coinb1 + extranonce1 + extranonce2 + t.coinb2)
    && Encoded(prevhash) == LowerText(t.prevhash)
    && LaidOut(h, t, prevhash, FoldedUp(DoubleDigest(coinbase), t.merkle, 0))
  }

  lemma {:induction false} FoldedIsRoot(coinbase: seq<Byte>, merkle: seq<string>, n: nat)
    requires n <= |merkle| && forall i :: 0 <= i < |merkle| ==> Decodes(merkle[i], 32)
    ensures FoldedUp(MerkleRoot(coinbase, merkle, n), merkle, n) == MerkleRoot(coinbase, merkle, |merkle|)
    decreases |merkle| - n
  {
    hide DoubleDigest, Branch, Decodes;
    if n < |merkle| {
      FoldedIsRoot(coinbase, merkle, n + 1);
    }
  }

  /** The header of a job is the one the pool puts together. */
  lemma HeaderIsThePools(t: Template, extranonce1: string, extranonce2: string)
    requires Buildable(t, extranonce1, extranonce2)
    ensures PoolHeader(HeaderOf(t, extranonce1, extranonce2), t, extranonce1, extranonce2)
  {
    hide DoubleDigest, Decoded, IsHex, LaidOut, HeaderOf, MerkleRoot, FoldedUp, LowerText;
    var coinbase, prevhash := CoinbaseBytes(t, extranonce1, extranonce2), Branch(t.prevhash);
    HeaderLayout(t, extranonce1, extranonce2);
    DecodedEncodes(t.prevhash);
    DecodedEncodes(CoinbaseText(t, extranonce1, extranonce2));
    StartOfRoot(coinbase, t.merkle);
    FoldedIsRoot(coinbase, t.merkle, 0);
    assert PoolBlock(HeaderOf(t, extranonce1, extranonce2), t, extranonce1, extranonce2, coinbase, prevhash);
  }

  lemma StartOfRoot(coinbase: seq<Byte>, merkle: seq<string>)
    ensures MerkleRoot(coinbase, merkle, 0) == DoubleDigest(coinbase)
  {
    hide DoubleDigest;
  }

  /** The share is a solution of the block put together from a template, an extranonce1, and the share's extranonce2,
      time and nonce; its hash is at most the target of the difficulty, both the one the code computes and the exact
      one. */
  ghost predicate SolvesBlock(share: Share, t: Template, extranonce1: string, difficulty: real, undefinedCast: U32) {
    && (exists h: Header :: PoolHeader(h, t, extranonce1, share.extranonce2)
                            && share.hash == DoubleDigest(WithNonce(h, share.nonce)))
    && share.jobId == t.jobId && share.ntime == t.ntime
    && LittleEndian(share.hash) <= TargetNumber(difficulty, undefinedCast)
    && LittleEndian(share.hash) as real <= Ideal(difficulty)
  }

  /** The pool puts the block together from what it sent, and asks for an extranonce2 of the length it gave. */
  ghost predicate PoolAccepts(share: Share, o: Origin) {
    SolvesBlock(share, o.t, o.extranonce1, o.difficulty, o.undefinedCast) && |share.extranonce2| == 2 * o.size
  }

  /** Template and extranonce1 fit the session's buffers as they came. */
  predicate SentWhole(o: Origin) { |o.t.merkle| <= 128 && |o.extranonce1| <= 127 }

  lemma AnswerSolvesBlock(share: Share, jobs: seq<Job>, origins: seq<Origin>)
    requires Answers(share, jobs) && FromOrigins(jobs, origins)
    ensures var o := origins[share.sequence - 1];
            SolvesBlock(share, Kept(o.t), Cut(o.extranonce1), o.difficulty, o.undefinedCast)
  {
    hide Buildable, HeaderOf, TargetNumber, BytesOf, DoubleDigest, WithNonce, LittleEndian, Ideal, Cut, Kept, Number,
         FormatExtranonce2, PoolHeader;
    var o := origins[share.sequence - 1];
    assert FromOrigin(jobs[share.sequence - 1], o);
    HeaderIsThePools(Kept(o.t), Cut(o.extranonce1), share.extranonce2);
    KeptStrings(o.t);
    TargetFits(o.difficulty, o.undefinedCast);
    TargetNeverExceedsIdeal(o.difficulty, o.undefinedCast);
    AtMostReal(LittleEndian(share.hash), TargetNumber(o.difficulty, o.undefinedCast), Ideal(o.difficulty));
  }

  lemma KeptStrings(t: Template)
    ensures Kept(t).jobId == t.jobId && Kept(t).ntime == t.ntime
  {
  }

  lemma AtMostReal(a: int, b: int, c: real)
    requires b as real <= c
    ensures a <= b ==> a as real <= c
  {
  }

  lemma AnswerLength(share: Share, jobs: seq<Job>, origins: seq<Origin>)
    requires Answers(share, jobs) && FromOrigins(jobs, origins)
    ensures var o := origins[share.sequence - 1];
            |share.extranonce2| == 2 * o.size <==> Number(share.extranonce2) < Pow16(2 * o.size)
  {
    hide Buildable, JobOf, Solves, Number, FormatExtranonce2, Pow16;
    var o := origins[share.sequence - 1];
    assert FromOrigin(jobs[share.sequence - 1], o);
    ExtranonceSizeIff(o.size, Number(share.extranonce2));
  }

  lemma WholeIsKept(o: Origin)
    requires SentWhole(o)
    ensures Kept(o.t) == o.t && Cut(o.extranonce1) == o.extranonce1
  {
  }

  /** The share solves the block of what the session kept of the pool's messages. Where it kept all of them, the pool
      accepts the share if and only if the counter its extranonce2 shows fits the size the pool gave. */
  ghost predicate AcceptedIffItFits(share: Share, o: Origin) {
    && SolvesBlock(share, Kept(o.t), Cut(o.extranonce1), o.difficulty, o.undefinedCast)
    && 0 < o.size <= 15
    && (SentWhole(o) ==> (PoolAccepts(share, o) <==> Number(share.extranonce2) < Pow16(2 * o.size)))
  }

  lemma AnswerIsAcceptedIff(share: Share, jobs: seq<Job>, origins: seq<Origin>)
    requires Answers(share, jobs) && FromOrigins(jobs, origins)
    ensures AcceptedIffItFits(share, origins[share.sequence - 1])
  {
    hide SolvesBlock, Solves, BuiltFrom, Cut, Kept, SentWhole, Number, Pow16, FormatExtranonce2;
    AnswerSolvesBlock(share, jobs, origins);
    AnswerLength(share, jobs, origins);
    var o := origins[share.sequence - 1];
    assert FromOrigin(jobs[share.sequence - 1], o);
    if SentWhole(o) {
      WholeIsKept(o);
    }
  }

  /** So it is for every share popped, over a whole connection. */
  lemma ShareIsAcceptedIff(threads: nat, devices: nat, steps: seq<Step>, i: nat)
    requires |steps| < U64_LIMIT / 2
    requires i < |Run(threads, devices, Connection(threads, devices, steps).events).popped|
    ensures var n := Connection(threads, devices, steps);
            var share := Run(threads, devices, n.events).popped[i];
            1 <= share.sequence <= |n.origins| && AcceptedIffItFits(share, n.origins[share.sequence - 1])
  {
    hide Run, Connection, JobsOf, FromOrigin, AcceptedIffItFits, Solves, Mirrors;
    var n := Connection(threads, devices, steps);
    ConnectionIncreasing(threads, devices, steps);
    ConnectionTraced(threads, devices, steps);
    RunJobs(threads, devices, n.events);
    SharesSolveTheirJobs(threads, devices, n.events);
    var world := Run(threads, devices, n.events);
    assert world.popped[i] in world.popped;
    AnswerIsAcceptedIff(world.popped[i], world.jobs, n.origins);
  }

  // A roll that fails

  /** Nothing is left to fetch, and no exhaustion is waiting to be taken. */
  ghost predicate OutOfWork(world: World) { !world.m.job.valid && !world.m.nonceExhausted }

  lemma OutOfWorkKept(world: World, e: Event)
    requires OutOfWork(world) && !e.NewJob?
    ensures OutOfWork(Next(world, e)) && Next(world, e).grants == world.grants
  {
    hide Hits, Wrap64, Bump, WordsToBytes;
  }

  lemma TakenIsOutOfWork(world: World)
    requires world.m.nonceExhausted && RolledOnce(world)
    ensures OutOfWork(Next(world, TakeExhausted))
  {
    hide TotalFor;
  }

  lemma RunNext(threads: nat, devices: nat, events: seq<Event>, e: Event)
    ensures Run(threads, devices, events + [e]) == Next(Run(threads, devices, events), e)
  {
    hide Next, Start;
    assert (events + [e])[..|events|] == events;
  }

  /** Between taking the flag and the roll no worker has anything to fetch. */
  lemma {:induction false} RollingIsOutOfWork(threads: nat, devices: nat, steps: seq<Step>)
    requires |steps| < U64_LIMIT / 2
    ensures var n := Connection(threads, devices, steps); n.rolling ==> OutOfWork(Run(threads, devices, n.events))
  {
    hide Run, Handle, OutOfWork, Next, Numbered, AllFresh, SharesSound, Logged, Allocated, RolledOnce, Accounted,
         Increasing, Told;
    if |steps| > 0 {
      var before, step := Connection(threads, devices, steps[..|steps| - 1]), steps[|steps| - 1];
      RollingIsOutOfWork(threads, devices, steps[..|steps| - 1]);
      ConnectionIncreasing(threads, devices, steps[..|steps| - 1]);
      RunKeepsInvariant(threads, devices, before.events);
      var world := Run(threads, devices, before.events);
      match step
      case Receive(_) =>
      case Work(event) =>
        RunNext(threads, devices, before.events, event);
        if before.rolling && !event.NewJob? {
          OutOfWorkKept(world, event);
        }
      case TakeFlag =>
        RunNext(threads, devices, before.events, TakeExhausted);
        if world.m.nonceExhausted {
          TakenIsOutOfWork(world);
        }
      case RollNow(_) =>
    }
  }

  /** One step without a message leaves the workers without work. */
  lemma StaysOutOfWork(threads: nat, devices: nat, n: Node, step: Step)
    requires !n.rolling && OutOfWork(Run(threads, devices, n.events)) && !step.Receive?
    ensures var next := After(threads, devices, n, step);
            && !next.rolling && OutOfWork(Run(threads, devices, next.events)) && next.session == n.session
            && Run(threads, devices, next.events).grants == Run(threads, devices, n.events).grants
  {
    hide Run, Handled, Next;
    match step
    case Work(event) =>
      if !event.NewJob? && !event.TakeExhausted? {
        RunNext(threads, devices, n.events, event);
        OutOfWorkKept(Run(threads, devices, n.events), event);
      }
    case TakeFlag =>
      RunNext(threads, devices, n.events, TakeExhausted);
      OutOfWorkKept(Run(threads, devices, n.events), TakeExhausted);
    case RollNow(_) =>
  }

  /** The flag is taken once. When the roll then installs no job, nothing is granted any more, whatever the workers
      and the session's own turns do, until the pool sends something. */
  lemma {:induction false} FailedRollStalls(threads: nat, devices: nat, steps: seq<Step>, undefinedCast: U32,
                                            later: seq<Step>)
    requires |steps| < U64_LIMIT / 2 && forall step <- later :: !step.Receive?
    requires var n := Connection(threads, devices, steps);
             n.rolling && Rebuilt(n.session, undefinedCast).1.None?
    ensures var n := Connection(threads, devices, steps);
            var end := Connection(threads, devices, steps + [RollNow(undefinedCast)] + later);
            && !end.rolling && OutOfWork(Run(threads, devices, end.events))
            && end.session == Rebuilt(n.session, undefinedCast).0
            && Run(threads, devices, end.events).grants == Run(threads, devices, n.events).grants
  {
    hide Run, OutOfWork, Rebuilt;
    var rolled := steps + [RollNow(undefinedCast)];
    if |later| == 0 {
      RollingIsOutOfWork(threads, devices, steps);
      assert rolled[..|steps|] == steps && rolled + later == rolled;
    } else {
      var before, last := later[..|later| - 1], later[|later| - 1];
      FailedRollStalls(threads, devices, steps, undefinedCast, before);
      assert (rolled + later)[..|rolled + later| - 1] == rolled + before;
      StaysOutOfWork(threads, devices, Connection(threads, devices, rolled + before), last);
    }
  }

  /** Then every fetch fails, and the workers sleep unless the miner stops. */
  lemma OutOfWorkSleeps(world: World, batchSize: U32)
    requires OutOfWork(world)
    ensures FetchRange(world.m, batchSize).None? && (world.m.stop || NothingToDo(world.m))
  {
  }
}
