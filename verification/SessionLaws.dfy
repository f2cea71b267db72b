/**
 When a message gives the workers something to do: exactly when what the pool has sent makes a job. All limits are
 written out here, and the job is described by what the pool puts together from its own messages.
 */
module SessionLaws {
  import opened Words
  import opened Sha256d
  import opened Targets
  import opened Difficulty
  import opened Hex
  import opened JobBuilder
  import opened MinerRun
  import opened Session
  import opened SessionRun

  ghost predicate Digits(text: string, n: nat) { |text| == n && IsHex(text) }

  /** Template and extranonce1, as far as they were kept, and size and counter make a job. */
  ghost predicate Ready(t: Template, extranonce1: string, size: int, counter: U64) {
    && |t.jobId| <= 127 && |t.coinb1| <= 16383 && |t.coinb2| <= 16383
    && Digits(t.prevhash, 64) && Digits(t.version, 8) && Digits(t.nbits, 8) && Digits(t.ntime, 8)
    && (forall i :: 0 <= i < |t.merkle| ==> Digits(t.merkle[i], 64))
    && extranonce1 != "" && 0 < size <= 15
    && IsHex(t.coinb1) && IsHex(extranonce1) && IsHex(t.coinb2)
    && (|t.coinb1| + |extranonce1| + |Padded(counter, 2 * size)| + |t.coinb2|) % 2 == 0
  }

  lemma HexOfParts(a: string, b: string, c: string, d: string)
    ensures IsHex(a + b + c + d) <==> IsHex(a) && IsHex(b) && IsHex(c) && IsHex(d)
  {
    hide HexValue;
    HexOfTwo(a, b);
    HexOfTwo(a + b, c);
    HexOfTwo(a + b + c, d);
  }

  lemma HexOfTwo(a: string, b: string)
    ensures IsHex(a + b) <==> IsHex(a) && IsHex(b)
  {
    hide HexValue;
    if IsHex(a + b) {
      assert forall i :: 0 <= i < |a| ==> (a + b)[i] == a[i];
      assert forall i :: 0 <= i < |b| ==> (a + b)[|a| + i] == b[i];
    }
  }

  lemma ReadyIsBuildable(t: Template, extranonce1: string, size: int, counter: U64)
    requires extranonce1 != "" && 0 < size <= 15
    ensures FormatExtranonce2(32, size, counter) == Padded(counter, 2 * size) != ""
    ensures Ready(t, extranonce1, size, counter)
       <==> Buildable(t, extranonce1, Padded(counter, 2 * size)) && |t.coinb1| <= 16383 && |t.coinb2| <= 16383
  {
    hide HexValue, Padded;
    ExtranonceIsNotCut(size, counter);
    PaddedIsHex(counter, 2 * size);
    HexOfParts(t.coinb1, extranonce1, Padded(counter, 2 * size), t.coinb2);
  }

  lemma ReadyFits(t: Template, extranonce1: string, size: int, counter: U64)
    requires Ready(Kept(t), extranonce1, size, counter)
    ensures Fits(t)
  {
    hide IsHex, Padded;
  }

  /** A rebuild installs a job exactly when what was sent is ready. */
  lemma RebuildsIff(s: SessionState, sent: Sent, undefinedCast: U32)
    requires Mirrors(s, sent)
    ensures Rebuilt(s, undefinedCast).1.Some?
       <==> sent.t.Some? && Ready(Kept(sent.t.value), Cut(sent.extranonce1), sent.size, s.counter)
  {
    hide Ready, Buildable, JobOf, FormatExtranonce2, Padded, Fits, Kept, Cut;
    if sent.t.Some? {
      var t, extranonce1 := Kept(sent.t.value), Cut(sent.extranonce1);
      if extranonce1 != "" && 0 < sent.size <= 15 {
        ReadyIsBuildable(t, extranonce1, sent.size, s.counter);
        if Ready(t, extranonce1, sent.size, s.counter) {
          ReadyFits(sent.t.value, extranonce1, sent.size, s.counter);
        }
        if Fits(sent.t.value) {
          FitsShort(sent.t.value);
        }
      } else {
        NotReady(t, extranonce1, sent.size, s.counter);
        ExtranonceEmptyIff(sent.size, s.counter);
      }
    }
  }

  lemma FitsShort(t: Template)
    requires Fits(t)
    ensures |Kept(t).coinb1| <= 16383 && |Kept(t).coinb2| <= 16383
  {
  }

  lemma NotReady(t: Template, extranonce1: string, size: int, counter: U64)
    requires extranonce1 == "" || size <= 0 || size > 15
    ensures !Ready(t, extranonce1, size, counter)
  {
  }

  /** The job for a template, an extranonce1, a difficulty and a counter. */
  ghost predicate JobFor(job: Job, t: Template, extranonce1: string, difficulty: real, undefinedCast: U32,
                         counter: U64) {
    && job.jobId == t.jobId && job.ntime == t.ntime && Number(job.extranonce2) == counter
    && PoolHeader(job.header, t, extranonce1, job.extranonce2)
    && LittleEndian(job.target) == TargetNumber(difficulty, undefinedCast)
  }

  /** One job more, which is in place with all of its nonces left and an empty queue; pause and stop are untouched. */
  ghost predicate Mines(before: World, after: World) {
    && |after.jobs| == |before.jobs| + 1 < U64_LIMIT && after.jobs[..|before.jobs|] == before.jobs
    && after.m.job.valid && after.m.job.publicJob == after.jobs[|before.jobs|].(sequence := |after.jobs|)
    && after.m.nextNonce == 0 && !after.m.nonceExhausted && after.m.shares == []
    && after.m.paused == before.m.paused && after.m.stop == before.m.stop
  }

  ghost predicate Gives(sent: Sent, counter: U64, message: Message) {
    !message.Subscription? && sent.t.Some? && Ready(Kept(sent.t.value), Cut(sent.extranonce1), sent.size, counter)
  }

  lemma HandleGives(s: SessionState, sent: Sent, message: Message)
    requires Mirrors(s, sent)
    ensures Handle(s, message).1.Some? <==> Gives(Told(sent, message), s.counter, message)
  {
    hide Rebuilt, Ready, Storable, Fits, Kept, Cut;
    var told := Told(sent, message);
    match message
    case Subscription(_, _) =>
    case NewDifficulty(value, undefinedCast) => RebuildsIff(s.(difficulty := value), told, undefinedCast);
    case NewExtranonce(extranonce1, size, undefinedCast) =>
      ClipIsCut(extranonce1);
      RebuildsIff(WithExtranonce(s, extranonce1, size), told, undefinedCast);
    case Notification(t, undefinedCast) =>
      StoresWhatFits(s, t);
      RebuildsIff(WithTemplate(s, t), told, undefinedCast);
    case Roll(undefinedCast) => RebuildsIff(s, told, undefinedCast);
  }

  lemma ClipIsCut(text: Option<string>)
    ensures text.Some? ==> Clip(text.value, 128) == Cut(text.value)
  {
  }

  lemma JobIsFor(job: Job, o: Origin, counter: U64)
    requires FromOrigin(job, o) && Number(job.extranonce2) == counter
    ensures JobFor(job, Kept(o.t), Cut(o.extranonce1), o.difficulty, o.undefinedCast, counter)
  {
    hide Buildable, HeaderOf, TargetNumber, BytesOf, LittleEndian, Kept, Cut, Number, FormatExtranonce2, PoolHeader;
    HeaderIsThePools(Kept(o.t), Cut(o.extranonce1), job.extranonce2);
    TargetFits(o.difficulty, o.undefinedCast);
  }

  lemma JobMines(world: World, job: Job, steps: nat)
    requires JobKnown(world) && |world.jobs| <= steps < U64_LIMIT - 1
    ensures Mines(world, Next(world, NewJob(job))) && Next(world, NewJob(job)).jobs == world.jobs + [job]
  {
    hide MidstateOf, TailOf, LoadTarget;
    SmallWraps(|world.jobs| + 1);
  }

  function StepOf(message: Message): Step { if message.Roll? then RollNow(message.undefinedCast) else Receive(message) }

  /** What a message does to the miner's world, given what the pool had sent and the counter. */
  ghost predicate Effect(sent: Sent, counter: U64, message: Message, before: World, after: World) {
    if Gives(sent, counter, message) then
      Mines(before, after)
      && JobFor(after.jobs[|before.jobs|], Kept(sent.t.value), Cut(sent.extranonce1), sent.difficulty, CastOf(message),
                counter)
    else after == before
  }

  /** Over a whole connection: a notification, a new difficulty, a new extranonce or a roll gives the workers the job of
      what the pool has sent so far if that makes one, and changes nothing for them otherwise. */
  lemma MessageMinesIff(threads: nat, devices: nat, steps: seq<Step>, message: Message)
    requires |steps| + 1 < U64_LIMIT / 2 && (message.Roll? <==> Connection(threads, devices, steps).rolling)
    ensures var n := Connection(threads, devices, steps);
            var next := Connection(threads, devices, steps + [StepOf(message)]);
            Effect(Told(n.sent, message), n.session.counter, message, Run(threads, devices, n.events),
                   Run(threads, devices, next.events))
  {
    hide Run, Next, Handle, Told, JobsOf, Gives, JobFor, Mines, Mirrors, FromOrigin, Increasing, Numbered, AllFresh,
         SharesSound, Allocated, RolledOnce, Accounted, Logged;
    var n := Connection(threads, devices, steps);
    assert (steps + [StepOf(message)])[..|steps|] == steps;
    ConnectionTraced(threads, devices, steps);
    ConnectionIncreasing(threads, devices, steps);
    HandleGives(n.session, n.sent, message);
    HandleKeepsOrigin(n.session, n.sent, message);
    HandleUsesCounter(n.session, message);
    var job := Handle(n.session, message).1;
    if job.Some? {
      var told := Told(n.sent, message);
      RunNext(threads, devices, n.events, NewJob(job.value));
      RunKeepsInvariant(threads, devices, n.events);
      Numbers(Run(threads, devices, n.events), |n.events|);
      JobMines(Run(threads, devices, n.events), job.value, |n.events|);
      JobIsFor(job.value, Origin(told.t.value, told.extranonce1, told.size, told.difficulty, CastOf(message)),
               n.session.counter);
    }
  }

  lemma Numbers(world: World, steps: nat)
    requires Numbered(world, steps)
    ensures JobKnown(world) && |world.jobs| <= steps
  {
  }
}
