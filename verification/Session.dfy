/**
 The mining side of a Stratum session (stratum.c): the job template, the extranonce and its counter, and the messages
 that make a new job. `Messages` and everything after it joins the session with the miner's runs.
 */
module Session {
  import opened Words
  import opened Hex
  import opened JobBuilder
  import opened MinerState
  import opened Miner

  const MAX_MERKLE_BRANCHES: nat := 128
  const MAX_COINBASE_HEX: nat := 16384

  /** `snprintf(dst, size, "%s", text)`. */
  function Clip(text: string, size: nat): string
    requires size > 0
  {
    if |text| < size then text else text[..size - 1]
  }

  function FirstBranches(merkle: seq<string>): seq<string> {
    if |merkle| > MAX_MERKLE_BRANCHES then merkle[..MAX_MERKLE_BRANCHES] else merkle
  }

  /** The fields of a notification fit the session's buffers. */
  predicate Storable(t: Template) {
    && |t.jobId| < 128 && |t.prevhash| < 65 && |t.coinb1| < MAX_COINBASE_HEX && |t.coinb2| < MAX_COINBASE_HEX
    && |t.version| < 9 && |t.nbits| < 9 && |t.ntime| < 9
    && forall branch <- FirstBranches(t.merkle) :: |branch| < 65
  }

  datatype SessionState = SessionState(extranonce1: string, size: int, counter: U64, difficulty: real,
                                       template: Option<Template>)

  const FRESH: SessionState := SessionState("", 4, 1, 1.0, None)

  /** `rebuild_miner_job`: the session afterwards, and the job it installs, if it does. */
  ghost function Rebuilt(s: SessionState, undefinedCast: U32): (SessionState, Option<Job>) {
    if s.template.None? || s.extranonce1 == "" || s.size <= 0 then (s, None)
    else
      var extranonce2 := FormatExtranonce2(32, s.size, s.counter);
      var used := s.(counter := Wrap64(s.counter + 1));
      var t := s.template.value;
      if extranonce2 == "" || !Buildable(t, s.extranonce1, extranonce2) then (used, None)
      else (used, Some(JobOf(t, s.extranonce1, extranonce2, s.difficulty, undefinedCast)))
  }

  function Installed(m: MinerState, job: Option<Job>): MinerState {
    if job.Some? then SetJobState(m, job.value) else m
  }

  /** The fields `mining.set_extranonce` and the subscription share; a missing one keeps its value. */
  function WithExtranonce(s: SessionState, extranonce1: Option<string>, size: Option<int>): SessionState {
    s.(extranonce1 := if extranonce1.Some? then Clip(extranonce1.value, 128) else s.extranonce1,
       size := if size.Some? then size.value else s.size)
  }

  function WithTemplate(s: SessionState, t: Template): SessionState {
    s.(template := if Storable(t) then Some(t.(merkle := FirstBranches(t.merkle))) else None)
  }

  /** A notification is stored as it came exactly when its fields fit and it has at most 128 branches. */
  lemma TemplateKeptIff(s: SessionState, t: Template)
    ensures WithTemplate(s, t).template == Some(t) <==> Storable(t) && |t.merkle| <= MAX_MERKLE_BRANCHES
  {
    if Storable(t) && |t.merkle| > MAX_MERKLE_BRANCHES {
      assert |WithTemplate(s, t).template.value.merkle| == MAX_MERKLE_BRANCHES;
    }
  }

  /** A notification with more branches is mined all the same, for the Merkle root of its first 128: whenever its
      own fields make a job, so does what is left of it. */
  lemma BranchesAreCut(s: SessionState, t: Template, undefinedCast: U32)
    requires Storable(t) && |t.merkle| > MAX_MERKLE_BRANCHES
    requires s.extranonce1 != "" && 0 < s.size <= 15
    requires Buildable(t, s.extranonce1, FormatExtranonce2(32, s.size, s.counter))
    ensures var left, extranonce2 := t.(merkle := t.merkle[..MAX_MERKLE_BRANCHES]),
                                     FormatExtranonce2(32, s.size, s.counter);
            && Buildable(left, s.extranonce1, extranonce2)
            && Rebuilt(WithTemplate(s, t), undefinedCast).1
               == Some(JobOf(left, s.extranonce1, extranonce2, s.difficulty, undefinedCast))
  {
    hide IsHex, JobOf, FormatExtranonce2;
    ExtranonceEmptyIff(s.size, s.counter);
  }

  /** A well-formed notification with that many branches. */
  function Notice(branches: nat): Template {
    Template("", seq(64, _ => '0'), "", "", seq(branches, _ => seq(64, _ => '0')), "00000000", "00000000", "00000000")
  }

  /** One with 129 branches, in a session with extranonce1 "00": the job has 128. */
  lemma LongNoticeIsMined(difficulty: real, undefinedCast: U32)
    ensures var s := WithTemplate(SessionState("00", 4, 1, difficulty, None), Notice(129));
            && s.template == Some(Notice(128))
            && Buildable(Notice(128), "00", "00000001")
            && Rebuilt(s, undefinedCast).1 == Some(JobOf(Notice(128), "00", "00000001", difficulty, undefinedCast))
  {
    hide JobOf;
    var s := SessionState("00", 4, 1, difficulty, None);
    assert Hexits(1) == "1";
    assert FormatExtranonce2(32, 4, 1) == "00000001";
    NoticeBuilds(129);
    BranchesAreCut(s, Notice(129), undefinedCast);
    assert Notice(129).(merkle := Notice(129).merkle[..128]) == Notice(128);
  }

  lemma NoticeBuilds(branches: nat)
    ensures Storable(Notice(branches)) && Buildable(Notice(branches), "00", "00000001")
  {
    assert HexValue('0') == 0 && HexValue('1') == 1;
  }

  // The counter outgrows its width

  /** In a session that has built a job with an extranonce2 of even length, a rebuild installs another exactly when
      the counter prints an even number of digits. */
  lemma RebuildWorksIffEven(s: SessionState, text: string, undefinedCast: U32)
    requires s.template.Some? && s.extranonce1 != "" && 0 < s.size <= 15
    requires Buildable(s.template.value, s.extranonce1, text) && |text| % 2 == 0
    ensures Rebuilt(s, undefinedCast).1.Some? <==> |FormatExtranonce2(32, s.size, s.counter)| % 2 == 0
  {
    hide Buildable, JobOf, FormatExtranonce2;
    BuildableIffEven(s.template.value, s.extranonce1, text, s.size, s.counter);
  }

  /** With a one-byte extranonce2 no job is installed while the counter is 256 to 4095, whatever asks for one. */
  lemma OneByteRunsOut(s: SessionState, text: string, undefinedCast: U32)
    requires s.template.Some? && s.extranonce1 != "" && s.size == 1 && 256 <= s.counter < 4096
    requires Buildable(s.template.value, s.extranonce1, text) && |text| % 2 == 0
    ensures Rebuilt(s, undefinedCast) == (s.(counter := s.counter + 1), None)
  {
    hide Buildable, JobOf, FormatExtranonce2;
    ThreeDigits(s.counter);
    RebuildWorksIffEven(s, text, undefinedCast);
    ExtranonceEmptyIff(1, s.counter);
  }

  class Client {
    var extranonce1: string
    var size: int
    var counter: U64
    var difficulty: real
    var template: Template
    var templateValid: bool
    const miner: Miner

    ghost predicate Valid()
      reads this, miner
    {
      && miner.Valid() && |extranonce1| < 128
      && (templateValid ==> |template.coinb1| < MAX_COINBASE_HEX && |template.coinb2| < MAX_COINBASE_HEX)
    }

    ghost function View(): SessionState
      reads this
    {
      SessionState(extranonce1, size, counter, difficulty, if templateValid then Some(template) else None)
    }

    /** `stratum_state_init`. */
    constructor (miner: Miner)
      requires miner.Valid()
      ensures Valid() && View() == FRESH && this.miner == miner
    {
      extranonce1, size, counter, difficulty := "", 4, 1, 1.0;
      template, templateValid := Template("", "", "", "", [], "", "", ""), false;
      this.miner := miner;
    }

    /** `rebuild_miner_job`: 1 for a new job, 0 when there is nothing to build from, -1 for a failure. */
    method Rebuild(undefinedCast: U32) returns (result: int)
      requires Valid()
      modifies `counter, miner
      ensures Valid() && View() == Rebuilt(old(View()), undefinedCast).0
      ensures miner.View() == Installed(old(miner.View()), Rebuilt(old(View()), undefinedCast).1)
      ensures result == if Rebuilt(old(View()), undefinedCast).1.Some? then 1
                        else if !templateValid || extranonce1 == "" || size <= 0 then 0 else -1
    {
      hide Buildable, JobOf, FormatExtranonce2, SetJobState, CoinbaseText;
      if !templateValid || extranonce1 == "" || size <= 0 {
        return 0;
      }
      var extranonce2 := FormatExtranonce2(32, size, counter);
      counter := Wrap64(counter + 1);
      if extranonce2 == "" {
        return -1;
      }
      CoinbaseIsShort(template, extranonce1, size, extranonce2, old(counter));
      var job := BuildJob(template, extranonce1, extranonce2, difficulty, undefinedCast);
      if job.None? {
        return -1;
      }
      miner.SetJob(job.value);
      return 1;
    }

    /** `handle_set_difficulty`. */
    method SetDifficulty(value: real, undefinedCast: U32)
      requires Valid()
      modifies `difficulty, `counter, miner
      ensures Valid() && View() == Handle(old(View()), NewDifficulty(value, undefinedCast)).0
      ensures miner.View() == Installed(old(miner.View()), Handle(old(View()), NewDifficulty(value, undefinedCast)).1)
    {
      hide Rebuilt;
      difficulty := value;
      if templateValid {
        var _ := Rebuild(undefinedCast);
      } else {
        NothingToRebuild(View(), undefinedCast);
      }
    }

    /** `handle_set_extranonce`. */
    method SetExtranonce(newExtranonce1: Option<string>, newSize: Option<int>, undefinedCast: U32)
      requires Valid()
      modifies `extranonce1, `size, `counter, miner
      ensures Valid() && View() == Handle(old(View()), NewExtranonce(newExtranonce1, newSize, undefinedCast)).0
      ensures miner.View() ==
              Installed(old(miner.View()), Handle(old(View()), NewExtranonce(newExtranonce1, newSize, undefinedCast)).1)
    {
      hide Rebuilt;
      if newExtranonce1.Some? {
        extranonce1 := Clip(newExtranonce1.value, 128);
      }
      if newSize.Some? {
        size := newSize.value;
      }
      if templateValid {
        var _ := Rebuild(undefinedCast);
      } else {
        NothingToRebuild(View(), undefinedCast);
      }
    }

    /** The subscription reply in `handle_response`. */
    method Subscribed(newExtranonce1: Option<string>, newSize: Option<int>)
      requires Valid()
      modifies `extranonce1, `size
      ensures Valid() && View() == Handle(old(View()), Subscription(newExtranonce1, newSize)).0
      ensures Handle(old(View()), Subscription(newExtranonce1, newSize)).1.None?
    {
      if newExtranonce1.Some? {
        extranonce1 := Clip(newExtranonce1.value, 128);
      }
      if newSize.Some? {
        size := newSize.value;
      }
    }

    /** `handle_notify` for a message with its nine parameters. */
    method Notify(t: Template, undefinedCast: U32)
      requires Valid()
      modifies `template, `templateValid, `counter, miner
      ensures Valid() && View() == Handle(old(View()), Notification(t, undefinedCast)).0
      ensures miner.View() == Installed(old(miner.View()), Handle(old(View()), Notification(t, undefinedCast)).1)
    {
      hide Rebuilt;
      templateValid := false;
      var stored := StoreTemplate(t);
      if !stored {
        NothingToRebuild(View(), undefinedCast);
        return;
      }
      templateValid := true;
      var _ := Rebuild(undefinedCast);
    }

    /** The copies into the template buffers, field by field; the first that does not fit ends them. */
    method StoreTemplate(t: Template) returns (stored: bool)
      requires Valid() && !templateValid
      modifies `template
      ensures Valid() && stored == Storable(t)
      ensures stored ==> template == t.(merkle := FirstBranches(t.merkle))
    {
      template := template.(merkle := []);
      if |t.jobId| >= 128 { return false; }
      template := template.(jobId := t.jobId);
      if |t.prevhash| >= 65 { return false; }
      template := template.(prevhash := t.prevhash);
      if |t.coinb1| >= MAX_COINBASE_HEX { return false; }
      template := template.(coinb1 := t.coinb1);
      if |t.coinb2| >= MAX_COINBASE_HEX { return false; }
      template := template.(coinb2 := t.coinb2);
      if |t.version| >= 9 { return false; }
      template := template.(version := t.version);
      if |t.nbits| >= 9 { return false; }
      template := template.(nbits := t.nbits);
      if |t.ntime| >= 9 { return false; }
      template := template.(ntime := t.ntime);
      stored := StoreBranches(t.merkle);
    }

    /** The loop over the Merkle branches, of which at most 128 are kept. */
    method StoreBranches(merkle: seq<string>) returns (stored: bool)
      requires template.merkle == []
      modifies `template
      ensures stored <==> forall branch <- FirstBranches(merkle) :: |branch| < 65
      ensures template == old(template).(merkle := template.merkle)
      ensures stored ==> template.merkle == FirstBranches(merkle)
    {
      var count := |merkle|;
      if count > MAX_MERKLE_BRANCHES {
        count := MAX_MERKLE_BRANCHES;
      }
      for i := 0 to count
        invariant forall branch <- merkle[..i] :: |branch| < 65
        invariant template == old(template).(merkle := merkle[..i])
      {
        if |merkle[i]| >= 65 {
          assert merkle[i] in FirstBranches(merkle);
          return false;
        }
        template := template.(merkle := template.merkle + [merkle[i]]);
      }
      return true;
    }

    /** `maybe_roll_extranonce`. */
    method MaybeRoll(undefinedCast: U32)
      requires Valid()
      modifies `counter, miner
      ensures Valid()
      ensures var rolled := Handle(old(View()), Roll(undefinedCast));
              if old(miner.nonceExhausted)
              then View() == rolled.0
                   && miner.View() == Installed(old(miner.View()).(nonceExhausted := false), rolled.1)
              else View() == old(View()) && miner.View() == old(miner.View())
    {
      hide Rebuilt, SetJobState;
      var exhausted := miner.TakeNonceExhausted();
      if exhausted {
        var _ := Rebuild(undefinedCast);
      }
    }
  }

  lemma CoinbaseIsShort(t: Template, extranonce1: string, size: int, extranonce2: string, value: U64)
    requires |t.coinb1| < MAX_COINBASE_HEX && |t.coinb2| < MAX_COINBASE_HEX && |extranonce1| < 128
    requires extranonce2 == FormatExtranonce2(32, size, value)
    ensures |CoinbaseText(t, extranonce1, extranonce2)| < 0x1_0000
  {
    hide Padded;
  }

  lemma NothingToRebuild(s: SessionState, undefinedCast: U32)
    requires s.template.None?
    ensures Rebuilt(s, undefinedCast) == (s, None)
  {
  }

  // Messages

  datatype Message =
    | Subscription(extranonce1: Option<string>, size: Option<int>)
    | NewDifficulty(value: real, undefinedCast: U32)
    | NewExtranonce(extranonce1: Option<string>, size: Option<int>, undefinedCast: U32)
    | Notification(t: Template, undefinedCast: U32)
    | Roll(undefinedCast: U32)

  /** What a message does to the session, and the job it installs. */
  ghost function Handle(s: SessionState, message: Message): (SessionState, Option<Job>) {
    match message
    case Subscription(extranonce1, size) => (WithExtranonce(s, extranonce1, size), None)
    case NewDifficulty(value, undefinedCast) => Rebuilt(s.(difficulty := value), undefinedCast)
    case NewExtranonce(extranonce1, size, undefinedCast) => Rebuilt(WithExtranonce(s, extranonce1, size), undefinedCast)
    case Notification(t, undefinedCast) => Rebuilt(WithTemplate(s, t), undefinedCast)
    case Roll(undefinedCast) => Rebuilt(s, undefinedCast)
  }
}
