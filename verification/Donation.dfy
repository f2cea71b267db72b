/**
 The core thread's loop (btcrig_core_full.c): sessions for the user and for the donation address in turn, retries, and
 the end. A run is the list of what its sessions returned; the log says which phase each session was and whether it
 completed. Phase lengths are scheduled seconds, over the reals.
 */
module Donation {

  const CYCLE_MINUTES: int := 100

  /** `donation_level_or_zero`. */
  function DonationLevel(level: int): (r: nat)
    ensures r < CYCLE_MINUTES && (0 <= level <= 99 ==> r == level) && (level < 0 ==> r == 0) && (level > 99 ==> r == 99)
  {
    if level <= 0 then 0 else if level >= CYCLE_MINUTES then CYCLE_MINUTES - 1 else level
  }

  type Level = n: nat | n < CYCLE_MINUTES

  /** `donation_phase_seconds`. */
  function PhaseSeconds(level: Level, donating: bool): real {
    (if donating then level else CYCLE_MINUTES - level) as real * 60.0
  }

  /** `hasDonationUser`: there is a donation address, and it is not the user's own. A negative `retries` has no
      limit. */
  datatype Config = Config(level: Level, hasDonationUser: bool, hasPool: bool, retries: int)
  {
    predicate DonationEnabled() { level > 0 && hasDonationUser }
  }

  /** How a session of the loop went. */
  datatype Outcome = Returned(rc: int) | StopDuring | StopBefore

  datatype Entry = Entry(donating: bool, seconds: real, completed: bool)

  datatype Loop = Loop(donating: bool, seconds: real, attempt: nat, ended: bool, log: seq<Entry>)

  /** `unit` is the random number of the first phase, in [0, 1). */
  function Begin(c: Config, unit: real): Loop {
    Loop(false, if c.DonationEnabled() then PhaseSeconds(c.level, false) * (0.5 + unit) else 0.0, 0, false, [])
  }

  /** One turn of the loop. */
  function Turn(c: Config, s: Loop, o: Outcome): Loop {
    if s.ended then s
    else if o == StopBefore || !c.hasPool || (c.retries >= 0 && s.attempt > c.retries) then s.(ended := true)
    else
      var entry := Entry(s.donating, s.seconds, o == Returned(0));
      var t := s.(attempt := s.attempt + 1, log := s.log + [entry]);
      if o == StopDuring then t.(ended := true)
      else if c.DonationEnabled() && o.rc == 0 then
        t.(donating := !s.donating, seconds := PhaseSeconds(c.level, !s.donating), attempt := 0)
      else if s.donating then t.(donating := false, seconds := PhaseSeconds(c.level, false))
      else t
  }

  function Turns(c: Config, unit: real, outcomes: seq<Outcome>): Loop {
    if |outcomes| == 0 then Begin(c, unit)
    else Turn(c, Turns(c, unit, outcomes[..|outcomes| - 1]), outcomes[|outcomes| - 1])
  }

  /** `run_core`, for as long as `outcomes` lasts. */
  method RunCore(c: Config, unit: real, outcomes: seq<Outcome>) returns (log: seq<Entry>, ended: bool)
    ensures var s := Turns(c, unit, outcomes); log == s.log && ended == s.ended
  {
    var attempt := 0;
    var donating := false;
    var donationEnabled := c.level > 0 && c.hasDonationUser;
    var phaseSeconds := if donationEnabled then PhaseSeconds(c.level, false) * (0.5 + unit) else 0.0;
    log := [];
    assert outcomes[..0] == [];
    for i := 0 to |outcomes|
      invariant Turns(c, unit, outcomes[..i]) == Loop(donating, phaseSeconds, attempt, false, log)
    {
      hide PhaseSeconds;
      assert outcomes[..i + 1][..i] == outcomes[..i];
      var o := outcomes[i];
      if o == StopBefore || !c.hasPool || (c.retries >= 0 && attempt > c.retries) {
        EndedStays(c, unit, outcomes, i + 1);
        return log, true;
      }
      attempt := attempt + 1;
      log := log + [Entry(donating, phaseSeconds, o == Returned(0))];
      if o == StopDuring {
        EndedStays(c, unit, outcomes, i + 1);
        return log, true;
      }
      if donationEnabled && o.rc == 0 {
        donating := !donating;
        phaseSeconds := PhaseSeconds(c.level, donating);
        attempt := 0;
      } else if donating {
        donating := false;
        phaseSeconds := PhaseSeconds(c.level, false);
      }
    }
    assert outcomes[..|outcomes|] == outcomes;
    ended := false;
  }

  lemma {:induction false} EndedStays(c: Config, unit: real, outcomes: seq<Outcome>, i: nat)
    requires i <= |outcomes| && Turns(c, unit, outcomes[..i]).ended
    ensures Turns(c, unit, outcomes) == Turns(c, unit, outcomes[..i])
    decreases |outcomes| - i
  {
    if i == |outcomes| {
      assert outcomes[..i] == outcomes;
    } else {
      assert outcomes[..i + 1][..i] == outcomes[..i];
      EndedStays(c, unit, outcomes, i + 1);
    }
  }

  // Every run

  /** A full phase: as many minutes of a hundred as the level says. */
  function FullPhase(level: Level, donating: bool): real {
    if donating then 60.0 * level as real else 60.0 * (100 - level) as real
  }

  /** The first phase is a user phase, cut to between a half and one and a half of its length. */
  function FirstSeconds(c: Config, unit: real): real {
    if c.level > 0 && c.hasDonationUser then 60.0 * (100 - c.level) as real * (0.5 + unit) else 0.0
  }

  lemma PhaseIsFull(level: Level, donating: bool)
    ensures PhaseSeconds(level, donating) == FullPhase(level, donating)
  {
  }

  /** Which phase may follow which. */
  ghost predicate Follows(c: Config, before: Entry, next: Entry) {
    && (next.donating ==> !before.donating && before.completed)
    && (before.donating ==> !next.donating && next.seconds == FullPhase(c.level, false))
    && (!before.donating && !before.completed ==> !next.donating && next.seconds == before.seconds)
    && (!before.donating && before.completed && c.DonationEnabled() ==>
          next.donating && next.seconds == FullPhase(c.level, true))
  }

  /** The phase the loop is in is the one that may follow the log. */
  ghost predicate Scheduled(c: Config, unit: real, s: Loop) {
    && (forall i :: 0 < i < |s.log| ==> Follows(c, s.log[i - 1], s.log[i]))
    && (|s.log| > 0 ==> !s.log[0].donating && s.log[0].seconds == FirstSeconds(c, unit))
    && (if |s.log| == 0 then !s.donating && s.seconds == FirstSeconds(c, unit)
        else s.ended || Follows(c, s.log[|s.log| - 1], Entry(s.donating, s.seconds, false)))
    && (s.donating ==> c.DonationEnabled())
  }

  /** Every donation phase follows a completed user phase; after a donation phase, completed or failed, comes a full
      user phase; a failed user phase is repeated with the same length. */
  lemma {:induction false} PhasesAlternate(c: Config, unit: real, outcomes: seq<Outcome>)
    ensures Scheduled(c, unit, Turns(c, unit, outcomes))
  {
    hide PhaseSeconds;
    PhaseIsFull(c.level, false);
    if |outcomes| > 0 {
      PhasesAlternate(c, unit, outcomes[..|outcomes| - 1]);
      var s := Turns(c, unit, outcomes[..|outcomes| - 1]);
      ScheduledTurn(c, unit, s, outcomes[|outcomes| - 1]);
    }
  }

  lemma ScheduledTurn(c: Config, unit: real, s: Loop, o: Outcome)
    requires Scheduled(c, unit, s)
    ensures Scheduled(c, unit, Turn(c, s, o))
  {
    hide PhaseSeconds, FullPhase;
    PhaseIsFull(c.level, false);
    PhaseIsFull(c.level, true);
    var t := Turn(c, s, o);
    if |t.log| > |s.log| {
      forall i | 0 < i < |t.log|
        ensures Follows(c, t.log[i - 1], t.log[i])
      {
        if i < |s.log| {
          assert Follows(c, s.log[i - 1], s.log[i]);
        }
      }
    }
  }

  /** Failures at the end of a log, since the last completed session. */
  function TrailingFailures(log: seq<Entry>): (k: nat)
    ensures k <= |log|
  {
    if |log| == 0 || log[|log| - 1].completed then 0 else 1 + TrailingFailures(log[..|log| - 1])
  }

  ghost predicate Bounded(c: Config, s: Loop) {
    && s.attempt == (if c.DonationEnabled() then (if s.ended then s.attempt else TrailingFailures(s.log)) else |s.log|)
    && (c.retries >= 0 ==>
          s.attempt <= c.retries + 1 && forall i :: 0 <= i <= |s.log| ==> TrailingFailures(s.log[..i]) <= c.retries + 1)
  }

  /** With `retries` r at least 0 there are never more than r + 1 failures in a row, anywhere in the run. Without
      donation nothing resets the count, and there are never more than r + 1 sessions. */
  lemma {:induction false} FailuresAreBounded(c: Config, unit: real, outcomes: seq<Outcome>)
    ensures var s := Turns(c, unit, outcomes);
            && (c.retries >= 0 ==> forall i :: 0 <= i <= |s.log| ==> TrailingFailures(s.log[..i]) <= c.retries + 1)
            && (c.retries >= 0 && !c.DonationEnabled() ==> |s.log| <= c.retries + 1)
    ensures Bounded(c, Turns(c, unit, outcomes))
  {
    hide PhaseSeconds;
    if |outcomes| > 0 {
      FailuresAreBounded(c, unit, outcomes[..|outcomes| - 1]);
      BoundedTurn(c, Turns(c, unit, outcomes[..|outcomes| - 1]), outcomes[|outcomes| - 1]);
    }
  }

  lemma BoundedTurn(c: Config, s: Loop, o: Outcome)
    requires Bounded(c, s)
    ensures Bounded(c, Turn(c, s, o))
  {
    hide PhaseSeconds;
    var t := Turn(c, s, o);
    var n := |s.log|;
    if |t.log| > n {
      assert t.log[..n] == s.log;
      FewTrailing(s.log);
      forall i | 0 <= i <= |t.log| && c.retries >= 0
        ensures TrailingFailures(t.log[..i]) <= c.retries + 1
      {
        if i <= n {
          assert t.log[..i] == s.log[..i];
        } else {
          assert t.log[..i] == t.log;
          assert s.log[..n] == s.log;
        }
      }
    }
  }

  lemma FewTrailing(log: seq<Entry>)
    ensures TrailingFailures(log) <= |log|
  {
  }

  /** The sessions that count towards the limit. */
  function Used(c: Config, log: seq<Entry>): nat { if c.DonationEnabled() then TrailingFailures(log) else |log| }

  /** What ends the run in turn `i`, if nothing did before. */
  ghost predicate Ends(c: Config, unit: real, outcomes: seq<Outcome>, i: nat)
    requires i < |outcomes|
  {
    !c.hasPool || !outcomes[i].Returned? || 0 <= c.retries < Used(c, Turns(c, unit, outcomes[..i]).log)
  }

  /** Every run: it has ended if and only if there is no pool, it was stopped, or the limit was used up. Until then
      every turn is a session, which completed if and only if it returned 0. */
  lemma {:induction false} RunEndsIff(c: Config, unit: real, outcomes: seq<Outcome>)
    ensures var s := Turns(c, unit, outcomes);
            && (s.ended <==> exists i: nat :: i < |outcomes| && Ends(c, unit, outcomes, i))
            && |s.log| <= |outcomes| && (!s.ended ==> |s.log| == |outcomes|)
            && forall i :: 0 <= i < |s.log| ==> (s.log[i].completed <==> outcomes[i] == Returned(0))
  {
    hide PhaseSeconds, TrailingFailures;
    if |outcomes| > 0 {
      var n := |outcomes| - 1;
      var before := outcomes[..n];
      RunEndsIff(c, unit, before);
      FailuresAreBounded(c, unit, before);
      EndsEarlier(c, unit, outcomes);
      TurnEndsIff(c, Turns(c, unit, before), outcomes[n]);
      hide Turn, Used;
      var s, t := Turns(c, unit, before), Turns(c, unit, outcomes);
      if s.ended {
        var i: nat :| i < n && Ends(c, unit, before, i);
        assert Ends(c, unit, outcomes, i);
      } else {
        assert t.ended <==> Ends(c, unit, outcomes, n);
      }
      forall i | 0 <= i < |t.log|
        ensures t.log[i].completed <==> outcomes[i] == Returned(0)
      {
        if i < |s.log| {
          assert t.log[i] == s.log[i] && outcomes[i] == before[i];
        }
      }
    }
  }

  lemma EndsEarlier(c: Config, unit: real, outcomes: seq<Outcome>)
    requires |outcomes| > 0
    ensures forall i: nat :: i < |outcomes| - 1 ==>
              (Ends(c, unit, outcomes, i) <==> Ends(c, unit, outcomes[..|outcomes| - 1], i))
  {
    hide Turns, Used;
    forall i: nat | i < |outcomes| - 1
      ensures Ends(c, unit, outcomes, i) <==> Ends(c, unit, outcomes[..|outcomes| - 1], i)
    {
      assert outcomes[..|outcomes| - 1][..i] == outcomes[..i];
    }
  }

  lemma TurnEndsIff(c: Config, s: Loop, o: Outcome)
    requires !s.ended ==> s.attempt == Used(c, s.log)
    ensures var t := Turn(c, s, o);
            && (t.ended <==> s.ended || !c.hasPool || !o.Returned? || 0 <= c.retries < Used(c, s.log))
            && s.log <= t.log && |t.log| <= |s.log| + 1 && (!t.ended ==> |t.log| == |s.log| + 1)
            && (s.ended ==> t == s)
            && (|t.log| > |s.log| ==> (t.log[|s.log|].completed <==> o == Returned(0)))
  {
    hide PhaseSeconds, Used;
  }

  /** The loop ends by itself only when the limit is reached, and then it does. */
  lemma LimitEndsRun(c: Config, s: Loop, o: Outcome)
    requires !s.ended && c.hasPool && o.Returned?
    ensures Turn(c, s, o).ended <==> 0 <= c.retries < s.attempt
  {
  }

  /** Failing sessions use the limit up: r + 1 of them, however long each ran, and the next turn ends the run. */
  lemma LimitIsReached(c: Config, unit: real)
    requires c.hasPool && c.retries >= 0
    ensures var s := Turns(c, unit, seq(c.retries + 2, _ => Returned(1)));
            |s.log| == c.retries + 1 && s.ended && !Turns(c, unit, seq(c.retries + 1, _ => Returned(1))).ended
  {
    hide Turn;
    AllFail(c, unit, c.retries + 1);
    var outcomes := seq(c.retries + 2, _ => Returned(1));
    assert outcomes[..c.retries + 1] == seq(c.retries + 1, _ => Returned(1));
    var s := Turns(c, unit, seq(c.retries + 1, _ => Returned(1)));
    LimitEndsRun(c, s, Returned(1));
    EndKeepsLog(c, s, Returned(1));
  }

  lemma {:induction false} AllFail(c: Config, unit: real, k: nat)
    requires c.hasPool && k <= c.retries + 1
    ensures var s := Turns(c, unit, seq(k, _ => Returned(1))); s.attempt == |s.log| == k && !s.ended
  {
    if k > 0 {
      AllFail(c, unit, k - 1);
      assert seq(k, _ => Returned(1))[..k - 1] == seq(k - 1, _ => Returned(1));
    }
  }

  lemma EndKeepsLog(c: Config, s: Loop, o: Outcome)
    requires 0 <= c.retries < s.attempt
    ensures Turn(c, s, o).log == s.log
  {
  }

  // The share of the donation

  function CompletedSeconds(log: seq<Entry>, donating: bool): real {
    if |log| == 0 then 0.0
    else
      var last := log[|log| - 1];
      CompletedSeconds(log[..|log| - 1], donating)
      + if last.completed && last.donating == donating then last.seconds else 0.0
  }

  /** What may still be donated, scaled by 100 - L: 30 L (100 - L) to begin with, more for user time, less for
      donated. */
  function Slack(level: Level, log: seq<Entry>): real {
    var l, u := level as real, (CYCLE_MINUTES - level) as real;
    l * CompletedSeconds(log, false) + 30.0 * l * u - u * CompletedSeconds(log, true)
  }

  ghost predicate Covered(c: Config, s: Loop) {
    var l, u := c.level as real, (CYCLE_MINUTES - c.level) as real;
    && Slack(c.level, s.log) >= 0.0
    && (s.ended ||
        if s.donating then s.seconds == 60.0 * l && Slack(c.level, s.log) >= 60.0 * l * u
        else Slack(c.level, s.log) + l * s.seconds >= 60.0 * l * u && s.seconds >= 0.0)
  }

  lemma SlackOfOne(level: Level, log: seq<Entry>, e: Entry)
    ensures Slack(level, log + [e]) ==
            Slack(level, log) + (if !e.completed then 0.0
                                 else if e.donating then -((CYCLE_MINUTES - level) as real * e.seconds)
                                 else level as real * e.seconds)
  {
    assert (log + [e])[..|log|] == log;
    var l, u := level as real, (CYCLE_MINUTES - level) as real;
    Distribute(l, CompletedSeconds(log, false), e.seconds);
    Distribute(u, CompletedSeconds(log, true), e.seconds);
  }

  lemma Distribute(x: real, y: real, z: real)
    ensures x * (y + z) == x * y + x * z
  {
  }

  lemma CoveredTurn(c: Config, s: Loop, o: Outcome)
    requires c.DonationEnabled() && Covered(c, s)
    ensures Covered(c, Turn(c, s, o))
  {
    hide Slack;
    var l, u := c.level as real, (CYCLE_MINUTES - c.level) as real;
    SlackOfOne(c.level, s.log, Entry(s.donating, s.seconds, o == Returned(0)));
    FullProduct(l, u);
    ProductNotNegative(l, s.seconds);
  }

  lemma FullProduct(l: real, u: real)
    requires l >= 0.0 && u >= 0.0
    ensures l * (u * 60.0) == 60.0 * l * u == u * (60.0 * l) && 60.0 * l * u >= 0.0
  {
  }

  lemma ProductNotNegative(x: real, y: real)
    requires x >= 0.0
    ensures y >= 0.0 ==> x * y >= 0.0
  {
  }

  lemma {:induction false} AlwaysCovered(c: Config, unit: real, outcomes: seq<Outcome>)
    requires c.DonationEnabled() && 0.0 <= unit
    ensures Covered(c, Turns(c, unit, outcomes))
  {
    hide Turn;
    if |outcomes| == 0 {
      var l, u := c.level as real, (CYCLE_MINUTES - c.level) as real;
      FirstPhase(l, u, unit);
    } else {
      AlwaysCovered(c, unit, outcomes[..|outcomes| - 1]);
      CoveredTurn(c, Turns(c, unit, outcomes[..|outcomes| - 1]), outcomes[|outcomes| - 1]);
    }
  }

  lemma FirstPhase(l: real, u: real, unit: real)
    requires l >= 0.0 && u >= 0.0 && unit >= 0.0
    ensures u * 60.0 * (0.5 + unit) >= 0.0
    ensures 30.0 * l * u >= 0.0 && 30.0 * l * u + l * (u * 60.0 * (0.5 + unit)) >= 60.0 * l * u
  {
    var extra := l * u * 60.0 * unit;
    assert u * 60.0 * unit >= 0.0;
    assert l * (u * 60.0 * unit) >= 0.0;
    assert l * (u * 60.0 * (0.5 + unit)) == 30.0 * l * u + l * (u * 60.0 * unit);
  }

  /** Over every run, completed donation time is at most the level's share of completed user time, plus half a
      donation phase: D (100 - L) <= L U + 30 L (100 - L). */
  lemma DonationIsBounded(c: Config, unit: real, outcomes: seq<Outcome>)
    requires c.DonationEnabled() && 0.0 <= unit < 1.0
    ensures var log := Turns(c, unit, outcomes).log;
            var l, u := c.level as real, (CYCLE_MINUTES - c.level) as real;
            CompletedSeconds(log, true) * u <= l * CompletedSeconds(log, false) + 30.0 * l * u
  {
    hide Turns, CompletedSeconds;
    AlwaysCovered(c, unit, outcomes);
  }

  /** Without donation no session is one. */
  lemma NothingDonated(c: Config, unit: real, outcomes: seq<Outcome>, i: nat)
    requires !c.DonationEnabled() && i < |Turns(c, unit, outcomes).log|
    ensures !Turns(c, unit, outcomes).log[i].donating
  {
    if |outcomes| > 0 {
      var before := outcomes[..|outcomes| - 1];
      PhasesAlternate(c, unit, before);
      if i < |Turns(c, unit, before).log| {
        NothingDonated(c, unit, before, i);
      }
    }
  }
}
