/**
 The control of one session (the main loop of `stratum_run_client`): when it authorizes, when its clock starts, and
 how it ends. What the network, the pool and the clock do in a turn is the turn's input.
 */
module SessionLoop {
  import opened Hex

  /** `runUntil` is 0 for no limit; `seconds` is 0 for no scheduled end; `suggest` is the difficulty to ask for. */
  datatype Config = Config(runUntil: real, seconds: real, suggest: real)

  /** A monotonic clock: seconds since some start. */
  type Clock = seconds: real | seconds >= 0.0

  /** One turn: `now` at the checks, the read's result, the state's flags after the line was processed, whether the
      sends succeed, and `later` when the clock may be started. */
  datatype Turn = Turn(stopRequested: bool, now: Clock, flushOk: bool, read: int, subscribed: bool, authorized: bool,
                       notified: bool, authorizeOk: bool, suggestOk: bool, later: Clock)

  datatype End = Stopped | RuntimeLimit | PeriodComplete | SubmitFailed | ReadFailed | SendFailed
  {
    /** `run_result`. */
    function Result(): int { if Stopped? || RuntimeLimit? || PeriodComplete? then 0 else 1 }
  }

  datatype Request = Authorize | Suggest

  /** The loop's variables; `stopAt` is 0 while the clock is not running. `requests` records what was sent. */
  datatype Control = Control(authorizeSent: bool, suggestSent: bool, stopAt: real, requests: seq<Request>,
                             end: Option<End>)

  const BEGIN: Control := Control(false, false, 0.0, [], None)

  /** The checks at the top of a turn. */
  function EndOf(c: Config, s: Control, t: Turn): Option<End> {
    if t.stopRequested then Some(Stopped)
    else if c.runUntil > 0.0 && t.now >= c.runUntil then Some(RuntimeLimit)
    else if s.stopAt > 0.0 && t.now >= s.stopAt then Some(PeriodComplete)
    else if !t.flushOk then Some(SubmitFailed)
    else if t.read <= 0 && t.read != -3 then Some(ReadFailed)
    else None
  }

  function Next(c: Config, s: Control, t: Turn): Control {
    if s.end.Some? then s
    else if EndOf(c, s, t).Some? then s.(end := EndOf(c, s, t))
    else if t.read == -3 then s
    else if t.subscribed && !s.authorizeSent && !t.authorizeOk then s.(end := Some(SendFailed))
    else
      var a := if t.subscribed && !s.authorizeSent
               then s.(authorizeSent := true, requests := s.requests + [Authorize]) else s;
      var ask := t.authorized && c.suggest > 0.0 && !a.suggestSent;
      if ask && !t.suggestOk then a.(end := Some(SendFailed))
      else
        var b := if ask then a.(suggestSent := true, requests := a.requests + [Suggest]) else a;
        if b.stopAt == 0.0 && c.seconds > 0.0 && t.authorized && t.notified
        then b.(stopAt := t.later + c.seconds) else b
  }

  function Session(c: Config, turns: seq<Turn>): Control {
    if |turns| == 0 then BEGIN else Next(c, Session(c, turns[..|turns| - 1]), turns[|turns| - 1])
  }

  /** The body of the loop. */
  method RunTurn(c: Config, s: Control, t: Turn) returns (n: Control)
    requires s.end.None?
    ensures n == Next(c, s, t)
  {
    n := s;
    if t.stopRequested {
      return n.(end := Some(Stopped));
    }
    if c.runUntil > 0.0 && t.now >= c.runUntil {
      return n.(end := Some(RuntimeLimit));
    }
    if n.stopAt > 0.0 && t.now >= n.stopAt {
      return n.(end := Some(PeriodComplete));
    }
    if !t.flushOk {
      return n.(end := Some(SubmitFailed));
    }
    if t.read == -3 {
      return;
    }
    if t.read <= 0 {
      return n.(end := Some(ReadFailed));
    }
    if t.subscribed && !n.authorizeSent {
      if !t.authorizeOk {
        return n.(end := Some(SendFailed));
      }
      n := n.(requests := n.requests + [Authorize], authorizeSent := true);
    }
    if t.authorized && c.suggest > 0.0 && !n.suggestSent {
      if !t.suggestOk {
        return n.(end := Some(SendFailed));
      }
      n := n.(requests := n.requests + [Suggest], suggestSent := true);
    }
    if n.stopAt == 0.0 && c.seconds > 0.0 && t.authorized && t.notified {
      n := n.(stopAt := t.later + c.seconds);
    }
  }

  /** The loop, for as long as `turns` lasts. */
  method RunSession(c: Config, turns: seq<Turn>) returns (s: Control)
    ensures s == Session(c, turns)
  {
    hide Next;
    s := BEGIN;
    for i := 0 to |turns|
      invariant s == Session(c, turns[..i]) && s.end.None?
    {
      assert turns[..i + 1][..i] == turns[..i];
      s := RunTurn(c, s, turns[i]);
      if s.end.Some? {
        EndStays(c, turns, i + 1);
        return;
      }
    }
    assert turns[..|turns|] == turns;
  }

  lemma {:induction false} EndStays(c: Config, turns: seq<Turn>, i: nat)
    requires i <= |turns| && Session(c, turns[..i]).end.Some?
    ensures Session(c, turns) == Session(c, turns[..i])
    decreases |turns| - i
  {
    hide EndOf;
    if i == |turns| {
      assert turns[..i] == turns;
    } else {
      assert turns[..i + 1][..i] == turns[..i];
      EndStays(c, turns, i + 1);
    }
  }

  // Every session

  /** The turn that started the clock: authorized and with work. */
  ghost predicate Starts(turns: seq<Turn>, i: nat) {
    i < |turns| && turns[i].authorized && turns[i].notified && turns[i].read > 0
  }

  ghost predicate Timed(c: Config, turns: seq<Turn>, s: Control) {
    && (s.stopAt != 0.0 ==> exists i: nat :: Starts(turns, i) && s.stopAt == turns[i].later + c.seconds)
    && (s.end == Some(PeriodComplete) ==>
          exists i: nat, j: nat :: Starts(turns, i) && i < j < |turns| && turns[j].now >= turns[i].later + c.seconds)
  }

  /** A session that reports its period complete was authorized and had work for at least its scheduled seconds. */
  lemma {:induction false} CompletePeriodsAreFull(c: Config, turns: seq<Turn>)
    ensures Timed(c, turns, Session(c, turns))
  {
    hide Timed, Next;
    if |turns| == 0 {
      NothingTimed(c);
    } else {
      CompletePeriodsAreFull(c, turns[..|turns| - 1]);
      TimedTurn(c, turns, Session(c, turns[..|turns| - 1]));
    }
  }

  lemma NothingTimed(c: Config)
    ensures Timed(c, [], BEGIN)
  {
  }

  lemma TimedTurn(c: Config, turns: seq<Turn>, s: Control)
    requires |turns| > 0 && Timed(c, turns[..|turns| - 1], s)
    ensures Timed(c, turns, Next(c, s, turns[|turns| - 1]))
  {
    var n := |turns| - 1;
    var before := turns[..n];
    if s.stopAt != 0.0 {
      var i: nat :| Starts(before, i) && s.stopAt == before[i].later + c.seconds;
      assert Starts(turns, i) && turns[i] == before[i];
    } else if Next(c, s, turns[n]).stopAt != 0.0 {
      assert Starts(turns, n);
    }
    if s.end == Some(PeriodComplete) {
      var i: nat, j: nat :| Starts(before, i) && i < j < |before| && before[j].now >= before[i].later + c.seconds;
      assert Starts(turns, i) && turns[i] == before[i] && turns[j] == before[j];
    }
  }

  lemma {:induction false} NoLimitNoLimitEnd(c: Config, turns: seq<Turn>)
    requires c.runUntil == 0.0
    ensures Session(c, turns).end != Some(RuntimeLimit)
  {
    if |turns| > 0 {
      NoLimitNoLimitEnd(c, turns[..|turns| - 1]);
    }
  }

  /** What the core counts as a completed phase, a result of 0 without a stop, was authorized work for the whole
      phase: the core sets no run limit. */
  lemma ZeroMeansFullPeriod(c: Config, turns: seq<Turn>)
    requires c.runUntil == 0.0 && Session(c, turns).end.Some?
    requires Session(c, turns).end.value.Result() == 0 && Session(c, turns).end != Some(Stopped)
    ensures exists i: nat, j: nat :: Starts(turns, i) && i < j < |turns| && turns[j].now >= turns[i].later + c.seconds
  {
    hide Starts, Next;
    NoLimitNoLimitEnd(c, turns);
    CompletePeriodsAreFull(c, turns);
  }

  /** A session without a schedule never completes a period. */
  lemma {:induction false} NoScheduleNoPeriod(c: Config, turns: seq<Turn>)
    requires c.seconds == 0.0
    ensures Session(c, turns).stopAt == 0.0 && Session(c, turns).end != Some(PeriodComplete)
  {
    if |turns| > 0 {
      NoScheduleNoPeriod(c, turns[..|turns| - 1]);
    }
  }

  /** Without a schedule or a run limit, as the core runs it without donation, a result of 0 means the session was
      stopped: there is no success that could count. */
  lemma ZeroMeansStopped(c: Config, turns: seq<Turn>)
    requires c.runUntil == 0.0 && c.seconds == 0.0 && Session(c, turns).end.Some?
    ensures Session(c, turns).end.value.Result() == 0 <==> Session(c, turns).end == Some(Stopped)
  {
    hide Next;
    NoLimitNoLimitEnd(c, turns);
    NoScheduleNoPeriod(c, turns);
  }

  ghost predicate SentOnce(s: Control) {
    s.requests in (if s.authorizeSent && s.suggestSent then {[Authorize, Suggest], [Suggest, Authorize]}
                   else if s.authorizeSent then {[Authorize]}
                   else if s.suggestSent then {[Suggest]}
                   else {[]})
  }

  /** A session authorizes at most once and asks for a difficulty at most once. */
  lemma {:induction false} RequestsOnce(c: Config, turns: seq<Turn>)
    ensures SentOnce(Session(c, turns))
  {
    hide EndOf, Next, SentOnce;
    if |turns| == 0 {
      NothingSent();
    } else {
      RequestsOnce(c, turns[..|turns| - 1]);
      SentOnceTurn(c, Session(c, turns[..|turns| - 1]), turns[|turns| - 1]);
    }
  }

  lemma NothingSent()
    ensures SentOnce(BEGIN)
  {
  }

  lemma SentOnceTurn(c: Config, s: Control, t: Turn)
    requires SentOnce(s)
    ensures SentOnce(Next(c, s, t))
  {
    hide EndOf;
    assert [Authorize] == [] + [Authorize];
    assert [Suggest] == [] + [Suggest];
    assert [Authorize, Suggest] == [Authorize] + [Suggest];
    assert [Suggest, Authorize] == [Suggest] + [Authorize];
  }

  // What is sent, when the clock starts and how the session ends, told by the turns

  /** Turn `i` comes before the session's end, passes the checks and reads a line. */
  ghost predicate Line(c: Config, turns: seq<Turn>, i: nat) {
    i < |turns| && var s, t := Session(c, turns[..i]), turns[i];
    && s.end.None? && !t.stopRequested && !(c.runUntil > 0.0 && t.now >= c.runUntil)
    && !(s.stopAt > 0.0 && t.now >= s.stopAt) && t.flushOk && t.read > 0
  }

  ghost predicate SubscribedAt(c: Config, turns: seq<Turn>, i: nat) { Line(c, turns, i) && turns[i].subscribed }

  ghost predicate AsksAt(c: Config, turns: seq<Turn>, i: nat) {
    Line(c, turns, i) && turns[i].authorized && c.suggest > 0.0
  }

  /** The authorization is due in the first turn that reads a line with the session subscribed. */
  ghost predicate AuthorizeDue(c: Config, turns: seq<Turn>, i: nat) {
    SubscribedAt(c, turns, i) && forall j: nat :: j < i ==> !SubscribedAt(c, turns, j)
  }

  /** The suggestion is due in the first that reads a line with it authorized, unless the authorization of that turn
      fails. */
  ghost predicate SuggestDue(c: Config, turns: seq<Turn>, i: nat) {
    && AsksAt(c, turns, i) && (forall j: nat :: j < i ==> !AsksAt(c, turns, j))
    && (AuthorizeDue(c, turns, i) ==> turns[i].authorizeOk)
  }

  /** All that is due in turn `i` is sent. */
  ghost predicate SendsWork(c: Config, turns: seq<Turn>, i: nat)
    requires i < |turns|
  {
    && (AuthorizeDue(c, turns, i) ==> turns[i].authorizeOk)
    && (SuggestDue(c, turns, i) ==> turns[i].suggestOk)
  }

  /** The session is authorized and has work. */
  ghost predicate WorksAt(c: Config, turns: seq<Turn>, i: nat) {
    Line(c, turns, i) && turns[i].authorized && turns[i].notified && SendsWork(c, turns, i)
  }

  ghost predicate ClockStarts(c: Config, turns: seq<Turn>, i: nat) {
    WorksAt(c, turns, i) && forall j: nat :: j < i ==> !WorksAt(c, turns, j)
  }

  /** What the loop has done, as the turns say it. */
  ghost predicate Done(c: Config, turns: seq<Turn>, s: Control) {
    && (Authorize in s.requests <==> Authorizes(c, turns)) && (Suggest in s.requests <==> Suggests(c, turns))
    && (s.stopAt > 0.0 <==> c.seconds > 0.0 && exists i: nat :: WorksAt(c, turns, i))
    && (forall i: nat :: c.seconds > 0.0 && ClockStarts(c, turns, i) ==> s.stopAt == turns[i].later + c.seconds)
  }

  /** The loop's flags, while the session lasts. */
  ghost predicate Flags(c: Config, turns: seq<Turn>, s: Control) {
    && (s.authorizeSent <==> exists i: nat :: SubscribedAt(c, turns, i))
    && (s.suggestSent <==> exists i: nat :: AsksAt(c, turns, i))
    && s.stopAt >= 0.0
  }

  /** How turn `n` ends the session, if it does: the checks in their order, then the sends. */
  ghost predicate EndsRightly(c: Config, turns: seq<Turn>, n: nat, s: Control, end: Option<End>)
    requires n < |turns|
  {
    var t := turns[n];
    var limit, over := c.runUntil > 0.0 && t.now >= c.runUntil, s.stopAt > 0.0 && t.now >= s.stopAt;
    && (end == Some(Stopped) <==> t.stopRequested)
    && (end == Some(RuntimeLimit) <==> !t.stopRequested && limit)
    && (end == Some(PeriodComplete) <==> !t.stopRequested && !limit && over)
    && (end == Some(SubmitFailed) <==> !t.stopRequested && !limit && !over && !t.flushOk)
    && (end == Some(ReadFailed) <==>
          !t.stopRequested && !limit && !over && t.flushOk && t.read <= 0 && t.read != -3)
    && (end == Some(SendFailed) <==> Line(c, turns, n) && !SendsWork(c, turns, n))
    && (end.Some? ==> end.value.Result() == if t.stopRequested || limit || over then 0 else 1)
  }

  lemma LineIsEarly(c: Config, turns: seq<Turn>, t: Turn, i: nat)
    ensures i < |turns| ==> (Line(c, turns + [t], i) <==> Line(c, turns, i))
    ensures i > |turns| ==> !Line(c, turns + [t], i)
    ensures i >= |turns| ==> !Line(c, turns, i)
  {
    if i < |turns| {
      assert (turns + [t])[..i] == turns[..i];
    }
  }

  lemma EarlyLine(c: Config, turns: seq<Turn>, t: Turn, i: nat)
    requires i < |turns|
    ensures SubscribedAt(c, turns + [t], i) <==> SubscribedAt(c, turns, i)
    ensures AsksAt(c, turns + [t], i) <==> AsksAt(c, turns, i)
  {
    hide Line;
    LineIsEarly(c, turns, t, i);
  }

  lemma EarlyDue(c: Config, turns: seq<Turn>, t: Turn, i: nat)
    requires i < |turns|
    ensures AuthorizeDue(c, turns + [t], i) <==> AuthorizeDue(c, turns, i)
    ensures SuggestDue(c, turns + [t], i) <==> SuggestDue(c, turns, i)
    ensures WorksAt(c, turns + [t], i) <==> WorksAt(c, turns, i)
  {
    hide Line, SubscribedAt, AsksAt;
    forall j: nat | j <= i
      ensures SubscribedAt(c, turns + [t], j) <==> SubscribedAt(c, turns, j)
      ensures AsksAt(c, turns + [t], j) <==> AsksAt(c, turns, j)
    {
      EarlyLine(c, turns, t, j);
    }
    LineIsEarly(c, turns, t, i);
  }

  /** What holds of an earlier turn holds of it in a longer session too. */
  lemma Early(c: Config, turns: seq<Turn>, t: Turn, i: nat)
    requires i < |turns|
    ensures SubscribedAt(c, turns + [t], i) <==> SubscribedAt(c, turns, i)
    ensures AsksAt(c, turns + [t], i) <==> AsksAt(c, turns, i)
    ensures AuthorizeDue(c, turns + [t], i) <==> AuthorizeDue(c, turns, i)
    ensures SuggestDue(c, turns + [t], i) <==> SuggestDue(c, turns, i)
    ensures WorksAt(c, turns + [t], i) <==> WorksAt(c, turns, i)
    ensures ClockStarts(c, turns + [t], i) <==> ClockStarts(c, turns, i)
  {
    hide Line, SubscribedAt, AsksAt, AuthorizeDue, SuggestDue, WorksAt;
    EarlyLine(c, turns, t, i);
    EarlyDue(c, turns, t, i);
    forall j: nat | j <= i
      ensures WorksAt(c, turns + [t], j) <==> WorksAt(c, turns, j)
    {
      EarlyDue(c, turns, t, j);
    }
  }

  lemma Beyond(c: Config, turns: seq<Turn>, t: Turn, i: nat)
    requires i > |turns|
    ensures !SubscribedAt(c, turns + [t], i) && !AsksAt(c, turns + [t], i) && !WorksAt(c, turns + [t], i)
  {
    LineIsEarly(c, turns, t, i);
  }

  /** Turn `n` after the turns before it. */
  lemma LastTurn(c: Config, turns: seq<Turn>, t: Turn)
    requires Flags(c, turns, Session(c, turns))
    ensures var all, s, n := turns + [t], Session(c, turns), |turns|;
            && (AuthorizeDue(c, all, n) <==> SubscribedAt(c, all, n) && !s.authorizeSent)
            && (SuggestDue(c, all, n) <==>
                  AsksAt(c, all, n) && !s.suggestSent && (AuthorizeDue(c, all, n) ==> t.authorizeOk))
  {
    hide Line, Session;
    var all, n := turns + [t], |turns|;
    forall j: nat | j < n
      ensures SubscribedAt(c, all, j) <==> SubscribedAt(c, turns, j)
      ensures AsksAt(c, all, j) <==> AsksAt(c, turns, j)
    {
      Early(c, turns, t, j);
    }
    forall j: nat | j >= n
      ensures !SubscribedAt(c, turns, j) && !AsksAt(c, turns, j)
    {
      LineIsEarly(c, turns, t, j);
    }
  }

  /** Nothing before the first turn. */
  lemma NothingDone(c: Config)
    ensures Done(c, [], BEGIN) && Flags(c, [], BEGIN)
  {
    hide Session;
  }

  lemma RequestsTurn(c: Config, turns: seq<Turn>, t: Turn)
    requires var s := Session(c, turns); s.end.None? && Done(c, turns, s) && Flags(c, turns, s)
    ensures var all, s, next := turns + [t], Session(c, turns), Next(c, Session(c, turns), t);
            var n := |turns|;
            && (Authorize in next.requests <==>
                  Authorize in s.requests || (AuthorizeDue(c, all, n) && t.authorizeOk))
            && (Suggest in next.requests <==>
                  Suggest in s.requests || (SuggestDue(c, all, n) && t.suggestOk))
            && (next.end.Some? && !EndOf(c, s, t).Some? <==> Line(c, all, n) && !SendsWork(c, all, n))
            && (next.end.None? ==>
                  && (next.authorizeSent <==> s.authorizeSent || SubscribedAt(c, all, n))
                  && (next.suggestSent <==> s.suggestSent || AsksAt(c, all, n)))
            && next.stopAt == if s.stopAt == 0.0 && c.seconds > 0.0 && WorksAt(c, all, n) then t.later + c.seconds
                              else s.stopAt
  {
    hide Session, Done, Flags, AuthorizeDue, SuggestDue;
    LastTurn(c, turns, t);
    assert (turns + [t])[..|turns|] == turns;
  }

  ghost predicate Authorizes(c: Config, turns: seq<Turn>) {
    exists i: nat :: AuthorizeDue(c, turns, i) && turns[i].authorizeOk
  }

  ghost predicate Suggests(c: Config, turns: seq<Turn>) {
    exists i: nat :: SuggestDue(c, turns, i) && turns[i].suggestOk
  }

  /** One more turn adds what it does itself. */
  lemma OneMoreTurn(c: Config, turns: seq<Turn>, t: Turn)
    ensures var all, n := turns + [t], |turns|;
            && ((exists i: nat :: SubscribedAt(c, all, i)) <==>
                  (exists i: nat :: SubscribedAt(c, turns, i)) || SubscribedAt(c, all, n))
            && ((exists i: nat :: AsksAt(c, all, i)) <==> (exists i: nat :: AsksAt(c, turns, i)) || AsksAt(c, all, n))
            && ((exists i: nat :: WorksAt(c, all, i)) <==>
                  (exists i: nat :: WorksAt(c, turns, i)) || WorksAt(c, all, n))
            && (Authorizes(c, all) <==> Authorizes(c, turns) || (AuthorizeDue(c, all, n) && t.authorizeOk))
            && (Suggests(c, all) <==> Suggests(c, turns) || (SuggestDue(c, all, n) && t.suggestOk))
  {
    var all, n := turns + [t], |turns|;
    forall i: nat | i < n
      ensures all[i] == turns[i]
      ensures SubscribedAt(c, all, i) <==> SubscribedAt(c, turns, i)
      ensures AsksAt(c, all, i) <==> AsksAt(c, turns, i)
      ensures WorksAt(c, all, i) <==> WorksAt(c, turns, i)
      ensures AuthorizeDue(c, all, i) <==> AuthorizeDue(c, turns, i)
      ensures SuggestDue(c, all, i) <==> SuggestDue(c, turns, i)
    {
      Early(c, turns, t, i);
    }
    hide Line, WorksAt, SuggestDue, AuthorizeDue, SubscribedAt, AsksAt;
    forall i: nat
      ensures i > n ==> !SubscribedAt(c, all, i) && !AsksAt(c, all, i) && !WorksAt(c, all, i)
      ensures i > n ==> !AuthorizeDue(c, all, i) && !SuggestDue(c, all, i)
      ensures i >= n ==> !SubscribedAt(c, turns, i) && !AsksAt(c, turns, i) && !WorksAt(c, turns, i)
      ensures i >= n ==> !AuthorizeDue(c, turns, i) && !SuggestDue(c, turns, i)
    {
      NotYet(c, turns, t, i);
    }
  }

  lemma NotYet(c: Config, turns: seq<Turn>, t: Turn, i: nat)
    ensures i > |turns| ==> !SubscribedAt(c, turns + [t], i) && !AsksAt(c, turns + [t], i)
    ensures i > |turns| ==> !WorksAt(c, turns + [t], i)
    ensures i > |turns| ==> !AuthorizeDue(c, turns + [t], i) && !SuggestDue(c, turns + [t], i)
    ensures i >= |turns| ==> !SubscribedAt(c, turns, i) && !AsksAt(c, turns, i) && !WorksAt(c, turns, i)
    ensures i >= |turns| ==> !AuthorizeDue(c, turns, i) && !SuggestDue(c, turns, i)
  {
    hide SendsWork;
    LineIsEarly(c, turns, t, i);
  }

  ghost predicate Tells(c: Config, turns: seq<Turn>, s: Control) {
    Done(c, turns, s) && (s.end.None? ==> Flags(c, turns, s))
  }

  lemma ClockTurn(c: Config, turns: seq<Turn>, t: Turn, i: nat)
    requires Tells(c, turns, Session(c, turns)) && c.seconds > 0.0 && ClockStarts(c, turns + [t], i)
    ensures Next(c, Session(c, turns), t).stopAt == (turns + [t])[i].later + c.seconds
  {
    hide Session, SendsWork, EndOf, Next;
    var all, n := turns + [t], |turns|;
    OneMoreTurn(c, turns, t);
    NotYet(c, turns, t, i);
    if i < n {
      Early(c, turns, t, i);
      assert Session(c, turns).stopAt == turns[i].later + c.seconds;
      StopStays(c, Session(c, turns), t);
    } else {
      forall j: nat
        ensures !WorksAt(c, turns, j)
      {
        if j < n {
          Early(c, turns, t, j);
        } else {
          NotYet(c, turns, t, j);
        }
      }
      assert Session(c, turns).end.None? by { assert all[..n] == turns; }
      RequestsTurn(c, turns, t);
    }
  }

  lemma StopStays(c: Config, s: Control, t: Turn)
    requires s.stopAt > 0.0
    ensures Next(c, s, t).stopAt == s.stopAt
  {
  }

  lemma DoneTurn(c: Config, turns: seq<Turn>, t: Turn)
    requires Tells(c, turns, Session(c, turns))
    ensures Tells(c, turns + [t], Next(c, Session(c, turns), t))
  {
    hide Session, SendsWork, EndOf, Authorizes, Suggests;
    var all, n, s := turns + [t], |turns|, Session(c, turns);
    OneMoreTurn(c, turns, t);
    assert all[..n] == turns;
    if s.end.None? {
      RequestsTurn(c, turns, t);
    }
    hide AuthorizeDue, SuggestDue, WorksAt, SubscribedAt, AsksAt, Next;
    forall i: nat | c.seconds > 0.0 && ClockStarts(c, all, i)
      ensures Next(c, s, t).stopAt == all[i].later + c.seconds
    {
      ClockTurn(c, turns, t, i);
    }
  }

  /** In every session: the authorization is sent if and only if it was due and its send worked, and so is the
      suggestion; the clock runs if and only if there is a schedule and the session was authorized with work, and then
      from the first turn that was. */
  lemma {:induction false} SentWhenDue(c: Config, turns: seq<Turn>)
    ensures Tells(c, turns, Session(c, turns))
  {
    hide Next, Tells;
    if |turns| == 0 {
      NothingDone(c);
      assert Tells(c, [], BEGIN) by { NothingTold(c); }
    } else {
      var n := |turns| - 1;
      SentWhenDue(c, turns[..n]);
      DoneTurn(c, turns[..n], turns[n]);
      assert turns[..n] + [turns[n]] == turns;
    }
  }

  lemma NothingTold(c: Config)
    ensures Tells(c, [], BEGIN)
  {
    NothingDone(c);
  }

  /** Every session ends in the turn that gives it a reason, and with that reason. */
  lemma EndsWithReason(c: Config, turns: seq<Turn>, n: nat)
    requires n < |turns| && Session(c, turns[..n]).end.None?
    ensures EndsRightly(c, turns[..n + 1], n, Session(c, turns[..n]), Session(c, turns[..n + 1]).end)
  {
    hide Session, SendsWork;
    var before, t := turns[..n], turns[n];
    SessionNext(c, before, t);
    SentWhenDue(c, before);
    RequestsTurn(c, before, t);
    assert turns[..n + 1] == before + [t] && (before + [t])[..n] == before;
  }

  lemma SessionNext(c: Config, turns: seq<Turn>, t: Turn)
    ensures Session(c, turns + [t]) == Next(c, Session(c, turns), t)
  {
    hide Next;
    assert (turns + [t])[..|turns|] == turns;
  }
}
