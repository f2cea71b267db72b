/**
 Which deliveries an OpenCL launch can make, and exactly when every one of them is right: how many callbacks come of a
 counter of 32 bits, that any calls may be the first, and what the 32-bit row index asks of the buffer.
 */
module OpenClOrders {
  import opened Words
  import opened Scan
  import opened OpenClGrid
  import opened OpenClResults

  /** A buffer of the right size, and a schedule at whose end every call is finished. */
  ghost predicate LaunchEnds(hits: seq<Match>, maxResults: U32, matches: seq<Word>, schedule: seq<nat>) {
    |matches| == 9 * maxResults && Within(schedule, |hits|)
    && Finished(Run(Launch(hits, matches), hits, maxResults, schedule), maxResults)
  }

  ghost function After(hits: seq<Match>, maxResults: U32, matches: seq<Word>, schedule: seq<nat>): (d: Device)
    requires LaunchEnds(hits, maxResults, matches, schedule)
    ensures |d.calls| == |hits| && |d.matches| == 9 * maxResults && Finished(d, maxResults)
  {
    Run(Launch(hits, matches), hits, maxResults, schedule)
  }

  /** The host may have made these callbacks so far: they come first in what some launch delivers. */
  ghost predicate MayDeliver(hits: seq<Match>, maxResults: U32, callbacks: seq<Match>) {
    exists matches: seq<Word>, schedule: seq<nat> ::
      LaunchEnds(hits, maxResults, matches, schedule)
      && callbacks <= Delivered(After(hits, maxResults, matches, schedule), maxResults)
  }

  // The counter

  /** Every call that is storing drew one ticket, and the counter counts the tickets modulo 2^32. */
  ghost predicate Counted(d: Device) {
    && d.count == Wrap32(|d.tickets|)
    && Distinct(d.tickets) && OpenClResults.Within(d.tickets, |d.calls|)
    && (forall i :: 0 <= i < |d.tickets| ==> d.calls[d.tickets[i]].Storing?)
    && (forall w :: 0 <= w < |d.calls| && d.calls[w].Storing? ==> w in d.tickets)
  }

  lemma CountedStep(d: Device, hits: seq<Match>, maxResults: U32, who: nat)
    requires |d.calls| == |hits| && |d.matches| == 9 * maxResults && who < |hits| && Counted(d)
    ensures Counted(Step(d, hits, maxResults, who))
  {
    hide RowOf;
    var next := Step(d, hits, maxResults, who);
    if d.calls[who].Waiting? {
      WrapNext(|d.tickets|);
      assert next.tickets[|d.tickets|] == who;
      forall w | 0 <= w < |next.calls| && next.calls[w].Storing?
        ensures w in next.tickets
      {
        if w != who {
          assert w in d.tickets;
        }
      }
    }
  }

  lemma WrapNext(n: nat)
    ensures Wrap32(Wrap32(n) + 1) == Wrap32(n + 1)
  {
  }

  lemma {:induction false} RunCounted(hits: seq<Match>, maxResults: U32, matches: seq<Word>, schedule: seq<nat>)
    requires |matches| == 9 * maxResults && Within(schedule, |hits|)
    ensures Counted(Run(Launch(hits, matches), hits, maxResults, schedule))
  {
    hide Step, Counted;
    if |schedule| == 0 {
      NothingCounted(hits, matches);
    } else {
      var before := schedule[..|schedule| - 1];
      RunCounted(hits, maxResults, matches, before);
      CountedStep(Run(Launch(hits, matches), hits, maxResults, before), hits, maxResults, schedule[|schedule| - 1]);
    }
  }

  lemma NothingCounted(hits: seq<Match>, matches: seq<Word>)
    ensures Counted(Launch(hits, matches))
  {
  }

  lemma EveryCallCounted(d: Device)
    requires Counted(d) && forall w :: 0 <= w < |d.calls| ==> d.calls[w].Storing?
    ensures |d.tickets| == |d.calls|
  {
    PickDistinct(d.calls, d.tickets);
    var places := seq(|d.calls|, w requires 0 <= w < |d.calls| => PlaceIn(d.tickets, w));
    forall v, w | 0 <= v < w < |places|
      ensures places[v] != places[w]
    {
    }
    PickDistinct(d.tickets, places);
  }

  ghost function PlaceIn(tickets: seq<nat>, w: nat): (i: nat)
    ensures w in tickets ==> i < |tickets| && tickets[i] == w
  {
    if w in tickets then
      var i :| 0 <= i < |tickets| && tickets[i] == w; i
    else 0
  }

  /** Every launch delivers as many callbacks as its counter says, and the counter comes around at 2^32 hits. */
  lemma DeliveredCount(hits: seq<Match>, maxResults: U32, matches: seq<Word>, schedule: seq<nat>)
    requires LaunchEnds(hits, maxResults, matches, schedule)
    ensures |Delivered(After(hits, maxResults, matches, schedule), maxResults)| == Min(Wrap32(|hits|), maxResults)
  {
    hide Run, Delivered, Launch;
    RunCounted(hits, maxResults, matches, schedule);
    var d := After(hits, maxResults, matches, schedule);
    forall w | 0 <= w < |d.calls|
      ensures d.calls[w].Storing?
    {
      assert d.calls[w] in d.calls;
    }
    EveryCallCounted(d);
  }

  /** It reports `min(hits, maxResults)` of them if and only if the counter did not come around past the buffer. */
  lemma CountIsExactIff(hits: seq<Match>, maxResults: U32, matches: seq<Word>, schedule: seq<nat>)
    requires LaunchEnds(hits, maxResults, matches, schedule)
    ensures |Delivered(After(hits, maxResults, matches, schedule), maxResults)| == Min(|hits|, maxResults)
       <==> |hits| < U32_LIMIT || |hits| % U32_LIMIT >= maxResults
  {
    hide Run, Delivered, After;
    DeliveredCount(hits, maxResults, matches, schedule);
  }

  // Any calls may be the first

  /** Tickets and calls are in step, and no call has written more than its nine words. */
  ghost predicate Moving(d: Device) {
    Ticketed(d) && forall w :: 0 <= w < |d.calls| && d.calls[w].Storing? ==> d.calls[w].stored <= 9
  }

  ghost predicate Complete(call: Call, maxResults: U32) {
    call.Storing? && (call.idx >= maxResults || call.stored == 9)
  }

  /** What a step of `who` leaves alone, and what it does. */
  ghost predicate Moved(d: Device, next: Device, maxResults: U32, who: nat)
    requires who < |d.calls| == |next.calls|
  {
    && Moving(next)
    && (forall w :: 0 <= w < |d.calls| && w != who ==> next.calls[w] == d.calls[w])
    && next.tickets == (if d.calls[who].Waiting? then d.tickets + [who] else d.tickets)
    && next.calls[who].Storing?
    && (Complete(d.calls[who], maxResults) ==> next.calls[who] == d.calls[who])
  }

  lemma MovedStep(d: Device, hits: seq<Match>, maxResults: U32, who: nat)
    requires |d.calls| == |hits| < U32_LIMIT && |d.matches| == 9 * maxResults && who < |hits| && Moving(d)
    ensures var next := Step(d, hits, maxResults, who);
            && Moved(d, next, maxResults, who)
            && (d.calls[who].Storing? && !Complete(d.calls[who], maxResults) ==>
                  next.calls[who] == Storing(d.calls[who].idx, d.calls[who].stored + 1))
  {
    hide RowOf;
    if d.calls[who].Waiting? {
      DrawKeepsTickets(d, hits, maxResults, who);
    }
  }

  /** `k` operations of one call in a row. */
  ghost function Turns(d: Device, hits: seq<Match>, maxResults: U32, who: nat, k: nat): (end: Device)
    requires |d.calls| == |hits| && |d.matches| == 9 * maxResults && who < |hits|
    ensures |end.calls| == |hits| && |end.matches| == 9 * maxResults
  {
    if k == 0 then d else Step(Turns(d, hits, maxResults, who, k - 1), hits, maxResults, who)
  }

  lemma {:induction false} TurnsMove(d: Device, hits: seq<Match>, maxResults: U32, who: nat, k: nat)
    requires |d.calls| == |hits| < U32_LIMIT && |d.matches| == 9 * maxResults && who < |hits| && Moving(d)
    requires 0 < k <= 10
    ensures var end := Turns(d, hits, maxResults, who, k);
            && Moved(d, end, maxResults, who)
            && (Complete(end.calls[who], maxResults) || end.calls[who].stored >= k - 1)
  {
    hide Step, Moving;
    if k == 1 {
      assert Turns(d, hits, maxResults, who, 0) == d;
      MovedStep(d, hits, maxResults, who);
    } else {
      TurnsMove(d, hits, maxResults, who, k - 1);
      MovedStep(Turns(d, hits, maxResults, who, k - 1), hits, maxResults, who);
    }
  }

  lemma TenTurnsComplete(d: Device, hits: seq<Match>, maxResults: U32, who: nat)
    requires |d.calls| == |hits| < U32_LIMIT && |d.matches| == 9 * maxResults && who < |hits| && Moving(d)
    ensures var end := Turns(d, hits, maxResults, who, 10);
            Moved(d, end, maxResults, who) && Complete(end.calls[who], maxResults)
  {
    hide Turns, Ticketed;
    TurnsMove(d, hits, maxResults, who, 10);
  }

  /** Each call of `order` in turn, from beginning to end. */
  function Tens(order: seq<nat>): (schedule: seq<nat>)
  {
    if |order| == 0 then [] else Tens(order[..|order| - 1]) + seq(10, _ => order[|order| - 1])
  }

  lemma {:induction false} TensWithin(order: seq<nat>, n: nat)
    requires Within(order, n)
    ensures Within(Tens(order), n)
  {
    if |order| > 0 {
      TensWithin(order[..|order| - 1], n);
    }
  }

  lemma {:induction false} RunThenTurns(d: Device, hits: seq<Match>, maxResults: U32, schedule: seq<nat>, who: nat,
                                        k: nat)
    requires |d.calls| == |hits| && |d.matches| == 9 * maxResults && Within(schedule, |hits|) && who < |hits|
    ensures Within(schedule + seq(k, _ => who), |hits|)
    ensures Run(d, hits, maxResults, schedule + seq(k, _ => who))
         == Turns(Run(d, hits, maxResults, schedule), hits, maxResults, who, k)
  {
    hide Step;
    var all := schedule + seq(k, _ => who);
    if k == 0 {
      assert all == schedule;
    } else {
      RunThenTurns(d, hits, maxResults, schedule, who, k - 1);
      assert all[..|all| - 1] == schedule + seq(k - 1, _ => who);
    }
  }

  /** Serving calls one after the other completes them, keeps what was complete, and hands out tickets in order. */
  ghost predicate Served(d: Device, maxResults: U32, order: seq<nat>) {
    && Moving(d) && Within(order, |d.calls|)
    && (forall i :: 0 <= i < |order| ==> Complete(d.calls[order[i]], maxResults))
    && (forall w :: 0 <= w < |d.calls| && d.calls[w].Storing? ==> w in order)
  }

  lemma {:induction false} ServeInOrder(hits: seq<Match>, maxResults: U32, matches: seq<Word>, order: seq<nat>)
    requires |hits| < U32_LIMIT && |matches| == 9 * maxResults && Within(order, |hits|)
    ensures Within(Tens(order), |hits|)
    ensures Served(Run(Launch(hits, matches), hits, maxResults, Tens(order)), maxResults, order)
  {
    hide Step, Turns, Moving, Complete;
    TensWithin(order, |hits|);
    if |order| == 0 {
      StartServed(hits, maxResults, matches);
    } else {
      var before, who := order[..|order| - 1], order[|order| - 1];
      ServeInOrder(hits, maxResults, matches, before);
      var d := Run(Launch(hits, matches), hits, maxResults, Tens(before));
      RunThenTurns(Launch(hits, matches), hits, maxResults, Tens(before), who, 10);
      TenTurnsComplete(d, hits, maxResults, who);
      ServedNext(d, Turns(d, hits, maxResults, who, 10), maxResults, before, who);
      assert before + [who] == order;
    }
  }

  lemma StartServed(hits: seq<Match>, maxResults: U32, matches: seq<Word>)
    requires |matches| == 9 * maxResults
    ensures Served(Run(Launch(hits, matches), hits, maxResults, []), maxResults, [])
  {
  }

  lemma ServedNext(d: Device, next: Device, maxResults: U32, order: seq<nat>, who: nat)
    requires who < |d.calls| == |next.calls| && Served(d, maxResults, order) && Moved(d, next, maxResults, who)
    requires Complete(next.calls[who], maxResults)
    ensures Served(next, maxResults, order + [who])
  {
    hide Moving, Complete;
    forall i | 0 <= i < |order + [who]|
      ensures Complete(next.calls[(order + [who])[i]], maxResults)
    {
    }
  }

  /** A call draws its ticket when it is served for the first time. */
  lemma NextTicket(hits: seq<Match>, maxResults: U32, matches: seq<Word>, before: seq<nat>, who: nat)
    requires |hits| < U32_LIMIT && |matches| == 9 * maxResults && Within(before, |hits|) && who < |hits|
    ensures Within(Tens(before), |hits|) && Within(Tens(before + [who]), |hits|)
    ensures Run(Launch(hits, matches), hits, maxResults, Tens(before + [who])).tickets ==
            Run(Launch(hits, matches), hits, maxResults, Tens(before)).tickets + if who in before then [] else [who]
  {
    hide Step, Turns, Moving, Launch, Run;
    ServeInOrder(hits, maxResults, matches, before);
    assert (before + [who])[..|before|] == before;
    RunThenTurns(Launch(hits, matches), hits, maxResults, Tens(before), who, 10);
    TenTurnsComplete(Run(Launch(hits, matches), hits, maxResults, Tens(before)), hits, maxResults, who);
  }

  /** Calls that come first in the order draw the first tickets. */
  lemma {:induction false} FirstTickets(hits: seq<Match>, maxResults: U32, matches: seq<Word>, picks: seq<nat>,
                                        more: seq<nat>)
    requires |hits| < U32_LIMIT && |matches| == 9 * maxResults
    requires Within(picks, |hits|) && Within(more, |hits|) && Distinct(picks)
    ensures Within(Tens(picks + more), |hits|)
    ensures picks <= Run(Launch(hits, matches), hits, maxResults, Tens(picks + more)).tickets
    ensures |more| == 0 ==> picks == Run(Launch(hits, matches), hits, maxResults, Tens(picks + more)).tickets
    decreases |picks| + |more|
  {
    hide Launch, Step, Tens;
    TensWithin(picks + more, |hits|);
    if |more| > 0 {
      var before, who := more[..|more| - 1], more[|more| - 1];
      FirstTickets(hits, maxResults, matches, picks, before);
      assert picks + before + [who] == picks + more;
      NextTicket(hits, maxResults, matches, picks + before, who);
    } else if |picks| > 0 {
      var before, who := picks[..|picks| - 1], picks[|picks| - 1];
      assert before + [] == before && before + [who] == picks + more;
      FirstTickets(hits, maxResults, matches, before, []);
      assert who !in before;
      NextTicket(hits, maxResults, matches, before, who);
    } else {
      NoTickets(hits, maxResults, matches);
      assert picks + more == [];
    }
  }

  lemma NoTickets(hits: seq<Match>, maxResults: U32, matches: seq<Word>)
    requires |matches| == 9 * maxResults
    ensures Tens([]) == [] && Run(Launch(hits, matches), hits, maxResults, []).tickets == []
  {
  }

  /** For any calls there is an order in which they draw the first tickets and the launch ends. */
  lemma SomeOrder(hits: seq<Match>, maxResults: U32, matches: seq<Word>, picks: seq<nat>) returns (schedule: seq<nat>)
    requires |hits| < U32_LIMIT && |matches| == 9 * maxResults && Within(picks, |hits|) && Distinct(picks)
    ensures LaunchEnds(hits, maxResults, matches, schedule)
    ensures picks <= After(hits, maxResults, matches, schedule).tickets
  {
    hide Run, Launch, Tens, Moving;
    var all := seq(|hits|, i => i);
    schedule := Tens(picks + all);
    ServeInOrder(hits, maxResults, matches, picks + all);
    FirstTickets(hits, maxResults, matches, picks, all);
    var d := Run(Launch(hits, matches), hits, maxResults, schedule);
    forall call <- d.calls
      ensures call.Storing? && (call.idx >= maxResults || call.stored == 9)
    {
      var w :| 0 <= w < |d.calls| && d.calls[w] == call;
      assert (picks + all)[|picks| + w] == w;
    }
  }

  /** Any hits, at most as many as the buffer holds, may be the first the host reports. */
  lemma AnyMayComeFirst(hits: seq<Match>, maxResults: U32, picks: seq<nat>)
    requires |hits| < U32_LIMIT && 9 * Min(|hits|, maxResults) <= U32_LIMIT
    requires Within(picks, |hits|) && Distinct(picks) && |picks| <= maxResults
    ensures MayDeliver(hits, maxResults, Picked(hits, picks))
  {
    hide Run, Launch, Delivered, Finished, After, LaunchEnds;
    var matches: seq<Word> := seq(9 * maxResults, _ => 0);
    var schedule := SomeOrder(hits, maxResults, matches, picks);
    FirstDelivered(hits, maxResults, matches, schedule, picks);
  }

  /** So may the first hits in the order of the offsets. */
  lemma FirstMayComeFirst(hits: seq<Match>, maxResults: U32, k: nat)
    requires |hits| < U32_LIMIT && 9 * Min(|hits|, maxResults) <= U32_LIMIT && k <= Min(|hits|, maxResults)
    ensures MayDeliver(hits, maxResults, hits[..k])
  {
    hide MayDeliver;
    var picks: seq<nat> := seq(k, i => i);
    AnyMayComeFirst(hits, maxResults, picks);
    assert Picked(hits, picks) == hits[..k];
  }

  /** What the host may report is a part of the hits, and no more than the buffer holds. */
  lemma OnlyHits(hits: seq<Match>, maxResults: U32, callbacks: seq<Match>)
    requires |hits| < U32_LIMIT && 9 * Min(|hits|, maxResults) <= U32_LIMIT && MayDeliver(hits, maxResults, callbacks)
    ensures multiset(callbacks) <= multiset(hits) && |callbacks| <= maxResults
  {
    hide Run, Launch, Delivered, LaunchEnds;
    var matches: seq<Word>, schedule: seq<nat> :|
      LaunchEnds(hits, maxResults, matches, schedule)
      && callbacks <= Delivered(After(hits, maxResults, matches, schedule), maxResults);
    AllHits(hits, maxResults, matches, schedule);
    var all := Delivered(After(hits, maxResults, matches, schedule), maxResults);
    assert all == callbacks + all[|callbacks|..];
  }

  lemma AllHits(hits: seq<Match>, maxResults: U32, matches: seq<Word>, schedule: seq<nat>)
    requires |hits| < U32_LIMIT && 9 * Min(|hits|, maxResults) <= U32_LIMIT
    requires LaunchEnds(hits, maxResults, matches, schedule)
    ensures multiset(Delivered(After(hits, maxResults, matches, schedule), maxResults)) <= multiset(hits)
  {
    hide Run, Launch, Delivered;
    EveryOrderDelivers(hits, maxResults, matches, schedule);
  }

  lemma FirstDelivered(hits: seq<Match>, maxResults: U32, matches: seq<Word>, schedule: seq<nat>, picks: seq<nat>)
    requires |hits| < U32_LIMIT && 9 * Min(|hits|, maxResults) <= U32_LIMIT
    requires Within(picks, |hits|) && |picks| <= maxResults && LaunchEnds(hits, maxResults, matches, schedule)
    requires picks <= After(hits, maxResults, matches, schedule).tickets
    ensures Picked(hits, picks) <= Delivered(After(hits, maxResults, matches, schedule), maxResults)
  {
    hide Run, Launch, Delivered;
    RunKeepsInvariant(hits, maxResults, matches, schedule);
    var d := After(hits, maxResults, matches, schedule);
    forall i | 0 <= i < |picks|
      ensures Delivered(d, maxResults)[i] == hits[picks[i]]
    {
      DeliveredRow(d, hits, maxResults, i);
    }
  }

  // The 32-bit row index

  /** Whatever the buffer held and in whatever order the calls write, every callback is one of the hits. */
  ghost predicate DeliversHits(hits: seq<Match>, maxResults: U32) {
    forall matches: seq<Word>, schedule: seq<nat> :: LaunchEnds(hits, maxResults, matches, schedule) ==>
      multiset(Delivered(After(hits, maxResults, matches, schedule), maxResults)) <= multiset(hits)
  }

  /** A call's index is a number of 32 bits, so no word past 2^32 is ever written. */
  lemma {:induction false} HighWordsStay(hits: seq<Match>, maxResults: U32, matches: seq<Word>, schedule: seq<nat>,
                                         c: nat)
    requires |matches| == 9 * maxResults && Within(schedule, |hits|) && U32_LIMIT <= c < |matches|
    ensures Run(Launch(hits, matches), hits, maxResults, schedule).matches[c] == matches[c]
  {
    hide RowOf, Cell;
    if |schedule| > 0 {
      HighWordsStay(hits, maxResults, matches, schedule[..|schedule| - 1], c);
    }
  }

  /** Where a hit has `w` for its last word, if one has. */
  ghost function LastWordAt(hits: seq<Match>, w: Word): (i: nat)
    ensures (exists k :: 0 <= k < |hits| && hits[k].words[7] == w) ==> i < |hits| && hits[i].words[7] == w
  {
    if exists k :: 0 <= k < |hits| && hits[k].words[7] == w then
      var k :| 0 <= k < |hits| && hits[k].words[7] == w; k
    else 0
  }

  /** Fewer than 2^32 hits leave some word that ends none of them. */
  lemma UnusedWord(hits: seq<Match>) returns (w: Word)
    requires |hits| < U32_LIMIT
    ensures forall i :: 0 <= i < |hits| ==> hits[i].words[7] != w
  {
    hide NonceWord, WordNonce;
    var places := seq(U32_LIMIT, v requires 0 <= v < U32_LIMIT => LastWordAt(hits, NonceWord(v)));
    if v: U32 :| LastWordAt(hits, NonceWord(v)) >= |hits|
                 || hits[LastWordAt(hits, NonceWord(v))].words[7] != NonceWord(v) {
      w := NonceWord(v);
    } else {
      forall u, v | 0 <= u < v < |places|
        ensures places[u] != places[v]
      {
        NonceReadsBack(u);
        NonceReadsBack(v);
      }
      PickDistinct(hits, places);
      assert false;
    }
  }

  lemma LastOfRow(row: Row)
    ensures MatchIn(row).words[7] == row[8]
  {
    hide WordNonce;
  }

  /** The last word of a row past 2^32 is what the buffer held before. */
  lemma StaleRow(hits: seq<Match>, maxResults: U32, matches: seq<Word>, schedule: seq<nat>, w: Word)
    requires |hits| < U32_LIMIT && LaunchEnds(hits, maxResults, matches, schedule)
    requires 9 * Min(|hits|, maxResults) > U32_LIMIT
    requires forall c :: 0 <= c < |matches| ==> matches[c] == w
    ensures exists hit <- Delivered(After(hits, maxResults, matches, schedule), maxResults) :: hit.words[7] == w
  {
    hide Run, Launch, MatchIn, Finished;
    var n := Min(|hits|, maxResults);
    DeliveredCount(hits, maxResults, matches, schedule);
    var d := After(hits, maxResults, matches, schedule);
    HighWordsStay(hits, maxResults, matches, schedule, 9 * n - 1);
    var row: Row := d.matches[9 * (n - 1)..9 * n];
    assert row[8] == d.matches[9 * n - 1] == w;
    LastOfRow(row);
    assert 9 * (n - 1) + 9 == 9 * n;
    assert Delivered(d, maxResults)[n - 1] == MatchIn(row);
  }

  /** Every callback is a hit, under every order, if and only if the last row ends by 2^32 words. */
  lemma DeliversHitsIff(hits: seq<Match>, maxResults: U32)
    requires |hits| < U32_LIMIT
    ensures DeliversHits(hits, maxResults) <==> 9 * Min(|hits|, maxResults) <= U32_LIMIT
  {
    hide Run, Launch, Delivered;
    if 9 * Min(|hits|, maxResults) <= U32_LIMIT {
      forall matches: seq<Word>, schedule: seq<nat> | LaunchEnds(hits, maxResults, matches, schedule)
        ensures multiset(Delivered(After(hits, maxResults, matches, schedule), maxResults)) <= multiset(hits)
      {
        AllHits(hits, maxResults, matches, schedule);
      }
    } else {
      var w := UnusedWord(hits);
      var matches: seq<Word> := seq(9 * maxResults, _ => w);
      var schedule := SomeOrder(hits, maxResults, matches, []);
      StaleRow(hits, maxResults, matches, schedule, w);
      var callbacks := Delivered(After(hits, maxResults, matches, schedule), maxResults);
      var hit :| hit in callbacks && hit.words[7] == w;
      assert hit in multiset(callbacks) && hit !in hits;
    }
  }
}
