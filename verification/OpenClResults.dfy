/**
 How the matches of an OpenCL launch reach the host. With atomics every match draws a ticket from a shared counter and
 writes nine words into the row of that number, while all other work items do the same; the host reads the rows that
 exist. Without atomics every nonce owns a flag and a row, and the host collects the flagged rows in order.
 */
module OpenClResults {
  import opened Words
  import opened Sha256
  import opened Sha256d
  import opened Targets
  import opened Scan
  import opened OpenClGrid

  /** One stored match: the nonce and the eight hash words. */
  type Row = e: seq<Word> | |e| == 9 witness seq(9, _ => 0)

  function RowOf(m: Match): Row { [NonceWord(m.nonce)] + m.words }

  /** `on_match(opaque, entry[0], entry + 1)`. */
  function MatchIn(row: Row): Match { Match(WordNonce(row[0]), row[1..]) }

  lemma RowReadsBack(m: Match)
    ensures MatchIn(RowOf(m)) == m
  {
    hide NonceWord, WordNonce;
    NonceReadsBack(m.nonce);
  }

  // What the launched items find

  /** The matches among a list of offsets from `start`, in that order. */
  function MatchesAt(mid: State, tail: Tail, target: seq<Word>, start: U32, offsets: seq<U32>): seq<Match>
    requires |target| == 8
  {
    if |offsets| == 0 then []
    else MatchesAt(mid, tail, target, start, offsets[..|offsets| - 1])
         + MatchOf(mid, tail, target, Wrap32(start + offsets[|offsets| - 1]))
  }

  /** Offsets 0, 1, ..., n - 1 give exactly the callbacks the plain loop makes, in its order. */
  lemma {:induction false} MatchesInOrder(mid: State, tail: Tail, target: seq<Word>, start: U32, n: nat)
    requires |target| == 8 && n <= U32_LIMIT
    ensures MatchesAt(mid, tail, target, start, Span(0, n)) == ScanMatches(mid, tail, target, start, n)
  {
    hide MatchOf, Wrap32;
    if n > 0 {
      MatchesInOrder(mid, tail, target, start, n - 1);
      assert Span(0, n)[..n - 1] == Span(0, n - 1);
    }
  }

  /** Every hit of a launch is what the plain loop would report for its nonce, and is at one of the offsets. */
  lemma {:induction false} HitsSolve(mid: State, tail: Tail, target: seq<Word>, start: U32, offsets: seq<U32>,
                                     hit: Match)
    requires |target| == 8 && hit in MatchesAt(mid, tail, target, start, offsets)
    ensures hit in MatchOf(mid, tail, target, hit.nonce)
    ensures exists o <- offsets :: hit.nonce == Wrap32(start + o)
  {
    hide NonceHash, WordsMeet, Wrap32;
    var last := |offsets| - 1;
    if hit !in MatchOf(mid, tail, target, Wrap32(start + offsets[last])) {
      HitsSolve(mid, tail, target, start, offsets[..last], hit);
      var o :| o in offsets[..last] && hit.nonce == Wrap32(start + o);
      assert o in offsets;
    } else {
      assert offsets[last] in offsets && hit.nonce == Wrap32(start + offsets[last]);
    }
  }

  /** An offset whose nonce solves the job has its hit, and a later one has it later. */
  lemma {:induction false} TwoPlaces(mid: State, tail: Tail, target: seq<Word>, start: U32, offsets: seq<U32>, i: nat,
                                     j: nat) returns (p: nat, q: nat)
    requires |target| == 8 && i <= j < |offsets|
    requires |MatchOf(mid, tail, target, Wrap32(start + offsets[i]))| == 1
    requires |MatchOf(mid, tail, target, Wrap32(start + offsets[j]))| == 1
    ensures var hits := MatchesAt(mid, tail, target, start, offsets);
            && p <= q < |hits| && (i < j ==> p < q)
            && MatchOf(mid, tail, target, Wrap32(start + offsets[i])) == [hits[p]]
            && MatchOf(mid, tail, target, Wrap32(start + offsets[j])) == [hits[q]]
    decreases |offsets|
  {
    hide MatchOf, Wrap32;
    var last := |offsets| - 1;
    var before := MatchesAt(mid, tail, target, start, offsets[..last]);
    if j < last {
      p, q := TwoPlaces(mid, tail, target, start, offsets[..last], i, j);
    } else if i < j {
      var r: nat;
      p, r := TwoPlaces(mid, tail, target, start, offsets[..last], i, i);
      q := |before|;
    } else {
      p, q := |before|, |before|;
    }
  }

  // Delivery with atomics

  ghost predicate Within(indices: seq<nat>, n: nat) {
    forall i :: 0 <= i < |indices| ==> indices[i] < n
  }

  /** One call of `store_match`: before its `atomic_inc`, or with its ticket and the number of words written so far. */
  datatype Call = Waiting | Storing(idx: U32, stored: nat)

  /** The shared counter, the shared buffer and every call. `tickets` records which call drew each ticket. */
  datatype Device = Device(count: U32, matches: seq<Word>, calls: seq<Call>, tickets: seq<nat>)

  /** `idx * 9U + stored`, in 32 bits. */
  function Cell(idx: U32, stored: nat): (cell: U32)
    ensures cell <= 9 * idx + stored
  {
    Wrap32(Wrap32(idx * 9) + stored)
  }

  function Launch(hits: seq<Match>, matches: seq<Word>): (d: Device)
    ensures |d.calls| == |hits| && d.matches == matches
  {
    Device(0, matches, seq(|hits|, _ => Waiting), [])
  }

  /** One memory operation of call `who`. A call whose ticket is no smaller than `maxResults` writes nothing. */
  function Step(d: Device, hits: seq<Match>, maxResults: U32, who: nat): (next: Device)
    requires |d.calls| == |hits| && |d.matches| == 9 * maxResults && who < |hits|
    ensures |next.calls| == |hits| && |next.matches| == 9 * maxResults
  {
    match d.calls[who]
    case Waiting =>
      Device(Wrap32(d.count as int + 1), d.matches, d.calls[who := Storing(d.count, 0)], d.tickets + [who])
    case Storing(idx, stored) =>
      if idx < maxResults && stored < 9 then
        d.(matches := d.matches[Cell(idx, stored) := RowOf(hits[who])[stored]],
           calls := d.calls[who := Storing(idx, stored + 1)])
      else d
  }

  /** Any interleaving of the calls' memory operations. */
  ghost function Run(d: Device, hits: seq<Match>, maxResults: U32, schedule: seq<nat>): (end: Device)
    requires |d.calls| == |hits| && |d.matches| == 9 * maxResults
    requires Within(schedule, |hits|)
    ensures |end.calls| == |hits| && |end.matches| == 9 * maxResults
  {
    if |schedule| == 0 then d
    else Step(Run(d, hits, maxResults, schedule[..|schedule| - 1]), hits, maxResults, schedule[|schedule| - 1])
  }

  /** The kernel has ended: every call has drawn a ticket and written its row, if it had one. */
  ghost predicate Finished(d: Device, maxResults: U32) {
    forall call <- d.calls :: call.Storing? && (call.idx >= maxResults || call.stored == 9)
  }

  /** The words written so far are in the row of the call's ticket. */
  ghost predicate RowHolds(d: Device, hits: seq<Match>, maxResults: U32, who: nat)
    requires |d.calls| == |hits| && |d.matches| == 9 * maxResults && who < |hits|
  {
    d.calls[who].Storing? && d.calls[who].idx < maxResults ==>
      d.calls[who].stored <= 9 &&
      forall k :: 0 <= k < d.calls[who].stored ==> d.matches[9 * d.calls[who].idx + k] == RowOf(hits[who])[k]
  }

  ghost predicate Ticketed(d: Device) {
    && d.count == |d.tickets|
    && (forall i :: 0 <= i < |d.tickets| ==>
          d.tickets[i] < |d.calls| && d.calls[d.tickets[i]].Storing? && d.calls[d.tickets[i]].idx == i)
    && (forall w :: 0 <= w < |d.calls| && d.calls[w].Storing? ==>
          d.calls[w].idx < |d.tickets| && d.tickets[d.calls[w].idx] == w)
  }

  ghost predicate Invariant(d: Device, hits: seq<Match>, maxResults: U32)
    requires |d.calls| == |hits| && |d.matches| == 9 * maxResults
  {
    && Ticketed(d)
    && forall who :: 0 <= who < |hits| ==> RowHolds(d, hits, maxResults, who)
  }

  ghost function Picked<T>(s: seq<T>, picks: seq<nat>): (r: seq<T>)
    requires Within(picks, |s|)
    ensures |r| == |picks|
  {
    seq(|picks|, i requires 0 <= i < |picks| => s[picks[i]])
  }

  ghost predicate Distinct(picks: seq<nat>) {
    forall i, j :: 0 <= i < j < |picks| ==> picks[i] != picks[j]
  }

  /** Picking distinct positions gives a part of the whole. */
  lemma {:induction false} PickDistinct<T>(s: seq<T>, picks: seq<nat>)
    requires Distinct(picks) && Within(picks, |s|)
    ensures multiset(Picked(s, picks)) <= multiset(s)
    ensures |picks| <= |s|
    decreases |s|
  {
    if |picks| == 0 {
      assert Picked(s, picks) == [];
    } else {
      assert 0 <= picks[0] < |s|;
      var last := |s| - 1;
      assert s == s[..last] + [s[last]];
      if last in picks {
        var j :| 0 <= j < |picks| && picks[j] == last;
        PickDistinct(s[..last], picks[..j] + picks[j + 1..]);
        DropPick(s, picks, j);
      } else {
        PickDistinct(s[..last], picks);
        assert Picked(s[..last], picks) == Picked(s, picks);
      }
    }
  }

  lemma DropPick<T>(s: seq<T>, picks: seq<nat>, j: nat)
    requires j < |picks| && Within(picks, |s|) && Distinct(picks) && picks[j] == |s| - 1
    ensures var others := picks[..j] + picks[j + 1..];
            && Within(others, |s| - 1)
            && multiset(Picked(s, picks)) == multiset(Picked(s[..|s| - 1], others)) + multiset{s[|s| - 1]}
  {
    var all := Picked(s, picks);
    assert all == all[..j] + [s[|s| - 1]] + all[j + 1..];
    assert Picked(s[..|s| - 1], picks[..j] + picks[j + 1..]) == all[..j] + all[j + 1..];
  }

  lemma TicketsAreDistinct(d: Device)
    requires Ticketed(d)
    ensures Distinct(d.tickets) && |d.tickets| <= |d.calls|
  {
    PickDistinct(d.calls, d.tickets);
  }

  /** Drawing a ticket keeps tickets and calls in step. */
  lemma DrawKeepsTickets(d: Device, hits: seq<Match>, maxResults: U32, who: nat)
    requires |d.calls| == |hits| < U32_LIMIT && |d.matches| == 9 * maxResults && who < |hits|
    requires Ticketed(d) && d.calls[who].Waiting?
    ensures Ticketed(Step(d, hits, maxResults, who))
  {
    TicketsAreDistinct(d);
    var next := Step(d, hits, maxResults, who);
    assert Distinct(next.tickets);
    PickDistinct(d.calls, next.tickets);
  }

  lemma CellIsExact(idx: U32, stored: nat)
    requires stored < 9 && 9 * idx + stored < U32_LIMIT
    ensures Cell(idx, stored) == 9 * idx + stored
  {
  }

  /** A write into the row of one ticket leaves every other call's row alone. */
  lemma WriteKeepsRow(d: Device, hits: seq<Match>, maxResults: U32, who: nat, other: nat)
    requires |d.calls| == |hits| && |d.matches| == 9 * maxResults && who < |hits| && other < |hits|
    requires Invariant(d, hits, maxResults) && d.calls[who].Storing?
    requires 9 * Min(|hits|, maxResults) <= U32_LIMIT
    ensures RowHolds(Step(d, hits, maxResults, who), hits, maxResults, other)
  {
    TicketsAreDistinct(d);
    assert RowHolds(d, hits, maxResults, who) && RowHolds(d, hits, maxResults, other);
    var idx, stored := d.calls[who].idx, d.calls[who].stored;
    if idx < maxResults && stored < 9 {
      CellIsExact(idx, stored);
    }
  }

  lemma StepKeepsInvariant(d: Device, hits: seq<Match>, maxResults: U32, who: nat)
    requires |d.calls| == |hits| < U32_LIMIT && |d.matches| == 9 * maxResults && who < |hits|
    requires 9 * Min(|hits|, maxResults) <= U32_LIMIT
    requires Invariant(d, hits, maxResults)
    ensures Invariant(Step(d, hits, maxResults, who), hits, maxResults)
  {
    var next := Step(d, hits, maxResults, who);
    if d.calls[who].Waiting? {
      DrawKeepsTickets(d, hits, maxResults, who);
      forall other | 0 <= other < |hits|
        ensures RowHolds(next, hits, maxResults, other)
      {
        assert RowHolds(d, hits, maxResults, other);
      }
    } else {
      forall other | 0 <= other < |hits|
        ensures RowHolds(next, hits, maxResults, other)
      {
        WriteKeepsRow(d, hits, maxResults, who, other);
      }
    }
  }

  lemma {:induction false} RunKeepsInvariant(hits: seq<Match>, maxResults: U32, matches: seq<Word>, schedule: seq<nat>)
    requires |hits| < U32_LIMIT && |matches| == 9 * maxResults && 9 * Min(|hits|, maxResults) <= U32_LIMIT
    requires Within(schedule, |hits|)
    ensures Invariant(Run(Launch(hits, matches), hits, maxResults, schedule), hits, maxResults)
  {
    hide Step;
    if |schedule| > 0 {
      var before := schedule[..|schedule| - 1];
      RunKeepsInvariant(hits, maxResults, matches, before);
      StepKeepsInvariant(Run(Launch(hits, matches), hits, maxResults, before), hits, maxResults,
                         schedule[|schedule| - 1]);
    }
  }

  /** The callbacks the host makes from the rows it reads back. */
  function Delivered(d: Device, maxResults: U32): (callbacks: seq<Match>)
    requires |d.matches| == 9 * maxResults
    ensures |callbacks| == Min(d.count, maxResults)
  {
    seq(Min(d.count, maxResults), i requires 0 <= i < Min(d.count, maxResults) => MatchIn(d.matches[9 * i..9 * i + 9]))
  }

  /** The host after the kernel has ended: one callback per stored row. */
  method Drain(d: Device, maxResults: U32) returns (callbacks: seq<Match>)
    requires |d.matches| == 9 * maxResults
    ensures callbacks == Delivered(d, maxResults)
  {
    hide MatchIn;
    callbacks := [];
    if d.count == 0 {
      return;
    }
    var stored := if d.count > maxResults then maxResults else d.count;
    for i := 0 to stored
      invariant callbacks == Delivered(d, maxResults)[..i]
    {
      callbacks := callbacks + [MatchIn(d.matches[9 * i..9 * i + 9])];
    }
  }

  /** When every call has a ticket there are as many tickets as calls. */
  lemma EveryCallHasATicket(d: Device)
    requires Ticketed(d) && forall call <- d.calls :: call.Storing?
    ensures |d.tickets| == |d.calls|
  {
    TicketsAreDistinct(d);
    var idxs := seq(|d.calls|, w requires 0 <= w < |d.calls| => d.calls[w].idx as nat);
    assert Distinct(idxs);
    PickDistinct(d.tickets, idxs);
  }

  lemma DeliveredRow(d: Device, hits: seq<Match>, maxResults: U32, i: nat)
    requires |d.calls| == |hits| && |d.matches| == 9 * maxResults
    requires Invariant(d, hits, maxResults) && Finished(d, maxResults) && i < Min(d.count, maxResults)
    ensures d.tickets[i] < |hits| && Delivered(d, maxResults)[i] == hits[d.tickets[i]]
  {
    hide MatchIn, RowOf;
    var who := d.tickets[i];
    assert RowHolds(d, hits, maxResults, who);
    assert d.calls[who] in d.calls;
    var row: Row := d.matches[9 * i..9 * i + 9];
    forall k | 0 <= k < 9
      ensures row[k] == RowOf(hits[who])[k]
    {
      assert row[k] == d.matches[9 * i + k];
    }
    assert row == RowOf(hits[who]);
    RowReadsBack(hits[who]);
  }

  lemma PartOfSameSize<T>(part: multiset<T>, whole: multiset<T>)
    requires part <= whole && |part| == |whole|
    ensures part == whole
  {
    assert whole == part + (whole - part);
    assert |whole - part| == 0;
  }

  /** Match delivery: under every interleaving the host makes `min(count, maxResults)` callbacks, each for the hit
      of a different call and with its own hash; all of them when they fit. */
  lemma EveryOrderDelivers(hits: seq<Match>, maxResults: U32, matches: seq<Word>, schedule: seq<nat>)
    requires |hits| < U32_LIMIT && |matches| == 9 * maxResults && 9 * Min(|hits|, maxResults) <= U32_LIMIT
    requires Within(schedule, |hits|)
    requires Finished(Run(Launch(hits, matches), hits, maxResults, schedule), maxResults)
    ensures var callbacks := Delivered(Run(Launch(hits, matches), hits, maxResults, schedule), maxResults);
            && |callbacks| == Min(|hits|, maxResults)
            && multiset(callbacks) <= multiset(hits)
            && (|hits| <= maxResults ==> multiset(callbacks) == multiset(hits))
  {
    hide Run, Delivered;
    var d := Run(Launch(hits, matches), hits, maxResults, schedule);
    RunKeepsInvariant(hits, maxResults, matches, schedule);
    EveryCallHasATicket(d);
    TicketsAreDistinct(d);
    var callbacks := Delivered(d, maxResults);
    var first := d.tickets[..|callbacks|];
    assert Distinct(first);
    forall i | 0 <= i < |callbacks|
      ensures callbacks[i] == Picked(hits, first)[i]
    {
      DeliveredRow(d, hits, maxResults, i);
    }
    assert callbacks == Picked(hits, first);
    PickDistinct(hits, first);
    if |hits| <= maxResults {
      PartOfSameSize(multiset(callbacks), multiset(hits));
    }
  }

  lemma {:induction false} AtMostOneMatchEach(mid: State, tail: Tail, target: seq<Word>, start: U32, offsets: seq<U32>)
    requires |target| == 8
    ensures |MatchesAt(mid, tail, target, start, offsets)| <= |offsets|
  {
    hide WordsMeet, NonceHash, Wrap32;
    if |offsets| > 0 {
      AtMostOneMatchEach(mid, tail, target, start, offsets[..|offsets| - 1]);
    }
  }

  /** The hits of a launch. */
  function HitsOf(kernel: Kernel, npi: U32, local: U32, mid: State, tail: Tail, target: seq<Word>, start: U32, n: U32)
    : seq<Match>
    requires |target| == 8 && npi > 0
  {
    MatchesAt(mid, tail, target, start, Scanned(kernel, n, npi, GlobalSize(n, npi, local)))
  }

  /** The hits of a launch whose grid does not wrap are the callbacks of the plain loop. */
  lemma LaunchHitsAreScan(kernel: Kernel, npi: U32, local: U32, mid: State, tail: Tail, target: seq<Word>, start: U32,
                          n: U32)
    requires |target| == 8 && n > 0 && Serves(kernel, npi) && NoWrap(kernel, n, npi, GlobalSize(n, npi, local))
    ensures HitsOf(kernel, npi, local, mid, tail, target, start, n) == ScanMatches(mid, tail, target, start, n)
    ensures |HitsOf(kernel, npi, local, mid, tail, target, start, n)| <= n
  {
    hide GlobalSize, Scanned, ScanMatches, MatchesAt, NoWrap, Span;
    LaunchScansRange(kernel, n, npi, local);
    MatchesInOrder(mid, tail, target, start, n);
    AtMostOneMatchEach(mid, tail, target, start, Span(0, n));
  }

  /** A whole launch whose grid does not wrap: the host's callbacks are some of those the plain loop would make, and
      all of them, in some order, when they fit the buffer. */
  lemma LaunchDelivers(kernel: Kernel, npi: U32, local: U32, mid: State, tail: Tail, target: seq<Word>, start: U32,
                       n: U32, hits: seq<Match>, maxResults: U32, matches: seq<Word>, schedule: seq<nat>)
    requires |target| == 8 && n > 0 && Serves(kernel, npi) && NoWrap(kernel, n, npi, GlobalSize(n, npi, local))
    requires hits == HitsOf(kernel, npi, local, mid, tail, target, start, n)
    requires |matches| == 9 * maxResults && 9 * Min(|hits|, maxResults) <= U32_LIMIT && Within(schedule, |hits|)
    requires Finished(Run(Launch(hits, matches), hits, maxResults, schedule), maxResults)
    ensures var callbacks := Delivered(Run(Launch(hits, matches), hits, maxResults, schedule), maxResults);
            var plain := ScanMatches(mid, tail, target, start, n);
            && |callbacks| == Min(|plain|, maxResults)
            && multiset(callbacks) <= multiset(plain)
            && (|plain| <= maxResults ==> multiset(callbacks) == multiset(plain))
  {
    hide GlobalSize, Run, Delivered, HitsOf, ScanMatches, NoWrap;
    LaunchHitsAreScan(kernel, npi, local, mid, tail, target, start, n);
    EveryOrderDelivers(hits, maxResults, matches, schedule);
  }

  // Exactly when a launch finds what it should

  /** The largest target: every hash meets it. */
  const ANY_HASH: HashWords := seq(8, _ => 0xffffffff)

  lemma {:induction false} LargestBytes(b: seq<Byte>, top: seq<Byte>)
    requires |b| == |top| && forall i :: 0 <= i < |top| ==> top[i] == 255
    ensures LittleEndian(b) <= LittleEndian(top)
  {
    if |b| > 0 {
      LargestBytes(b[1..], top[1..]);
      ByteIsItsNumber(b[0]);
    }
  }

  lemma {:induction false} LargestWords(n: nat, i: nat)
    requires i < 4 * n
    ensures LeBytes(seq(n, _ => 0xffffffff))[i] == 255
  {
    var w: seq<Word> := seq(n, _ => 0xffffffff);
    assert w[..n - 1] == seq(n - 1, _ => 0xffffffff);
    if i < 4 * (n - 1) {
      LargestWords(n - 1, i);
    }
  }

  lemma EveryHashMeets(mid: State, tail: Tail, nonce: U32)
    ensures MatchOf(mid, tail, ANY_HASH, nonce) == [Match(nonce, NonceHash(mid, tail, nonce))]
  {
    hide NonceHash, LittleEndian, LeBytes, WordsToBytes;
    var top := LeBytes(ANY_HASH);
    forall i | 0 <= i < |top|
      ensures top[i] == 255
    {
      LargestWords(8, i);
    }
    LargestBytes(WordsToBytes(NonceHash(mid, tail, nonce)), top);
  }

  lemma {:induction false} EveryOffsetHits(mid: State, tail: Tail, start: U32, offsets: seq<U32>)
    ensures |MatchesAt(mid, tail, ANY_HASH, start, offsets)| == |offsets|
  {
    hide MatchOf, Wrap32;
    if |offsets| > 0 {
      EveryOffsetHits(mid, tail, start, offsets[..|offsets| - 1]);
      EveryHashMeets(mid, tail, Wrap32(start + offsets[|offsets| - 1]));
    }
  }

  /** For a target every hash meets, a launch finds the callbacks of the plain loop if and only if its grid does not
      wrap: the condition of `LaunchHitsAreScan` cannot be weakened. */
  lemma LaunchFindsScanIffNoWrap(kernel: Kernel, npi: U32, local: U32, mid: State, tail: Tail, start: U32, n: U32)
    requires n > 0 && Serves(kernel, npi)
    ensures multiset(HitsOf(kernel, npi, local, mid, tail, ANY_HASH, start, n))
            == multiset(ScanMatches(mid, tail, ANY_HASH, start, n))
       <==> NoWrap(kernel, n, npi, GlobalSize(n, npi, local))
  {
    hide GlobalSize, Scanned, ScanMatches, MatchesAt, NoWrap, Span;
    var global := GlobalSize(n, npi, local);
    if NoWrap(kernel, n, npi, global) {
      LaunchHitsAreScan(kernel, npi, local, mid, tail, ANY_HASH, start, n);
    } else {
      LaunchOverruns(kernel, n, npi, local);
      EveryOffsetHits(mid, tail, start, Scanned(kernel, n, npi, global));
      MatchesInOrder(mid, tail, ANY_HASH, start, n);
      EveryOffsetHits(mid, tail, start, Span(0, n));
      assert |multiset(HitsOf(kernel, npi, local, mid, tail, ANY_HASH, start, n))| > n;
    }
  }

  lemma LaunchScansRange(kernel: Kernel, n: U32, npi: U32, local: U32)
    requires n > 0 && Serves(kernel, npi) && NoWrap(kernel, n, npi, GlobalSize(n, npi, local))
    ensures Scanned(kernel, n, npi, GlobalSize(n, npi, local)) == Span(0, n)
  {
    hide GlobalSize, Scanned, NoWrap, Span;
    var global := GlobalSize(n, npi, local);
    LaunchIsEnough(n, npi, local);
    ItemsTile(kernel, n, npi, global, global);
  }

  // Delivery without atomics

  /** What the hash of one nonce gave. */
  datatype Find = Nothing | Found(hit: Match)

  function FindAt(mid: State, tail: Tail, target: seq<Word>, nonce: U32): Find
    requires |target| == 8
  {
    var words := NonceHash(mid, tail, nonce);
    if WordsMeet(words, target) then Found(Match(nonce, words)) else Nothing
  }

  /** What the calls of `scan_one_nonce` in a launch find: call `c` is for offset `offsets[c]`, which is its slot. */
  function Finds(mid: State, tail: Tail, target: seq<Word>, start: U32, offsets: seq<U32>): (finds: seq<Find>)
    requires |target| == 8
    ensures |finds| == |offsets|
  {
    seq(|offsets|, c requires 0 <= c < |offsets| => FindAt(mid, tail, target, Wrap32(start + offsets[c])))
  }

  /** The flags and rows, one of each per nonce of the launch, and how many words each call has written. */
  datatype Slots = Slots(flags: seq<bool>, matches: seq<Word>, written: seq<nat>)

  /** The host zeroes the flags; the rows hold whatever an earlier launch left. */
  function LaunchSlots(n: nat, matches: seq<Word>, calls: nat): Slots {
    Slots(seq(n, _ => false), matches, seq(calls, _ => 0))
  }

  ghost predicate Sized(d: Slots, n: nat, finds: seq<Find>, offsets: seq<U32>) {
    |d.flags| == n && |d.matches| == 9 * n < U32_LIMIT && |d.written| == |finds| == |offsets|
  }

  /** One memory operation of call `c`: the flag of its slot first, then the nine words. A slot past the end has no
      memory; a launch whose grid does not wrap has none. */
  ghost function SlotStep(d: Slots, n: nat, finds: seq<Find>, offsets: seq<U32>, c: nat): (next: Slots)
    requires Sized(d, n, finds, offsets) && c < |finds|
    ensures Sized(next, n, finds, offsets)
  {
    var slot, k := offsets[c], d.written[c];
    if finds[c].Nothing? || k >= 10 || slot >= n then d
    else if k == 0 then d.(flags := d.flags[slot := true], written := d.written[c := 1])
    else d.(matches := d.matches[Cell(slot, k - 1) := RowOf(finds[c].hit)[k - 1]], written := d.written[c := k + 1])
  }

  ghost function RunSlots(d: Slots, n: nat, finds: seq<Find>, offsets: seq<U32>, schedule: seq<nat>): (end: Slots)
    requires Sized(d, n, finds, offsets) && Within(schedule, |finds|)
    ensures Sized(end, n, finds, offsets)
  {
    if |schedule| == 0 then d
    else SlotStep(RunSlots(d, n, finds, offsets, schedule[..|schedule| - 1]), n, finds, offsets,
                  schedule[|schedule| - 1])
  }

  /** What slot `c` holds, when call `c` is the one for it. */
  ghost predicate SlotHolds(d: Slots, n: nat, finds: seq<Find>, c: nat)
    requires n <= U32_LIMIT && Sized(d, n, finds, Span(0, n)) && c < n
  {
    && d.written[c] <= 10
    && (d.flags[c] <==> d.written[c] > 0)
    && (finds[c].Nothing? ==> d.written[c] == 0)
    && (finds[c].Found? ==>
          forall k: nat :: k + 1 < d.written[c] ==> d.matches[9 * c + k] == RowOf(finds[c].hit)[k])
  }

  ghost predicate SlotsFinished(d: Slots, finds: seq<Find>)
    requires |d.written| == |finds|
  {
    forall c :: 0 <= c < |finds| && finds[c].Found? ==> d.written[c] == 10
  }

  lemma SlotStepHolds(d: Slots, n: nat, finds: seq<Find>, c: nat, other: nat)
    requires n <= U32_LIMIT && Sized(d, n, finds, Span(0, n)) && c < n && other < n
    requires SlotHolds(d, n, finds, c) && SlotHolds(d, n, finds, other)
    ensures SlotHolds(SlotStep(d, n, finds, Span(0, n), c), n, finds, other)
  {
    hide RowOf;
    if finds[c].Found? && 0 < d.written[c] < 10 {
      CellIsExact(c, d.written[c] - 1);
    }
  }

  lemma {:induction false} RunSlotsHolds(n: nat, finds: seq<Find>, matches: seq<Word>, schedule: seq<nat>, other: nat)
    requires n <= U32_LIMIT && Sized(LaunchSlots(n, matches, n), n, finds, Span(0, n))
    requires Within(schedule, n) && other < n
    ensures SlotHolds(RunSlots(LaunchSlots(n, matches, n), n, finds, Span(0, n), schedule), n, finds, other)
  {
    hide SlotStep, Span;
    if |schedule| > 0 {
      var before, c := schedule[..|schedule| - 1], schedule[|schedule| - 1];
      RunSlotsHolds(n, finds, matches, before, other);
      RunSlotsHolds(n, finds, matches, before, c);
      SlotStepHolds(RunSlots(LaunchSlots(n, matches, n), n, finds, Span(0, n), before), n, finds, c, other);
    }
  }

  /** The callbacks for the first `n` slots whose flag is set. */
  function Flagged(d: Slots, n: nat): seq<Match>
    requires n <= |d.flags| && 9 * n <= |d.matches|
  {
    if n == 0 then []
    else Flagged(d, n - 1) + if d.flags[n - 1] then [MatchIn(d.matches[9 * (n - 1)..9 * n])] else []
  }

  lemma {:induction false} FlaggedGrows(d: Slots, i: nat, n: nat)
    requires i <= n <= |d.flags| && 9 * n <= |d.matches|
    ensures Flagged(d, i) <= Flagged(d, n)
  {
    hide MatchIn;
    if i < n {
      FlaggedGrows(d, i, n - 1);
    }
  }

  function FirstOf(matches: seq<Match>, maxResults: U32): seq<Match> { matches[..Min(maxResults, |matches|)] }

  /** The host's two loops: count the flags, then report the first `maxResults` flagged rows. */
  method Collect(d: Slots, n: U32, maxResults: U32) returns (callbacks: seq<Match>)
    requires n <= |d.flags| && 9 * n <= |d.matches|
    ensures callbacks == FirstOf(Flagged(d, n), maxResults)
  {
    hide MatchIn;
    callbacks := [];
    var count := 0;
    for i := 0 to n
      invariant count == |Flagged(d, i)|
    {
      if d.flags[i] {
        count := count + 1;
      }
    }
    if count == 0 {
      return;
    }
    var i, emitted := 0, 0;
    while i < n && emitted < maxResults
      invariant i <= n && emitted <= maxResults
      invariant callbacks == Flagged(d, i) && emitted == |callbacks|
    {
      if d.flags[i] {
        callbacks := callbacks + [MatchIn(d.matches[9 * i..9 * i + 9])];
        emitted := emitted + 1;
      }
      i := i + 1;
    }
    FlaggedGrows(d, i, n);
  }

  lemma FlaggedRow(d: Slots, n: nat, finds: seq<Find>, c: nat)
    requires n <= U32_LIMIT && Sized(d, n, finds, Span(0, n)) && c < n
    requires SlotHolds(d, n, finds, c) && SlotsFinished(d, finds)
    ensures if d.flags[c] then finds[c] == Found(MatchIn(d.matches[9 * c..9 * c + 9])) else finds[c].Nothing?
  {
    hide MatchIn, RowOf;
    if finds[c].Found? {
      var row: Row := d.matches[9 * c..9 * c + 9];
      forall k | 0 <= k < 9
        ensures row[k] == RowOf(finds[c].hit)[k]
      {
        assert row[k] == d.matches[9 * c + k];
      }
      assert row == RowOf(finds[c].hit);
      RowReadsBack(finds[c].hit);
    }
  }

  /** Whatever order the calls write in, the flagged slots are the plain loop's callbacks, in ascending order. */
  lemma {:induction false} FlaggedIsScan(mid: State, tail: Tail, target: seq<Word>, start: U32, n: nat, d: Slots,
                                         i: nat)
    requires |target| == 8 && i <= n <= U32_LIMIT
    requires var finds := Finds(mid, tail, target, start, Span(0, n));
             Sized(d, n, finds, Span(0, n)) && SlotsFinished(d, finds)
             && forall c :: 0 <= c < n ==> SlotHolds(d, n, finds, c)
    ensures Flagged(d, i) == ScanMatches(mid, tail, target, start, i)
  {
    hide WordsMeet, NonceHash, Wrap32, MatchIn, SlotHolds, SlotsFinished;
    if i > 0 {
      FlaggedIsScan(mid, tail, target, start, n, d, i - 1);
      FlaggedRow(d, n, Finds(mid, tail, target, start, Span(0, n)), i - 1);
      assert Finds(mid, tail, target, start, Span(0, n))[i - 1] ==
             FindAt(mid, tail, target, Wrap32(start + i - 1));
    }
  }

  /** A launch of the general kernel without atomics whose grid does not wrap: the host's callbacks are the plain
      loop's first `maxResults`, in its order, whatever order the items write in. */
  lemma SlotsDeliver(npi: U32, local: U32, mid: State, tail: Tail, target: seq<Word>, start: U32, n: U32,
                     maxResults: U32, matches: seq<Word>, schedule: seq<nat>)
    requires |target| == 8 && n > 0 && 1 <= npi <= 64 && NoWrap(General, n, npi, GlobalSize(n, npi, local))
    requires |matches| == 9 * n < U32_LIMIT
    requires SlotLaunchEnds(npi, local, mid, tail, target, start, n, matches, schedule)
    ensures var plain := ScanMatches(mid, tail, target, start, n);
            FirstOf(Flagged(SlotsAfter(npi, local, mid, tail, target, start, n, matches, schedule), n), maxResults)
            == plain[..if |plain| < maxResults then |plain| else maxResults]
  {
    hide RunSlots, SlotHolds, SlotsFinished, Flagged, Scanned, GlobalSize, NoWrap, ScanMatches, Span, Finds;
    LaunchScansRange(General, n, npi, local);
    var finds := Finds(mid, tail, target, start, Span(0, n));
    SpanLength(n);
    var d := RunSlots(LaunchSlots(n, matches, n), n, finds, Span(0, n), schedule);
    forall c | 0 <= c < n
      ensures SlotHolds(d, n, finds, c)
    {
      RunSlotsHolds(n, finds, matches, schedule, c);
    }
    FlaggedIsScan(mid, tail, target, start, n, d, n);
  }

  lemma SpanLength(n: U32)
    ensures |Span(0, n)| == n
  {
  }

  /** The schedule is one of the launch's, and every call has written all its words at its end. */
  ghost predicate SlotLaunchEnds(npi: U32, local: U32, mid: State, tail: Tail, target: seq<Word>, start: U32, n: U32,
                                 matches: seq<Word>, schedule: seq<nat>)
    requires |target| == 8 && npi > 0 && |matches| == 9 * n < U32_LIMIT
  {
    var offsets := Scanned(General, n, npi, GlobalSize(n, npi, local));
    var finds := Finds(mid, tail, target, start, offsets);
    Within(schedule, |offsets|)
    && SlotsFinished(RunSlots(LaunchSlots(n, matches, |offsets|), n, finds, offsets, schedule), finds)
  }

  ghost function SlotsAfter(npi: U32, local: U32, mid: State, tail: Tail, target: seq<Word>, start: U32, n: U32,
                            matches: seq<Word>, schedule: seq<nat>): (d: Slots)
    requires |target| == 8 && npi > 0 && |matches| == 9 * n < U32_LIMIT
    requires SlotLaunchEnds(npi, local, mid, tail, target, start, n, matches, schedule)
    ensures |d.flags| == n && |d.matches| == 9 * n
  {
    var offsets := Scanned(General, n, npi, GlobalSize(n, npi, local));
    RunSlots(LaunchSlots(n, matches, |offsets|), n, Finds(mid, tail, target, start, offsets), offsets, schedule)
  }
}
