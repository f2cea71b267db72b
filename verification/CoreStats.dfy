/**
 The counters the app shows (btcrig_core_full.c). Every connection counts from zero; when any counter of a snapshot is
 below the last one, a new connection has begun and the old one's last values move into the base.
 */
module CoreStats {
  import opened Words

  datatype Counters = Counters(hashes: U64, jobs: U64, submits: U64, accepts: U64, rejects: U64)

  const ZERO: Counters := Counters(0, 0, 0, 0, 0)

  /** Every counter added, modulo 2^64. */
  function Plus(a: Counters, b: Counters): Counters {
    Counters(Wrap64(a.hashes + b.hashes), Wrap64(a.jobs + b.jobs), Wrap64(a.submits + b.submits),
             Wrap64(a.accepts + b.accepts), Wrap64(a.rejects + b.rejects))
  }

  predicate AtMost(a: Counters, b: Counters) {
    && a.hashes <= b.hashes && a.jobs <= b.jobs && a.submits <= b.submits
    && a.accepts <= b.accepts && a.rejects <= b.rejects
  }

  datatype Snapshot = Snapshot(counters: Counters, hashrate: real, workerCount: int, connected: bool, subscribed: bool,
                               authorized: bool)

  class Stats {
    var base: Counters
    var conn: Counters
    var total: Counters
    var hashrate: real
    var workerCount: int
    var connected: bool
    var status: string

    /** `reset_stats`. */
    constructor ()
      ensures base == conn == total == ZERO
    {
      base, conn, total := ZERO, ZERO, ZERO;
      hashrate, workerCount, connected, status := 0.0, 0, false, "idle";
    }

    /** `update_stats`. */
    method Update(s: Snapshot)
      modifies this
      ensures (base, conn) == Updated(old(base), old(conn), s.counters)
      ensures total == Plus(base, conn)
      ensures hashrate == s.hashrate && workerCount == s.workerCount && connected == (s.connected && s.authorized)
      ensures status == if s.authorized then "authorized" else if s.subscribed then "subscribed"
                        else if s.connected then "connected" else old(status)
    {
      var c := s.counters;
      if c.hashes < conn.hashes || c.jobs < conn.jobs || c.submits < conn.submits
         || c.accepts < conn.accepts || c.rejects < conn.rejects {
        base := Plus(base, conn);
      }
      hashrate := s.hashrate;
      conn := c;
      workerCount := s.workerCount;
      connected := s.connected && s.authorized;
      total := Plus(base, conn);
      if s.authorized {
        status := "authorized";
      } else if s.subscribed {
        status := "subscribed";
      } else if s.connected {
        status := "connected";
      }
    }
  }

  /** Base and last snapshot after one more snapshot. */
  function Updated(base: Counters, conn: Counters, next: Counters): (Counters, Counters) {
    (if AtMost(conn, next) then base else Plus(base, conn), next)
  }

  function UpdatedAll(snapshots: seq<Counters>): (Counters, Counters) {
    if |snapshots| == 0 then (ZERO, ZERO)
    else
      var before := UpdatedAll(snapshots[..|snapshots| - 1]);
      Updated(before.0, before.1, snapshots[|snapshots| - 1])
  }

  /** The published totals after a list of snapshots. */
  function Total(snapshots: seq<Counters>): Counters { Plus(UpdatedAll(snapshots).0, UpdatedAll(snapshots).1) }

  // Exactness

  /** A connection publishes zeros first and never counts down. */
  ghost predicate Connection(snapshots: seq<Counters>) {
    && |snapshots| > 0 && snapshots[0] == ZERO
    && forall i :: 0 < i < |snapshots| ==> AtMost(snapshots[i - 1], snapshots[i])
  }

  ghost predicate AllConnections(connections: seq<seq<Counters>>) {
    forall i :: 0 <= i < |connections| ==> Connection(connections[i])
  }

  function Flatten(connections: seq<seq<Counters>>): seq<Counters> {
    if |connections| == 0 then [] else Flatten(connections[..|connections| - 1]) + connections[|connections| - 1]
  }

  /** The sum of the connections' last values. */
  ghost function SumOfLast(connections: seq<seq<Counters>>): Counters
    requires AllConnections(connections)
  {
    if |connections| == 0 then ZERO
    else
      var last := connections[|connections| - 1];
      Plus(SumOfLast(connections[..|connections| - 1]), last[|last| - 1])
  }

  lemma PlusZero(a: Counters)
    ensures Plus(a, ZERO) == a
  {
  }

  lemma OneMoreSnapshot(before: seq<Counters>, next: Counters)
    ensures UpdatedAll(before + [next]) == Updated(UpdatedAll(before).0, UpdatedAll(before).1, next)
  {
    assert (before + [next])[..|before|] == before;
  }

  /** While a connection lasts, the base holds what the earlier ones left. */
  lemma {:induction false} WithinConnection(earlier: seq<Counters>, connection: seq<Counters>)
    requires Connection(connection)
    ensures UpdatedAll(earlier + connection) == (Total(earlier), connection[|connection| - 1])
  {
    hide UpdatedAll, Plus;
    var n := |connection| - 1;
    var before := connection[..n];
    assert earlier + connection == (earlier + before) + [connection[n]];
    OneMoreSnapshot(earlier + before, connection[n]);
    if n == 0 {
      assert earlier + before == earlier;
      PlusZero(UpdatedAll(earlier).0);
      if AtMost(UpdatedAll(earlier).1, ZERO) {
        assert UpdatedAll(earlier).1 == ZERO;
      }
    } else {
      assert forall i :: 0 <= i < n ==> before[i] == connection[i];
      WithinConnection(earlier, before);
    }
  }

  /** For any sequence of connections the published totals are the sum of every connection's last values. */
  lemma {:induction false} TotalsAreExact(connections: seq<seq<Counters>>)
    requires AllConnections(connections)
    ensures Total(Flatten(connections)) == SumOfLast(connections)
  {
    hide Plus, Updated, Connection, UpdatedAll;
    if |connections| == 0 {
      NoSnapshots();
    } else {
      var n := |connections| - 1;
      TotalsAreExact(connections[..n]);
      WithinConnection(Flatten(connections[..n]), connections[n]);
    }
  }

  lemma NoSnapshots()
    ensures Total([]) == ZERO
  {
  }

  datatype Field = Hashes | Jobs | Submits | Accepts | Rejects

  function Read(c: Counters, field: Field): U64 {
    match field
    case Hashes => c.hashes
    case Jobs => c.jobs
    case Submits => c.submits
    case Accepts => c.accepts
    case Rejects => c.rejects
  }

  /** One counter's last values, added. */
  ghost function Summed(connections: seq<seq<Counters>>, field: Field): nat
    requires AllConnections(connections)
  {
    if |connections| == 0 then 0
    else
      var last := connections[|connections| - 1];
      Summed(connections[..|connections| - 1], field) + Read(last[|last| - 1], field)
  }

  /** Each published total is the sum of that counter's last values, modulo 2^64. */
  lemma TotalsAddUp(connections: seq<seq<Counters>>, field: Field)
    requires AllConnections(connections)
    ensures Read(Total(Flatten(connections)), field) == Wrap64(Summed(connections, field))
  {
    hide Read, Total, Wrap64;
    TotalsAreExact(connections);
    SumReads(connections, field);
  }

  lemma {:induction false} SumReads(connections: seq<seq<Counters>>, field: Field)
    requires AllConnections(connections)
    ensures Read(SumOfLast(connections), field) == Wrap64(Summed(connections, field))
  {
    hide Plus, Read, Wrap64;
    if |connections| > 0 {
      var n := |connections| - 1;
      assert Connection(connections[n]);
      var last := connections[n][|connections[n]| - 1];
      SumReads(connections[..n], field);
      ReadPlus(SumOfLast(connections[..n]), last, field);
      WrapPart(Summed(connections[..n], field), Read(last, field));
    } else {
      ReadZero(field);
    }
  }

  lemma ReadPlus(a: Counters, b: Counters, field: Field)
    ensures Read(Plus(a, b), field) == Wrap64(Read(a, field) + Read(b, field))
  {
  }

  lemma ReadZero(field: Field)
    ensures Read(ZERO, field) == 0 == Wrap64(0)
  {
  }

  lemma WrapPart(x: nat, y: nat)
    ensures Wrap64(Wrap64(x) + y) == Wrap64(x + y)
  {
  }

  /** For a connection in progress too: earlier connections' last values plus the current snapshot. */
  lemma TotalsInProgress(connections: seq<seq<Counters>>, current: seq<Counters>)
    requires Connection(current) && AllConnections(connections)
    ensures Total(Flatten(connections) + current) == Plus(SumOfLast(connections), current[|current| - 1])
  {
    hide Plus, Updated, Connection, UpdatedAll;
    TotalsAreExact(connections);
    WithinConnection(Flatten(connections), current);
  }

  // Monotonicity

  /** The sums stay in 64 bits. */
  predicate Roomy(base: Counters, conn: Counters, next: Counters) {
    && base.hashes + conn.hashes + next.hashes < U64_LIMIT && base.jobs + conn.jobs + next.jobs < U64_LIMIT
    && base.submits + conn.submits + next.submits < U64_LIMIT && base.accepts + conn.accepts + next.accepts < U64_LIMIT
    && base.rejects + conn.rejects + next.rejects < U64_LIMIT
  }

  /** Whatever a snapshot says, no published total goes down, as long as the sums stay in 64 bits. */
  lemma TotalsNeverDecrease(snapshots: seq<Counters>, next: Counters)
    requires Roomy(UpdatedAll(snapshots).0, UpdatedAll(snapshots).1, next)
    ensures AtMost(Total(snapshots), Total(snapshots + [next]))
  {
    hide UpdatedAll, Wrap64;
    OneMoreSnapshot(snapshots, next);
    var base, conn := UpdatedAll(snapshots).0, UpdatedAll(snapshots).1;
    NoWrap(base.hashes, conn.hashes, next.hashes);
    NoWrap(base.jobs, conn.jobs, next.jobs);
    NoWrap(base.submits, conn.submits, next.submits);
    NoWrap(base.accepts, conn.accepts, next.accepts);
    NoWrap(base.rejects, conn.rejects, next.rejects);
  }

  lemma NoWrap(b: U64, c: U64, n: U64)
    requires b + c + n < U64_LIMIT
    ensures Wrap64(b + c) == b + c && Wrap64(b + n) == b + n && Wrap64(Wrap64(b + c) + n) == b + c + n
  {
  }
}
