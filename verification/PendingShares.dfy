/**
 Shares submitted and not yet answered (stratum.c): 64 slots in place, standing for a map from request id to
 submission. An unanswered id is lost only when all 64 slots are taken.
 */
module PendingShares {
  import opened Hex
  import opened MinerState
  import opened Miner

  const PENDING_SHARES: nat := 64

  datatype Slot = Slot(id: int, active: bool, submission: Submission)
  datatype Submission = Submission(difficulty: real, submittedAt: real)

  /** No two active slots have the same id. */
  ghost predicate DistinctIds(slots: seq<Slot>) {
    forall i, j :: 0 <= i < j < |slots| && slots[i].active && slots[j].active ==> slots[i].id != slots[j].id
  }

  function ActiveCount(slots: seq<Slot>): nat {
    if |slots| == 0 then 0 else ActiveCount(slots[..|slots| - 1]) + if slots[|slots| - 1].active then 1 else 0
  }

  /** The map the slots stand for. */
  function Table(slots: seq<Slot>): map<int, Submission> {
    if |slots| == 0 then map[]
    else
      var before, last := Table(slots[..|slots| - 1]), slots[|slots| - 1];
      if last.active then before[last.id := last.submission] else before
  }

  lemma {:induction false} TableHas(slots: seq<Slot>, id: int)
    ensures id in Table(slots) <==> exists i :: 0 <= i < |slots| && slots[i].active && slots[i].id == id
  {
    if |slots| > 0 {
      var before, last := slots[..|slots| - 1], slots[|slots| - 1];
      TableHas(before, id);
      if exists i :: 0 <= i < |before| && before[i].active && before[i].id == id {
        var i :| 0 <= i < |before| && before[i].active && before[i].id == id;
        assert slots[i].active && slots[i].id == id;
      }
      if last.active && last.id == id {
        assert slots[|slots| - 1].active;
      }
    }
  }

  lemma {:induction false} TableAt(slots: seq<Slot>, i: nat)
    requires DistinctIds(slots) && i < |slots| && slots[i].active
    ensures slots[i].id in Table(slots) && Table(slots)[slots[i].id] == slots[i].submission
  {
    if i < |slots| - 1 {
      TableAt(slots[..|slots| - 1], i);
    }
  }

  lemma {:induction false} TableSize(slots: seq<Slot>)
    requires DistinctIds(slots)
    ensures |Table(slots)| == ActiveCount(slots) <= |slots|
    ensures ActiveCount(slots) == |slots| <==> forall i :: 0 <= i < |slots| ==> slots[i].active
  {
    if |slots| > 0 {
      var before, last := slots[..|slots| - 1], slots[|slots| - 1];
      TableSize(before);
      TableHas(before, last.id);
    }
  }

  /** Deactivating a slot removes its id. */
  lemma {:induction false} ClearSlot(slots: seq<Slot>, i: nat)
    requires DistinctIds(slots) && i < |slots| && slots[i].active
    ensures var after := slots[i := slots[i].(active := false)];
            DistinctIds(after) && Table(after) == Table(slots) - {slots[i].id}
  {
    var before, n := slots[..|slots| - 1], |slots| - 1;
    var after := slots[i := slots[i].(active := false)];
    if i < n {
      ClearSlot(before, i);
      assert after[..n] == before[i := slots[i].(active := false)];
    } else {
      assert after[..n] == before;
      TableHas(before, slots[i].id);
    }
  }

  /** Filling a free slot adds the id. */
  lemma {:induction false} FillSlot(slots: seq<Slot>, i: nat, id: int, submission: Submission)
    requires DistinctIds(slots) && i < |slots| && !slots[i].active && id !in Table(slots)
    ensures var after := slots[i := Slot(id, true, submission)];
            DistinctIds(after) && Table(after) == Table(slots)[id := submission]
  {
    var before, n := slots[..|slots| - 1], |slots| - 1;
    var after := slots[i := Slot(id, true, submission)];
    TableHas(slots, id);
    if i < n {
      FillSlot(before, i, id, submission);
      assert after[..n] == before[i := Slot(id, true, submission)];
    } else {
      assert after[..n] == before;
    }
  }

  /** Overwriting slot `i`: whatever id it held goes, and the new one comes. */
  lemma WriteSlot(slots: seq<Slot>, i: nat, id: int, submission: Submission)
    requires DistinctIds(slots) && i < |slots|
    requires id !in Table(slots) || (slots[i].active && slots[i].id == id)
    ensures var after := slots[i := Slot(id, true, submission)];
            && DistinctIds(after)
            && Table(after) ==
               (if slots[i].active then Table(slots) - {slots[i].id} else Table(slots))[id := submission]
  {
    hide Table, DistinctIds;
    if slots[i].active {
      var cleared := slots[i := slots[i].(active := false)];
      ClearSlot(slots, i);
      FillSlot(cleared, i, id, submission);
      assert cleared[i := Slot(id, true, submission)] == slots[i := Slot(id, true, submission)];
    } else {
      FillSlot(slots, i, id, submission);
    }
  }

  /** `id % 64` in C, and 0 when that is negative. */
  function HomeSlot(id: int): (slot: nat)
    ensures slot < PENDING_SHARES
  {
    if id >= 0 then id % PENDING_SHARES else 0
  }

  class Pending {
    const slots: array<Slot>
    var count: int
    var lastDifficulty: real
    var bestDifficulty: real
    var lastResultAccepted: int
    var lastResultDifficulty: real
    var lastResultElapsed: real

    /** `pending_count` is the size of the map. */
    ghost predicate Valid()
      reads this, slots
    {
      slots.Length == PENDING_SHARES && DistinctIds(slots[..]) && count == |View()|
    }

    ghost function View(): map<int, Submission>
      reads slots
    {
      Table(slots[..])
    }

    constructor ()
      ensures Valid() && fresh(slots) && View() == map[]
    {
      slots := new Slot[PENDING_SHARES](_ => Slot(0, false, Submission(0.0, 0.0)));
      count, lastDifficulty, bestDifficulty := 0, 0.0, 0.0;
      lastResultAccepted, lastResultDifficulty, lastResultElapsed := 0, 0.0, 0.0;
      new;
      AllFree(slots[..]);
    }

    /** The first slot with this id, else the first free one, else -1. */
    method FindSlot(id: int) returns (slot: int)
      requires Valid()
      ensures -1 <= slot < PENDING_SHARES
      ensures slot >= 0 && id in View() ==> slots[slot].active && slots[slot].id == id
      ensures slot >= 0 && id !in View() ==> !slots[slot].active
      ensures slot < 0 <==> id !in View() && |View()| == PENDING_SHARES
    {
      hide Table;
      TableHas(slots[..], id);
      TableSize(slots[..]);
      slot := -1;
      for i := 0 to PENDING_SHARES
        invariant -1 <= slot < i
        invariant forall k :: 0 <= k < i ==> !(slots[k].active && slots[k].id == id)
        invariant if slot < 0 then forall k :: 0 <= k < i ==> slots[k].active else !slots[slot].active
      {
        if slots[i].active && slots[i].id == id {
          assert slots[..][i] == slots[i];
          return i;
        }
        if slot < 0 && !slots[i].active {
          slot := i;
        }
      }
      assert forall k :: 0 <= k < PENDING_SHARES ==> slots[..][k] == slots[k];
    }

    /** `register_pending_share`: the id is added or renewed; only a full table gives one of its ids up for it. */
    method Register(id: int, difficulty: real, now: real)
      requires Valid()
      modifies slots, `count, `lastDifficulty, `bestDifficulty
      ensures Valid()
      ensures var submission := Submission(difficulty, now);
              if id in old(View()) || |old(View())| < PENDING_SHARES then View() == old(View())[id := submission]
              else
                var home := old(slots[if id >= 0 then id % 64 else 0]);
                home.id in old(View()) && View() == (old(View()) - {home.id})[id := submission]
      ensures lastDifficulty == difficulty
      ensures bestDifficulty == if difficulty > old(bestDifficulty) then difficulty else old(bestDifficulty)
    {
      hide Table, DistinctIds;
      var slot := FindSlot(id);
      ghost var before := slots[..];
      TableSize(before);
      if slot < 0 {
        slot := HomeSlot(id);
        AllTaken(before, slot);
      }
      WriteSlot(before, slot, id, Submission(difficulty, now));
      if slots[slot].active {
        TableAt(before, slot);
      }
      if !slots[slot].active {
        count := count + 1;
      }
      slots[slot] := Slot(id, true, Submission(difficulty, now));
      assert slots[..] == before[slot := Slot(id, true, Submission(difficulty, now))];
      lastDifficulty := difficulty;
      if difficulty > bestDifficulty {
        bestDifficulty := difficulty;
      }
    }

    /** `complete_pending_share`: the answered id goes; an unknown one changes nothing. Both leave their result. */
    method Complete(id: int, accepted: bool, now: real) returns (elapsed: real, difficulty: real)
      requires Valid()
      modifies slots, `count, `lastResultAccepted, `lastResultDifficulty, `lastResultElapsed
      ensures Valid() && View() == old(View()) - {id}
      ensures if id in old(View())
              then elapsed == now - old(View())[id].submittedAt && difficulty == old(View())[id].difficulty
              else elapsed == 0.0 && difficulty == 0.0
      ensures lastResultAccepted == (if accepted then 1 else -1)
      ensures lastResultDifficulty == difficulty && lastResultElapsed == elapsed
    {
      elapsed, difficulty := TakeSlot(id, now);
      lastResultAccepted := if accepted then 1 else -1;
      lastResultDifficulty := difficulty;
      lastResultElapsed := elapsed;
    }

    /** The search for the answered id. */
    method TakeSlot(id: int, now: real) returns (elapsed: real, difficulty: real)
      requires Valid()
      modifies slots, `count
      ensures Valid() && View() == old(View()) - {id}
      ensures if id in old(View())
              then elapsed == now - old(View())[id].submittedAt && difficulty == old(View())[id].difficulty
              else elapsed == 0.0 && difficulty == 0.0
    {
      hide Table;
      elapsed, difficulty := 0.0, 0.0;
      TableHas(slots[..], id);
      for i := 0 to PENDING_SHARES
        invariant forall k :: 0 <= k < i ==> !(slots[k].active && slots[k].id == id)
        invariant Valid() && slots[..] == old(slots[..]) && count == old(count)
        invariant elapsed == 0.0 && difficulty == 0.0
      {
        if slots[i].active && slots[i].id == id {
          difficulty := slots[i].submission.difficulty;
          elapsed := now - slots[i].submission.submittedAt;
          ClearSlot(slots[..], i);
          TableAt(slots[..], i);
          ghost var before := slots[..];
          slots[i] := slots[i].(active := false);
          assert slots[..] == before[i := before[i].(active := false)];
          if count > 0 {
            count := count - 1;
          }
          return;
        }
      }
      assert View() - {id} == View();
    }
  }

  lemma {:induction false} AllFree(slots: seq<Slot>)
    requires forall i :: 0 <= i < |slots| ==> !slots[i].active
    ensures DistinctIds(slots) && Table(slots) == map[]
  {
    if |slots| > 0 {
      AllFree(slots[..|slots| - 1]);
    }
  }

  lemma AllTaken(slots: seq<Slot>, i: nat)
    requires DistinctIds(slots) && |Table(slots)| == |slots| && i < |slots|
    ensures slots[i].active
  {
    TableSize(slots);
  }

  // Submitting

  /** The first `k` shares, numbered from `id`. */
  function Numbered(shares: seq<Share>, id: int, k: nat): (r: seq<(int, Share)>)
    requires k <= |shares|
    ensures |r| == k
  {
    seq(k, i requires 0 <= i < k => (id + i, shares[i]))
  }

  function Ids(submitted: seq<(int, Share)>): set<int> {
    if |submitted| == 0 then {} else Ids(submitted[..|submitted| - 1]) + {submitted[|submitted| - 1].0}
  }

  /** One more pending id, as long as there is room. */
  method RegisterNext(table: Pending, id: int, difficulty: real, now: real)
    requires table.Valid()
    modifies table, table.slots
    ensures table.Valid() && |table.View()| <= |old(table.View())| + 1
    ensures |old(table.View())| < PENDING_SHARES ==> table.View().Keys == old(table.View()).Keys + {id}
  {
    hide Table;
    ghost var before := table.View();
    table.Register(id, difficulty, now);
    SizeAfter(before, id, Submission(difficulty, now));
    if |before| >= PENDING_SHARES {
      TableSize(table.slots[..]);
    }
  }

  lemma SizeAfter(m: map<int, Submission>, id: int, submission: Submission)
    ensures |m[id := submission]| <= |m| + 1 && m[id := submission].Keys == m.Keys + {id}
  {
    if id in m {
      assert m[id := submission].Keys == m.Keys;
    } else {
      assert m[id := submission] - {id} == m;
    }
  }

  /** The queue of a miner. */
  ghost function Queued(miner: Miner): seq<Share>
    requires miner.Valid()
    reads miner, miner.slots, miner.threadHashes, miner.deviceHashes
  {
    miner.View().shares
  }

  /** `miner_pop_share`, as far as the queue goes. */
  method PopQueued(miner: Miner) returns (share: Option<Share>)
    requires miner.Valid()
    modifies miner`shareHead, miner`shareCount
    ensures miner.Valid()
    ensures if |old(Queued(miner))| == 0 then share.None? && Queued(miner) == []
            else share == Some(old(Queued(miner))[0]) && Queued(miner) == old(Queued(miner))[1..]
  {
    hide Ring;
    share := miner.Pop();
  }

  /** The first `sends` submissions of a flush succeed and the next fails. Shares leave the miner in the order they
      were queued, with consecutive ids; every one sent is pending; one that cannot be sent is lost. */
  method FlushShares(miner: Miner, table: Pending, nextId: int, sends: nat, difficultyOf: Share -> real, now: real)
    returns (submitted: seq<(int, Share)>, newNextId: int, ok: bool)
    requires miner.Valid() && table.Valid()
    modifies miner`shareHead, miner`shareCount, table, table.slots
    ensures miner.Valid() && table.Valid()
    ensures var shares := old(Queued(miner));
            var k := if sends < |shares| then sends else |shares|;
            && |submitted| == k && (forall i :: 0 <= i < k ==> submitted[i] == (nextId + i, shares[i]))
            && (ok <==> |shares| <= sends)
            && newNextId == (if ok then nextId + k else nextId + k + 1)
            && Queued(miner) == (if ok then [] else shares[k + 1..])
    ensures |old(table.View())| + |submitted| <= PENDING_SHARES ==>
              table.View().Keys == old(table.View()).Keys + Ids(submitted)
  {
    hide Table, Ring, DistinctIds, Queued;
    submitted, newNextId := [], nextId;
    ghost var shares := Queued(miner);
    ghost var start := table.View();
    ghost var i := 0;
    ok := false;
    while true
      invariant miner.Valid() && table.Valid()
      invariant i == |submitted| <= |shares| && i <= sends && submitted == Numbered(shares, nextId, i)
      invariant newNextId == nextId + i && Queued(miner) == shares[i..]
      invariant |table.View()| <= |start| + i
      invariant |start| + i <= PENDING_SHARES ==> table.View().Keys == start.Keys + Ids(submitted)
      decreases |shares| - i
    {
      var share := PopQueued(miner);
      if share.None? {
        ok := true;
        return;
      }
      var id := newNextId;
      newNextId := newNextId + 1;
      if |submitted| == sends {
        return;
      }
      RegisterNext(table, id, difficultyOf(share.value), now);
      submitted := submitted + [(id, share.value)];
      i := i + 1;
      assert submitted[..i - 1] + [(id, share.value)] == submitted;
    }
  }
}
