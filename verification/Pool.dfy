/** The slots of src/threads.cc. One dispatcher takes slots and waits for them; workers give them back. Reading
    one slot is one step, so both of the dispatcher's scans can be interrupted by workers at every slot. */
module Pool {
  /** Where the dispatcher is: looking for a free slot, holding one it has found, holding one it has marked,
      or in the scan that waits until all slots are free. */
  datatype Cursor =
    | Idle | Seek(j: nat) | Found(slot: nat) | Marked(slot: nat) | Barrier(j: nat, foundBusy: bool) | Passed

  /** The slot flags, and which live worker holds which slot. */
  datatype Pool = Pool(busy: seq<bool>, holder: map<nat, nat>, cursor: Cursor)

  function Fresh(n: nat): Pool {
    Pool(seq(n, i => false), map[], Idle)
  }

  /** findFreeThread and sleepTillThreadFree, one slot at a time. At the end of the table it sleeps and starts over. */
  function SeekStep(p: Pool): Pool
    requires p.cursor.Seek?
  {
    var j := p.cursor.j;
    if j >= |p.busy| then p.(cursor := Seek(0))
    else if p.busy[j] then p.(cursor := Seek(j + 1))
    else p.(cursor := Found(j))
  }

  /** markBusy. */
  function MarkStep(p: Pool): Pool
    requires p.cursor.Found? && p.cursor.slot < |p.busy|
  {
    p.(busy := p.busy[p.cursor.slot := true], cursor := Marked(p.cursor.slot))
  }

  /** pthread_create: from now on the slot belongs to the worker. */
  function SpawnStep(p: Pool, id: nat): Pool
    requires p.cursor.Marked?
  {
    p.(holder := p.holder[id := p.cursor.slot], cursor := Idle)
  }

  /** markFree, by the worker. */
  function FreeStep(p: Pool, id: nat): Pool
    requires id in p.holder && p.holder[id] < |p.busy|
  {
    p.(busy := p.busy[p.holder[id] := false], holder := p.holder - {id})
  }

  /** sleepTillAllThreadsFree, one slot at a time. A scan that saw a busy slot is repeated. */
  function BarrierStep(p: Pool): Pool
    requires p.cursor.Barrier?
  {
    var j, found := p.cursor.j, p.cursor.foundBusy;
    if j < |p.busy| then p.(cursor := Barrier(j + 1, found || p.busy[j]))
    else if found then p.(cursor := Barrier(0, false))
    else p.(cursor := Passed)
  }

  ghost predicate HoldersExact(p: Pool) {
    && (forall id :: id in p.holder ==> p.holder[id] < |p.busy| && p.busy[p.holder[id]])
    && (forall a, b :: a in p.holder && b in p.holder && p.holder[a] == p.holder[b] ==> a == b)
    && (p.cursor.Marked? ==> p.cursor.slot < |p.busy| && p.busy[p.cursor.slot] && p.cursor.slot !in p.holder.Values)
    && (forall s :: 0 <= s < |p.busy| && p.busy[s] ==> s in p.holder.Values || p.cursor == Marked(s))
  }

  /** Busy slots and live workers correspond one to one, apart from a slot marked for a worker that is about to
      start. A slot found free stays free until it is marked. A scan of the barrier that has seen no busy slot
      so far has seen slots that are still free. */
  ghost predicate Inv(p: Pool) {
    && HoldersExact(p)
    && (p.cursor.Found? ==> p.cursor.slot < |p.busy| && !p.busy[p.cursor.slot])
    && (p.cursor.Barrier? && !p.cursor.foundBusy ==> forall s :: 0 <= s < p.cursor.j && s < |p.busy| ==> !p.busy[s])
    && (p.cursor == Passed ==> forall s :: 0 <= s < |p.busy| ==> !p.busy[s])
  }

  lemma SeekInv(p: Pool)
    requires Inv(p) && p.cursor.Seek?
    ensures Inv(SeekStep(p))
  {
  }

  lemma MarkInv(p: Pool)
    requires Inv(p) && p.cursor.Found?
    ensures Inv(MarkStep(p))
  {
  }

  lemma SpawnInv(p: Pool, id: nat)
    requires Inv(p) && p.cursor.Marked? && id !in p.holder
    ensures Inv(SpawnStep(p, id))
  {
    var q := SpawnStep(p, id);
    assert q.holder[id] == p.cursor.slot;
    forall s | 0 <= s < |q.busy| && q.busy[s]
      ensures s in q.holder.Values
    {
      if s in p.holder.Values {
        var a :| a in p.holder && p.holder[a] == s;
        assert q.holder[a] == s;
      }
    }
  }

  lemma FreeInv(p: Pool, id: nat)
    requires Inv(p) && id in p.holder
    ensures Inv(FreeStep(p, id))
  {
    var q := FreeStep(p, id);
    forall s | 0 <= s < |q.busy| && q.busy[s]
      ensures s in q.holder.Values || q.cursor == Marked(s)
    {
      if s in p.holder.Values {
        var a :| a in p.holder && p.holder[a] == s;
        assert q.holder[a] == s;
      }
    }
  }

  lemma BarrierInv(p: Pool)
    requires Inv(p) && p.cursor.Barrier?
    ensures Inv(BarrierStep(p))
  {
  }

  /** The barrier is not passed while any worker holds a slot, although its scan is not atomic. */
  lemma HeldMeansNotPassed(p: Pool, id: nat)
    requires Inv(p) && id in p.holder
    ensures p.cursor != Passed
  {
  }

  /** There are never more live workers than slots. */
  lemma AtMostAllSlots(p: Pool)
    requires Inv(p)
    ensures |p.holder| <= |p.busy|
  {
    Pigeonhole(p.holder, Slots(|p.busy|));
  }

  function Slots(n: nat): (slots: set<nat>)
    ensures |slots| == n && forall s: nat :: s in slots <==> s < n
  {
    if n == 0 then {} else Slots(n - 1) + {n - 1}
  }

  lemma {:induction false} Pigeonhole(holder: map<nat, nat>, slots: set<nat>)
    requires forall id :: id in holder ==> holder[id] in slots
    requires forall a, b :: a in holder && b in holder && holder[a] == holder[b] ==> a == b
    ensures |holder| <= |slots|
    decreases |holder|
  {
    if holder != map[] {
      var id :| id in holder;
      assert |holder - {id}| == |holder| - 1;
      Pigeonhole(holder - {id}, slots - {holder[id]});
    }
  }

  /** How many steps the dispatcher is from the end of its present scan, when no worker is at work. */
  function CursorDistance(cursor: Cursor, n: nat): nat {
    match cursor
    case Idle => 0
    case Seek(j) => if j < n then 3 else 4
    case Found(_) => 2
    case Marked(_) => 1
    case Barrier(j, found) => (if j < n then n - j else 0) + (if found then n + 3 else 2)
    case Passed => 1
  }

  // The class itself, whose methods run without interruption.

  const MAX_THREADS: nat := 100

  function FirstFree(busy: seq<bool>, from: nat): int
    decreases |busy| - from
  {
    if from >= |busy| then -1 else if !busy[from] then from else FirstFree(busy, from + 1)
  }

  function Repeat(p: Pool, steps: nat): Pool
    decreases steps
  {
    if steps == 0 || !p.cursor.Seek? then p else Repeat(SeekStep(p), steps - 1)
  }

  /** A search that no worker interrupts finds in the table what findFreeThread returns. */
  lemma {:induction false} Uninterrupted(p: Pool)
    requires p.cursor.Seek? && FirstFree(p.busy, p.cursor.j) >= 0
    ensures var r := FirstFree(p.busy, p.cursor.j);
            r >= p.cursor.j && Repeat(p, r - p.cursor.j + 1) == p.(cursor := Found(r))
    decreases |p.busy| - p.cursor.j
  {
    if !p.busy[p.cursor.j] {
      assert Repeat(SeekStep(p), 0) == SeekStep(p);
    } else {
      Uninterrupted(SeekStep(p));
    }
  }

  class Threads {
    const busyThreads: array<int>
    const threadsCount: nat

    ghost predicate Valid()
      reads busyThreads
    {
      && threadsCount <= busyThreads.Length == MAX_THREADS
      && forall i :: 0 <= i < threadsCount ==> busyThreads[i] == 0 || busyThreads[i] == 1
    }

    ghost function Busy(): seq<bool>
      requires Valid()
      reads busyThreads
    {
      seq(threadsCount, i requires 0 <= i < threadsCount reads busyThreads => busyThreads[i] != 0)
    }

    constructor (count: nat)
      requires count <= MAX_THREADS
      ensures Valid() && fresh(busyThreads) && Busy() == Fresh(count).busy
    {
      threadsCount := count;
      busyThreads := new int[MAX_THREADS];
      new;
      var i := 0;
      while i < threadsCount
        invariant 0 <= i <= threadsCount
        invariant forall k :: 0 <= k < i ==> busyThreads[k] == 0
      {
        busyThreads[i] := 0;
        i := i + 1;
      }
    }

    method FindFreeThread() returns (r: int)
      requires Valid()
      ensures r == FirstFree(Busy(), 0)
      ensures r >= 0 ==> r < threadsCount && !Busy()[r] && forall k :: 0 <= k < r ==> Busy()[k]
      ensures r < 0 <==> forall k :: 0 <= k < threadsCount ==> Busy()[k]
    {
      var i := 0;
      while i < threadsCount
        invariant 0 <= i <= threadsCount
        invariant forall k :: 0 <= k < i ==> Busy()[k]
        invariant FirstFree(Busy(), 0) == FirstFree(Busy(), i)
      {
        if busyThreads[i] == 0 {
          return i;
        }
        i := i + 1;
      }
      r := -1;
    }

    method MarkBusy(threadNumber: nat)
      requires Valid() && threadNumber < threadsCount
      modifies busyThreads
      ensures Valid() && Busy() == old(Busy())[threadNumber := true]
    {
      busyThreads[threadNumber] := 1;
    }

    method MarkFree(threadNumber: nat)
      requires Valid() && threadNumber < threadsCount
      modifies busyThreads
      ensures Valid() && Busy() == old(Busy())[threadNumber := false]
    {
      busyThreads[threadNumber] := 0;
    }
  }
}
