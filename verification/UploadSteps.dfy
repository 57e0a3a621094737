/** Every step of an upload run keeps the invariant. */
module UploadSteps {
  import opened Wrappers
  import opened Retry
  import opened Storage
  import opened UploadRun
  import opened UploadInvariant
  import Pool

  // Steps of the dispatcher

  /** Steps after which files, workers, table and store are as before. */
  lemma SameData(c: Config, t0: Table, r0: Remote, s: State, s': State)
    requires Data(c, t0, r0, s) && s'.workers == s.workers && s'.table == s.table && s'.remote == s.remote
    ensures Data(c, t0, r0, s')
  {
    forall id | id in s'.workers ensures WorkerOk(c, t0, r0, s', id, s'.workers[id]) {
      assert WorkerOk(c, t0, r0, s, id, s.workers[id]);
    }
    forall key | !Owned(c, s', key) ensures Untouched(t0, r0, s', key) {
      SameOwners(c, s, s', key);
      assert Untouched(t0, r0, s, key);
    }
  }

  /** One more file is behind the dispatcher. */
  lemma Advanced(c: Config, t0: Table, s: State, s': State, i: nat)
    requires Progress(c, t0, s) && Position(c, s) == i < |c.files| && s'.pc == Head(i + 1)
    requires s.pc.Head? || s.pc.Lookup? || s.pc.Dispatch?
    requires s.lookupFailed <= s'.lookupFailed
    requires || s'.upToDate == s.upToDate
             || (s'.upToDate == s.upToDate + {i} && UpToDate(c, t0, i) && s'.workers == s.workers)
    requires forall id :: id in s.workers ==> id in s'.workers
    requires forall id :: id in s'.workers ==> id in s.workers || id == i
    requires Handled(c, s', i)
    ensures Progress(c, t0, s')
  {
    forall j: nat | j < i + 1 ensures Handled(c, s', j) {
      if j < i {
        assert Handled(c, s, j);
      }
    }
  }

  /** The files handled so far stay handled when the dispatcher only changes its place. */
  lemma StillHandled(c: Config, s: State, s': State, n: nat)
    requires forall j: nat :: j < n ==> Handled(c, s, j)
    requires s'.workers == s.workers && s'.lookupFailed == s.lookupFailed && s'.upToDate == s.upToDate
    ensures forall j: nat :: j < n ==> Handled(c, s', j)
  {
    forall j: nat | j < n ensures Handled(c, s', j) {
      assert Handled(c, s, j);
    }
  }

  lemma NextFileProgress(c: Config, t0: Table, s: State)
    requires Progress(c, t0, s) && s.pc.Head?
    ensures Progress(c, t0, DispatcherStep(c, s, NextFile).value)
  {
    var s', i := DispatcherStep(c, s, NextFile).value, s.pc.i;
    StillHandled(c, s, s', i);
    if i < |c.files| && !s.failed && !Eligible(c.files[i]) {
      Advanced(c, t0, s, s', i);
    }
  }

  lemma NextFileSlots(c: Config, s: State)
    requires Slots(c, s) && s.pc.Head?
    ensures Slots(c, DispatcherStep(c, s, NextFile).value)
  {
  }

  lemma NextFileInv(c: Config, t0: Table, r0: Remote, s: State)
    requires Inv(c, t0, r0, s) && s.pc.Head?
    ensures Inv(c, t0, r0, DispatcherStep(c, s, NextFile).value)
  {
    var s' := DispatcherStep(c, s, NextFile).value;
    SameData(c, t0, r0, s, s');
    NextFileSlots(c, s);
    NextFileProgress(c, t0, s);
    SameFlag(s, s');
  }

  lemma SameFlag(s: State, s': State)
    requires Flag(s) && s'.workers == s.workers && s'.failed == s.failed && s'.lookupFailed == s.lookupFailed
    requires s'.pc.Decided? ==> s'.pc.success == !s.failed
    ensures Flag(s')
  {
  }

  lemma LookedUpProgress(c: Config, t0: Table, s: State, ok: bool)
    requires Progress(c, t0, s) && s.pc.Lookup? && RowAt(s.table, Key(c, s.pc.i)) == RowAt(t0, Key(c, s.pc.i))
    ensures Progress(c, t0, DispatcherStep(c, s, LookedUp(ok)).value)
  {
    var s', i := DispatcherStep(c, s, LookedUp(ok)).value, s.pc.i;
    if ok && NeedsWork(c, i, RowAt(t0, Key(c, i))) {
      StillHandled(c, s, s', i);
    } else {
      Advanced(c, t0, s, s', i);
    }
  }

  lemma LookedUpInv(c: Config, t0: Table, r0: Remote, s: State, ok: bool)
    requires ValidConfig(c) && Inv(c, t0, r0, s) && s.pc.Lookup?
    ensures Inv(c, t0, r0, DispatcherStep(c, s, LookedUp(ok)).value)
  {
    var s', i := DispatcherStep(c, s, LookedUp(ok)).value, s.pc.i;
    AtStart(c, t0, r0, s, i);
    LookedUpProgress(c, t0, s, ok);
    SameData(c, t0, r0, s, s');
    LookedUpFlag(c, s, ok);
  }

  lemma AtStart(c: Config, t0: Table, r0: Remote, s: State, i: nat)
    requires ValidConfig(c) && Data(c, t0, r0, s) && i < |c.files|
    requires forall id :: id in s.workers ==> id < i
    ensures Untouched(t0, r0, s, Key(c, i)) && RowAt(s.table, Key(c, i)) == RowAt(t0, Key(c, i))
  {
    NotOwned(c, s, i);
    assert Untouched(t0, r0, s, Key(c, i));
  }

  lemma LookedUpFlag(c: Config, s: State, ok: bool)
    requires Flag(s) && s.pc.Lookup? && s.pc.i < |c.files|
    ensures Flag(DispatcherStep(c, s, LookedUp(ok)).value)
  {
  }

  lemma PoolOnly(c: Config, t0: Table, r0: Remote, s: State, s': State)
    requires Inv(c, t0, r0, s) && s' == s.(pool := s'.pool) && Slots(c, s')
    ensures Inv(c, t0, r0, s')
  {
    SameData(c, t0, r0, s, s');
    assert Position(c, s') == Position(c, s);
    forall i: nat | Handled(c, s, i) ensures Handled(c, s', i) {
    }
  }

  lemma MarkSlots(c: Config, s: State)
    requires Slots(c, s) && DispatcherStep(c, s, Mark).Some?
    ensures Slots(c, DispatcherStep(c, s, Mark).value)
  {
    Pool.MarkInv(s.pool);
  }

  lemma SeekSlots(c: Config, s: State)
    requires Slots(c, s) && s.pc.Dispatch? && DispatcherStep(c, s, Scan).Some?
    ensures Slots(c, DispatcherStep(c, s, Scan).value)
  {
    Pool.SeekInv(s.pool);
  }

  lemma BarrierSlots(c: Config, s: State)
    requires Slots(c, s) && s.pc.Draining? && DispatcherStep(c, s, Scan).Some?
    ensures Slots(c, DispatcherStep(c, s, Scan).value)
  {
    Pool.BarrierInv(s.pool);
  }

  lemma PoolInv(c: Config, t0: Table, r0: Remote, s: State, e: Event)
    requires Inv(c, t0, r0, s) && (e == Scan || e == Mark) && DispatcherStep(c, s, e).Some?
    ensures Inv(c, t0, r0, DispatcherStep(c, s, e).value)
  {
    if e == Mark {
      MarkSlots(c, s);
    } else if s.pc.Dispatch? {
      SeekSlots(c, s);
    } else {
      BarrierSlots(c, s);
    }
    PoolOnly(c, t0, r0, s, DispatcherStep(c, s, e).value);
  }

  /** The new worker takes over the slot that was marked for it. */
  lemma SpawnSlots(c: Config, t0: Table, s: State)
    requires Slots(c, s) && Progress(c, t0, s) && s.pc.Dispatch? && s.pool.cursor.Marked?
    ensures Slots(c, DispatcherStep(c, s, Spawn(true)).value)
  {
    var i := s.pc.i;
    assert i !in s.workers && i !in s.pool.holder;
    Pool.SpawnInv(s.pool, i);
  }

  lemma SpawnData(c: Config, t0: Table, r0: Remote, s: State, s': State, i: nat, row: Row)
    requires ValidConfig(c) && Data(c, t0, r0, s) && i < |c.files| && Eligible(c.files[i])
    requires forall id :: id in s.workers ==> id < i
    requires row == RowAt(t0, Key(c, i)) && NeedsWork(c, i, row)
    requires s'.workers == s.workers[i := Worker(row, Started, false)] && s'.table == s.table && s'.remote == s.remote
    ensures Data(c, t0, r0, s')
  {
    AtStart(c, t0, r0, s, i);
    forall id | id in s'.workers ensures WorkerOk(c, t0, r0, s', id, s'.workers[id]) {
      if id != i {
        assert WorkerOk(c, t0, r0, s, id, s.workers[id]);
      }
    }
    forall key | !Owned(c, s', key) ensures Untouched(t0, r0, s', key) {
      MoreOwners(c, s, s', key);
      assert Untouched(t0, r0, s, key);
    }
  }

  lemma MoreOwners(c: Config, s: State, s': State, key: string)
    requires s.workers.Keys <= s'.workers.Keys
    ensures Owned(c, s, key) ==> Owned(c, s', key)
  {
  }

  lemma SpawnFlag(c: Config, t0: Table, s: State)
    requires Flag(s) && Progress(c, t0, s) && s.pc.Dispatch? && s.pool.cursor.Marked?
    ensures Flag(DispatcherStep(c, s, Spawn(true)).value)
  {
    var s' := DispatcherStep(c, s, Spawn(true)).value;
    assert forall id :: id in s.workers ==> s'.workers[id] == s.workers[id];
    if s.failed && s.lookupFailed == {} {
      var o :| o in s.workers && HasFailed(s.workers[o].phase);
      assert o in s'.workers && HasFailed(s'.workers[o].phase);
    }
  }

  lemma SpawnInv(c: Config, t0: Table, r0: Remote, s: State)
    requires ValidConfig(c) && Inv(c, t0, r0, s) && s.pc.Dispatch? && s.pool.cursor.Marked?
    ensures Inv(c, t0, r0, DispatcherStep(c, s, Spawn(true)).value)
  {
    var s' := DispatcherStep(c, s, Spawn(true)).value;
    SpawnSlots(c, t0, s);
    SpawnData(c, t0, r0, s, s', s.pc.i, s.pc.row);
    Advanced(c, t0, s, s', s.pc.i);
    SpawnFlag(c, t0, s);
  }

  lemma StopInv(c: Config, t0: Table, r0: Remote, s: State, e: Event)
    requires Inv(c, t0, r0, s) && (e == Decide || e == Spawn(false)) && DispatcherStep(c, s, e).Some?
    ensures Inv(c, t0, r0, DispatcherStep(c, s, e).value)
  {
    var s' := DispatcherStep(c, s, e).value;
    SameData(c, t0, r0, s, s');
    forall i: nat | Handled(c, s, i) ensures Handled(c, s', i) {
    }
  }

  lemma DispatcherInv(c: Config, t0: Table, r0: Remote, s: State, e: Event)
    requires ValidConfig(c) && Inv(c, t0, r0, s) && DispatcherStep(c, s, e).Some?
    ensures Inv(c, t0, r0, DispatcherStep(c, s, e).value)
  {
    match e
    case NextFile => NextFileInv(c, t0, r0, s);
    case LookedUp(ok) => LookedUpInv(c, t0, r0, s, ok);
    case Scan => PoolInv(c, t0, r0, s, e);
    case Mark => PoolInv(c, t0, r0, s, e);
    case Spawn(created) => if created { SpawnInv(c, t0, r0, s); } else { StopInv(c, t0, r0, s, e); }
    case Decide => StopInv(c, t0, r0, s, e);
  }

  // Steps of a worker

  /** A worker's step changes the worker, and table and store only at its key. */
  lemma WorkerMoves(c: Config, s: State, e: Event)
    requires !IsDispatcher(e) && WorkerStep(c, s, e).Some?
    ensures e.id in s.workers && e.id < |c.files| && Moved(c, s, WorkerStep(c, s, e).value, e.id)
    ensures !s.workers[e.id].phase.Gone?
  {
    if e.Tried? || e.MetaUpdated? {
      RequestMoves(c, s, e);
    }
  }

  lemma RequestMoves(c: Config, s: State, e: Event)
    requires (e.Tried? || e.MetaUpdated?) && WorkerStep(c, s, e).Some?
    ensures e.id in s.workers && e.id < |c.files| && Moved(c, s, WorkerStep(c, s, e).value, e.id)
    ensures !s.workers[e.id].phase.Gone?
  {
  }

  /** A 200 with a well-formed tag means that the store has the contents of the file. */
  lemma TriedOk(c: Config, t0: Table, r0: Remote, s: State, e: Event)
    requires e.Tried? && WorkerStep(c, s, e).Some? && WorkerOk(c, t0, r0, s, e.id, s.workers[e.id])
    ensures var s' := WorkerStep(c, s, e).value; WorkerOk(c, t0, r0, s', e.id, s'.workers[e.id]) && !c.dryRun
  {
  }

  /** A metadata update is recorded with the contents that the table had from before the run. */
  lemma MetaStoredOk(c: Config, t0: Table, r0: Remote, s: State, e: Event)
    requires e.MetaStored? && WorkerStep(c, s, e).Some? && WorkerOk(c, t0, r0, s, e.id, s.workers[e.id])
    ensures var s' := WorkerStep(c, s, e).value; WorkerOk(c, t0, r0, s', e.id, s'.workers[e.id]) && !c.dryRun
  {
  }

  lemma OtherOk(c: Config, t0: Table, r0: Remote, s: State, e: Event)
    requires !IsDispatcher(e) && !e.Tried? && !e.MetaStored? && WorkerStep(c, s, e).Some?
    requires WorkerOk(c, t0, r0, s, e.id, s.workers[e.id])
    ensures var s' := WorkerStep(c, s, e).value; WorkerOk(c, t0, r0, s', e.id, s'.workers[e.id])
    ensures c.dryRun ==> WorkerStep(c, s, e).value.table == s.table && WorkerStep(c, s, e).value.remote == s.remote
  {
  }

  lemma WorkerData(c: Config, t0: Table, r0: Remote, s: State, e: Event)
    requires ValidConfig(c) && Data(c, t0, r0, s) && !IsDispatcher(e) && WorkerStep(c, s, e).Some?
    ensures Data(c, t0, r0, WorkerStep(c, s, e).value)
  {
    WorkerMoves(c, s, e);
    assert WorkerOk(c, t0, r0, s, e.id, s.workers[e.id]);
    if e.Tried? {
      TriedOk(c, t0, r0, s, e);
    } else if e.MetaStored? {
      MetaStoredOk(c, t0, r0, s, e);
    } else {
      OtherOk(c, t0, r0, s, e);
    }
    MovedData(c, t0, r0, s, WorkerStep(c, s, e).value, e.id);
  }

  /** markFree gives back the slot of the worker that calls it. */
  lemma LeaveSlots(c: Config, s: State, id: nat)
    requires Slots(c, s) && WorkerStep(c, s, Leave(id)).Some?
    ensures Slots(c, WorkerStep(c, s, Leave(id)).value)
  {
    Pool.FreeInv(s.pool, id);
  }

  lemma WorkerSlots(c: Config, s: State, e: Event)
    requires Slots(c, s) && !IsDispatcher(e) && WorkerStep(c, s, e).Some?
    ensures Slots(c, WorkerStep(c, s, e).value)
  {
    WorkerMoves(c, s, e);
    if e.Leave? {
      LeaveSlots(c, s, e.id);
    } else {
      MovedSlots(c, s, WorkerStep(c, s, e).value, e.id);
    }
  }

  lemma WorkerProgress(c: Config, t0: Table, s: State, e: Event)
    requires Progress(c, t0, s) && !IsDispatcher(e) && WorkerStep(c, s, e).Some?
    ensures Progress(c, t0, WorkerStep(c, s, e).value)
  {
    WorkerMoves(c, s, e);
    MovedProgress(c, t0, s, WorkerStep(c, s, e).value, e.id);
  }

  lemma WorkerFlag(c: Config, s: State, e: Event)
    requires Flag(s) && !s.pc.Decided? && !IsDispatcher(e) && WorkerStep(c, s, e).Some?
    ensures Flag(WorkerStep(c, s, e).value)
  {
    var s', id := WorkerStep(c, s, e).value, e.id;
    WorkerMoves(c, s, e);
    if HasFailed(s'.workers[id].phase) && !e.Fail? {
      assert HasFailed(s.workers[id].phase);
    }
    MovedFlag(c, s, s', id);
  }

  lemma WorkerInv(c: Config, t0: Table, r0: Remote, s: State, e: Event)
    requires ValidConfig(c) && Inv(c, t0, r0, s) && !IsDispatcher(e) && WorkerStep(c, s, e).Some?
    ensures Inv(c, t0, r0, WorkerStep(c, s, e).value)
  {
    WorkerData(c, t0, r0, s, e);
    WorkerSlots(c, s, e);
    WorkerProgress(c, t0, s, e);
    WorkerMoves(c, s, e);
    StillAtWork(c, s, e.id);
    WorkerFlag(c, s, e);
  }

  // Whole runs

  lemma StepInv(c: Config, t0: Table, r0: Remote, s: State, e: Event)
    requires ValidConfig(c) && Inv(c, t0, r0, s) && Step(c, s, e).Some?
    ensures Inv(c, t0, r0, Step(c, s, e).value)
  {
    if IsDispatcher(e) {
      DispatcherInv(c, t0, r0, s, e);
    } else {
      WorkerInv(c, t0, r0, s, e);
    }
  }

  lemma {:induction false} RunInv(c: Config, t0: Table, r0: Remote, s: State, events: seq<Event>)
    requires ValidConfig(c) && Inv(c, t0, r0, s) && Run(c, s, events).Some?
    ensures Inv(c, t0, r0, Run(c, s, events).value)
    decreases |events|
  {
    if events != [] {
      StepInv(c, t0, r0, s, events[0]);
      RunInv(c, t0, r0, Step(c, s, events[0]).value, events[1..]);
    }
  }
}
