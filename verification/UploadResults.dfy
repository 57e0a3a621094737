/** What holds of whole upload runs, for every interleaving of the dispatcher and the workers, every outcome of
    the requests and every failure of the database. */
module UploadResults {
  import opened Storage
  import opened Words
  import opened Wrappers
  import opened UploadRun
  import opened UploadInvariant
  import opened UploadSteps
  import Pool

  ghost function Live(s: State): set<nat> {
    set id | id in s.workers && !s.workers[id].phase.Gone?
  }

  lemma Reached(c: Config, t0: Table, r0: Remote, events: seq<Event>)
    requires ValidConfig(c) && Run(c, Init(c, t0, r0), events).Some?
    ensures Inv(c, t0, r0, Run(c, Init(c, t0, r0), events).value)
  {
    InitInv(c, t0, r0);
    RunInv(c, t0, r0, Init(c, t0, r0), events);
  }

  /** In every reachable state each worker that has not called markFree holds a busy slot of its own, every other
      busy slot is the one just marked for the next worker, and so no more workers are at work than there are
      slots. */
  lemma SlotPerWorker(c: Config, t0: Table, r0: Remote, events: seq<Event>)
    requires ValidConfig(c) && Run(c, Init(c, t0, r0), events).Some?
    ensures var s := Run(c, Init(c, t0, r0), events).value;
            && Live(s) == s.pool.holder.Keys && |Live(s)| <= c.threads
            && (forall id :: id in Live(s) ==> s.pool.holder[id] < |s.pool.busy| && s.pool.busy[s.pool.holder[id]])
            && (forall a, b :: a in Live(s) && b in Live(s) && a != b ==> s.pool.holder[a] != s.pool.holder[b])
            && (forall j :: 0 <= j < |s.pool.busy| && s.pool.busy[j] ==>
                  s.pool.cursor == Pool.Marked(j) || exists id :: id in Live(s) && s.pool.holder[id] == j)
  {
    var s := Run(c, Init(c, t0, r0), events).value;
    Reached(c, t0, r0, events);
    assert Live(s) == s.pool.holder.Keys;
    Pool.AtMostAllSlots(s.pool);
    assert |s.pool.holder| == |s.pool.holder.Keys|;
    forall j | 0 <= j < |s.pool.busy| && s.pool.busy[j] && s.pool.cursor != Pool.Marked(j)
      ensures exists id :: id in Live(s) && s.pool.holder[id] == j
    {
      var id :| id in s.pool.holder && s.pool.holder[id] == j;
      assert id in Live(s);
    }
  }

  /** The dispatcher passes the barrier, and reads the flag, only when every worker has called markFree. It then
      reports success exactly when every lookup and every worker succeeded. */
  lemma VerdictIsComplete(c: Config, t0: Table, r0: Remote, events: seq<Event>)
    requires ValidConfig(c) && Run(c, Init(c, t0, r0), events).Some?
    ensures var s := Run(c, Init(c, t0, r0), events).value;
            && (s.pool.cursor == Pool.Passed ==> Live(s) == {})
            && (s.pc.Decided? ==>
                  (s.pc.success <==>
                     s.lookupFailed == {} && forall id :: id in s.workers ==> s.workers[id].phase == Gone(true)))
  {
    var s := Run(c, Init(c, t0, r0), events).value;
    Reached(c, t0, r0, events);
    if s.pool.cursor == Pool.Passed {
      AllGone(c, s);
      if s.pc.Decided? {
        VerdictOf(s);
      }
    }
  }

  lemma AllGone(c: Config, s: State)
    requires Slots(c, s) && s.pool.cursor == Pool.Passed
    ensures forall id :: id in s.workers ==> s.workers[id].phase.Gone?
  {
  }

  lemma VerdictOf(s: State)
    requires Flag(s) && s.pc.Decided? && forall id :: id in s.workers ==> s.workers[id].phase.Gone?
    ensures s.pc.success <==> s.lookupFailed == {} && forall id :: id in s.workers ==> s.workers[id].phase == Gone(true)
  {
  }

  /** A worker between its first request and the row that records it, or one that has failed. */
  ghost predicate InDoubt(phase: Phase) {
    phase.Putting? || phase.Storing? || phase.Failing? || HasFailed(phase)
  }

  /** A contradiction has come up: table and store agreed at the start of the run and do not now, whether objects
      without a row count as agreement or not. */
  ghost predicate Contradicted(t0: Table, r0: Remote, s: State, key: string) {
    || (Agree(t0, r0, key) && !Agree(s.table, s.remote, key))
    || (Match(t0, r0, key) && !Match(s.table, s.remote, key))
  }

  /** Table and store come to contradict each other only about files whose worker is in doubt. After the run that
      leaves the files whose worker failed. */
  lemma DisagreeOnlyAtFailures(c: Config, t0: Table, r0: Remote, events: seq<Event>, key: string)
    requires ValidConfig(c) && Run(c, Init(c, t0, r0), events).Some?
    requires Contradicted(t0, r0, Run(c, Init(c, t0, r0), events).value, key)
    ensures var s := Run(c, Init(c, t0, r0), events).value;
            exists id :: && id in s.workers && id < |c.files| && Key(c, id) == key
                         && InDoubt(s.workers[id].phase) && (s.pc.Decided? ==> s.workers[id].phase == Gone(false))
  {
    var s := Run(c, Init(c, t0, r0), events).value;
    Reached(c, t0, r0, events);
    var id := DoubtfulOwner(c, t0, r0, s, key);
    if s.pc.Decided? {
      AllGone(c, s);
    }
  }

  lemma DoubtfulOwner(c: Config, t0: Table, r0: Remote, s: State, key: string) returns (id: nat)
    requires Data(c, t0, r0, s) && Contradicted(t0, r0, s, key)
    ensures id in s.workers && id < |c.files| && Key(c, id) == key && InDoubt(s.workers[id].phase)
  {
    assert !Untouched(t0, r0, s, key);
    id :| id in s.workers && id < |c.files| && Key(c, id) == key;
    OnlyInDoubt(c, t0, r0, s, id, s.workers[id]);
  }

  lemma OnlyInDoubt(c: Config, t0: Table, r0: Remote, s: State, id: nat, w: Worker)
    requires WorkerOk(c, t0, r0, s, id, w) && Contradicted(t0, r0, s, Key(c, id))
    ensures InDoubt(w.phase)
  {
  }

  /** A dry run writes nothing anywhere. */
  lemma DryRunWritesNothing(c: Config, t0: Table, r0: Remote, events: seq<Event>)
    requires ValidConfig(c) && c.dryRun && Run(c, Init(c, t0, r0), events).Some?
    ensures var s := Run(c, Init(c, t0, r0), events).value; s.table == t0 && s.remote == r0
  {
    Reached(c, t0, r0, events);
  }

  /** Recorded with contents and time; in sync exactly if contents were sent or the store had them already, and
      so whenever table and store agreed about the file. */
  ghost predicate Synced(c: Config, t0: Table, r0: Remote, s: State, i: nat)
    requires i < |c.files| && c.files[i].stat.Stat?
  {
    && Recorded(c, s, i)
    && (InSync(c, s, i) <==>
          !MetaOnly(c.files[i], RowAt(t0, Key(c, i))) || Md5At(r0, Key(c, i)) == Some(c.files[i].md5))
    && (Agree(t0, r0, Key(c, i)) ==> InSync(c, s, i))
  }

  /** A run that succeeds has dispatched exactly the files that needed it. Each of them is now recorded with its
      contents and its time. The store has these contents, too, except if only metadata were sent, on the word of
      the table, for an object that the store did not have. All other keys are untouched, and no new contradiction
      between table and store has come up. */
  lemma SuccessMeansInSync(c: Config, t0: Table, r0: Remote, events: seq<Event>)
    requires ValidConfig(c) && !c.dryRun && Run(c, Init(c, t0, r0), events).Some?
    requires Run(c, Init(c, t0, r0), events).value.pc == Decided(true)
    ensures var s := Run(c, Init(c, t0, r0), events).value;
            && (forall i: nat :: i in s.workers <==>
                  i < |c.files| && Eligible(c.files[i]) && NeedsWork(c, i, RowAt(t0, Key(c, i))))
            && (forall i :: i in s.workers ==> Synced(c, t0, r0, s, i))
            && (forall key :: !Owned(c, s, key) ==> Untouched(t0, r0, s, key))
            && (forall key :: !Contradicted(t0, r0, s, key))
  {
    var s := Run(c, Init(c, t0, r0), events).value;
    Reached(c, t0, r0, events);
    VerdictIsComplete(c, t0, r0, events);
    forall i | i in s.workers
      ensures i < |c.files| && Eligible(c.files[i]) && NeedsWork(c, i, RowAt(t0, Key(c, i)))
      ensures Synced(c, t0, r0, s, i)
    {
      WorkerSynced(c, t0, r0, s, i, s.workers[i]);
    }
    forall i: nat | i < |c.files| && Eligible(c.files[i]) && NeedsWork(c, i, RowAt(t0, Key(c, i)))
      ensures i in s.workers
    {
      assert Handled(c, s, i);
    }
    forall key ensures !Contradicted(t0, r0, s, key) {
      if Contradicted(t0, r0, s, key) {
        DisagreeOnlyAtFailures(c, t0, r0, events, key);
      }
    }
  }

  lemma WorkerSynced(c: Config, t0: Table, r0: Remote, s: State, i: nat, w: Worker)
    requires WorkerOk(c, t0, r0, s, i, w) && w.phase == Gone(true) && !c.dryRun
    ensures NeedsWork(c, i, RowAt(t0, Key(c, i))) && Synced(c, t0, r0, s, i)
  {
  }

  /** The times of the files are recorded without loss: they are positive and fit in thirty-two bits. */
  ghost predicate TimesFit(c: Config) {
    forall i :: 0 <= i < |c.files| && Eligible(c.files[i]) ==> 0 < MtimeOf(c, i) < TWO32
  }

  /** After a run that succeeded, the files whose times fit need no more work. */
  lemma NothingLeft(c: Config, t0: Table, r0: Remote, events: seq<Event>, i: nat)
    requires ValidConfig(c) && !c.dryRun && Run(c, Init(c, t0, r0), events).Some?
    requires Run(c, Init(c, t0, r0), events).value.pc == Decided(true)
    requires i < |c.files| && Eligible(c.files[i])
    ensures var table := Run(c, Init(c, t0, r0), events).value.table;
            && (0 < MtimeOf(c, i) < TWO32 ==> !NeedsWork(c, i, RowAt(table, Key(c, i))))
            && (RowsFit(t0) && !NeedsWork(c, i, RowAt(table, Key(c, i))) ==> 0 < MtimeOf(c, i) < TWO32)
  {
    var s := Run(c, Init(c, t0, r0), events).value;
    SuccessMeansInSync(c, t0, r0, events);
    if i in s.workers {
      assert Synced(c, t0, r0, s, i);
      SmallTimes(MtimeOf(c, i));
    } else {
      NotOwnedByOthers(c, s, i);
      assert Untouched(t0, r0, s, Key(c, i));
    }
  }

  lemma SmallTimes(t: nat)
    ensures t % TWO32 == t <==> t < TWO32
  {
  }

  lemma NotOwnedByOthers(c: Config, s: State, i: nat)
    requires ValidConfig(c) && i < |c.files| && i !in s.workers
    ensures !Owned(c, s, Key(c, i))
  {
    forall id | id in s.workers && id < |c.files| ensures Key(c, id) != Key(c, i) {
      KeysDistinct(c, id, i);
    }
  }

  /** Uploads store no time that does not fit. */
  lemma {:induction false} RowsStayFit(c: Config, s: State, events: seq<Event>)
    requires RowsFit(s.table) && Run(c, s, events).Some?
    ensures RowsFit(Run(c, s, events).value.table)
    decreases |events|
  {
    if events != [] {
      RowsStayFit(c, Step(c, s, events[0]).value, events[1..]);
    }
  }

  /** A second run over an unchanged tree, after one that succeeded: when all times fit it never starts a worker
      and changes neither table nor store, whatever fails in it. If it succeeds, it was idle only if all times
      fit. The number of threads may differ, and so may the dry-run flag of the second run. */
  lemma SecondRun(c: Config, t0: Table, r0: Remote, events: seq<Event>, again: Config, events': seq<Event>)
    requires ValidConfig(c) && !c.dryRun && Run(c, Init(c, t0, r0), events).Some?
    requires Run(c, Init(c, t0, r0), events).value.pc == Decided(true)
    requires again == c.(threads := again.threads, dryRun := again.dryRun)
    requires var s := Run(c, Init(c, t0, r0), events).value;
             Run(again, Init(again, s.table, s.remote), events').Some?
    ensures var s := Run(c, Init(c, t0, r0), events).value;
            var s' := Run(again, Init(again, s.table, s.remote), events').value;
            && (TimesFit(c) ==> s'.workers == map[] && s'.table == s.table && s'.remote == s.remote)
            && (RowsFit(t0) && s'.pc == Decided(true) ==> (s'.workers == map[] <==> TimesFit(c)))
  {
    var s := Run(c, Init(c, t0, r0), events).value;
    SuccessMeansInSync(c, t0, r0, events);
    var s' := Run(again, Init(again, s.table, s.remote), events').value;
    assert ValidConfig(again);
    Reached(again, s.table, s.remote, events');
    forall i: nat | i < |c.files| && Eligible(c.files[i])
      ensures 0 < MtimeOf(c, i) < TWO32 ==> !NeedsWork(again, i, RowAt(s.table, Key(again, i)))
      ensures RowsFit(t0) && !NeedsWork(again, i, RowAt(s.table, Key(again, i))) ==> 0 < MtimeOf(c, i) < TWO32
    {
      NothingLeft(c, t0, r0, events, i);
    }
    if TimesFit(c) {
      Idle(again, s.table, s.remote, s');
    }
    if RowsFit(t0) && s'.pc == Decided(true) && s'.workers == map[] {
      forall i: nat | i < |c.files| && Eligible(c.files[i]) ensures 0 < MtimeOf(c, i) < TWO32 {
        IdleMeansUpToDate(again, s.table, s.remote, s', i);
      }
    }
  }

  lemma Idle(c: Config, t0: Table, r0: Remote, s: State)
    requires Inv(c, t0, r0, s)
    requires forall i: nat :: i < |c.files| && Eligible(c.files[i]) ==> !NeedsWork(c, i, RowAt(t0, Key(c, i)))
    ensures s.workers == map[] && s.table == t0 && s.remote == r0
  {
    assert forall id: nat :: id !in s.workers;
    forall key ensures Untouched(t0, r0, s, key) {
      assert !Owned(c, s, key);
    }
    SameEverywhere(t0, r0, s);
  }

  lemma SameEverywhere(t0: Table, r0: Remote, s: State)
    requires forall key :: Untouched(t0, r0, s, key)
    ensures s.table == t0 && s.remote == r0
  {
    forall key
      ensures key in s.table <==> key in t0
      ensures key in s.remote <==> key in r0
      ensures key in t0 ==> s.table[key] == t0[key]
      ensures key in r0 ==> s.remote[key] == r0[key]
    {
      assert Untouched(t0, r0, s, key);
    }
  }

  lemma IdleMeansUpToDate(c: Config, t0: Table, r0: Remote, s: State, i: nat)
    requires Inv(c, t0, r0, s) && s.pc == Decided(true) && s.workers == map[]
    requires i < |c.files| && Eligible(c.files[i])
    ensures !NeedsWork(c, i, RowAt(t0, Key(c, i)))
  {
    assert Handled(c, s, i);
  }
}
