/** No upload run can get stuck: whatever has happened so far, it can still come to a verdict, and to success
    unless something has failed already. */
module UploadVerdict {
  import opened Retry
  import opened Storage
  import opened UploadInvariant
  import opened UploadResults
  import opened UploadRun
  import opened UploadSteps
  import opened Wrappers
  import Pool

  lemma {:induction false} RunConcat(c: Config, s: State, first: seq<Event>, second: seq<Event>)
    requires Run(c, s, first).Some?
    ensures Run(c, s, first + second) == Run(c, Run(c, s, first).value, second)
    decreases |first|
  {
    if first == [] {
      assert first + second == second;
    } else {
      assert (first + second)[1..] == first[1..] + second;
      RunConcat(c, Step(c, s, first[0]).value, first[1..], second);
    }
  }

  lemma RunOne(c: Config, s: State, e: Event, rest: seq<Event>)
    requires Step(c, s, e).Some?
    ensures Run(c, s, [e] + rest) == Run(c, Step(c, s, e).value, rest)
  {
  }

  /** Something has failed, or is about to. */
  ghost predicate Doomed(s: State) {
    s.failed || exists id :: id in s.workers && s.workers[id].phase.Failing?
  }

  /** The next step of a worker when the network and the database work. */
  function Next(c: Config, id: nat, phase: Phase): Event
    requires id < |c.files| && !phase.Gone?
  {
    match phase
    case Started => Begin(id)
    case Updating => MetaUpdated(id, true, false)
    case StoringMeta => MetaStored(id, true)
    case Putting(_) => Tried(id, Sent(CurlOk, 200, Some("\"" + c.files[id].md5 + "\""), ""), true)
    case Storing(_) => Stored(id, true)
    case Failing => Fail(id)
    case Leaving(_) => Leave(id)
  }

  function Distance(phase: Phase): nat {
    match phase
    case Started => 5
    case Updating => 4
    case StoringMeta => 3
    case Putting(_) => 4
    case Storing(_) => 3
    case Failing => 3
    case Leaving(_) => 2
    case Gone(_) => 0
  }

  /** The worker's next step is possible, and brings it closer to its end. */
  ghost predicate CanMove(c: Config, s: State, id: nat, w: Worker)
    requires id < |c.files| && !w.phase.Gone?
  {
    var e := Next(c, id, w.phase);
    && !IsDispatcher(e) && WorkerStep(c, s, e).Some?
    && var s' := WorkerStep(c, s, e).value;
       && id in s'.workers && Distance(s'.workers[id].phase) < Distance(w.phase) && !s'.workers[id].phase.Failing?
       && s'.pool.cursor == s.pool.cursor && s'.failed == (s.failed || w.phase.Failing?)
  }

  lemma WorkerCanMove(c: Config, s: State, id: nat, w: Worker)
    requires ValidConfig(c) && s.pc != Aborted && id in s.workers && w == s.workers[id] && !w.phase.Gone?
    requires id < |c.files| && c.files[id].stat.Stat? && id in s.pool.holder && s.pool.holder[id] < |s.pool.busy|
    ensures CanMove(c, s, id, w)
  {
    if w.phase.Putting? {
      WorkerCanPut(c, s, id, w);
    }
  }

  lemma WorkerCanPut(c: Config, s: State, id: nat, w: Worker)
    requires ValidConfig(c) && s.pc != Aborted && id in s.workers && w == s.workers[id] && w.phase.Putting?
    requires id < |c.files| && c.files[id].stat.Stat?
    ensures CanMove(c, s, id, w)
  {
    PutSucceeds(c.files[id], w.phase.loop);
  }

  lemma PutSucceeds(f: File, l: Loop)
    requires |f.md5| == 32
    ensures var a := Sent(CurlOk, 200, Some("\"" + f.md5 + "\""), "");
            Honest(f, a, true) && TriedPhase(Turn(l, a)) == Storing(f.md5)
  {
  }

  lemma StillDoomed(c: Config, s: State, s': State, id: nat)
    requires id in s.workers && id < |c.files| && Moved(c, s, s', id)
    requires s'.failed == (s.failed || s.workers[id].phase.Failing?) && !s'.workers[id].phase.Failing?
    ensures Doomed(s') == Doomed(s)
  {
  }

  /** A state that a run has reached, as far as the dispatcher and the outcome can tell. */
  ghost predicate Continues(c: Config, t0: Table, r0: Remote, s: State, s': State) {
    Inv(c, t0, r0, s') && s'.pc == s.pc && s'.pool.cursor == s.pool.cursor && Doomed(s') == Doomed(s)
  }

  lemma MoveWorker(c: Config, t0: Table, r0: Remote, s: State, id: nat) returns (e: Event, s': State)
    requires ValidConfig(c) && Inv(c, t0, r0, s) && s.pc != Aborted
    requires id in s.workers && !s.workers[id].phase.Gone?
    ensures Step(c, s, e) == Some(s') && Continues(c, t0, r0, s, s')
    ensures id in s'.workers && Distance(s'.workers[id].phase) < Distance(s.workers[id].phase)
    ensures Live(s') == if s'.workers[id].phase.Gone? then Live(s) - {id} else Live(s)
  {
    assert WorkerOk(c, t0, r0, s, id, s.workers[id]);
    WorkerCanMove(c, s, id, s.workers[id]);
    e := Next(c, id, s.workers[id].phase);
    s' := WorkerStep(c, s, e).value;
    WorkerInv(c, t0, r0, s, e);
    WorkerMoves(c, s, e);
    StillDoomed(c, s, s', id);
    StillLive(c, s, s', id);
  }

  lemma StillLive(c: Config, s: State, s': State, id: nat)
    requires id in s.workers && id < |c.files| && Moved(c, s, s', id) && !s.workers[id].phase.Gone?
    ensures Live(s') == if s'.workers[id].phase.Gone? then Live(s) - {id} else Live(s)
  {
  }

  lemma {:induction false} FinishWorker(c: Config, t0: Table, r0: Remote, s: State, id: nat)
    returns (events: seq<Event>, s': State)
    requires ValidConfig(c) && Inv(c, t0, r0, s) && s.pc != Aborted
    requires id in s.workers && !s.workers[id].phase.Gone?
    ensures Run(c, s, events) == Some(s') && Continues(c, t0, r0, s, s') && Live(s') == Live(s) - {id}
    decreases Distance(s.workers[id].phase)
  {
    var e, s1 := MoveWorker(c, t0, r0, s, id);
    if s1.workers[id].phase.Gone? {
      events, s' := [e], s1;
      RunOne(c, s, e, []);
      assert [e] + [] == [e];
    } else {
      var rest;
      rest, s' := FinishWorker(c, t0, r0, s1, id);
      events := [e] + rest;
      RunOne(c, s, e, rest);
    }
  }

  lemma {:induction false} FinishWorkers(c: Config, t0: Table, r0: Remote, s: State)
    returns (events: seq<Event>, s': State)
    requires ValidConfig(c) && Inv(c, t0, r0, s) && s.pc != Aborted
    ensures Run(c, s, events) == Some(s') && Continues(c, t0, r0, s, s') && Live(s') == {}
    decreases |Live(s)|
  {
    if Live(s) == {} {
      events, s' := [], s;
    } else {
      var id :| id in Live(s);
      var first, s1 := FinishWorker(c, t0, r0, s, id);
      var second;
      second, s' := FinishWorkers(c, t0, r0, s1);
      events := first + second;
      RunConcat(c, s, first, second);
    }
  }

  // The dispatcher, when no worker is at work

  /** With nobody at work every slot is free, but for one that is marked already. */
  lemma SlotsFree(c: Config, s: State)
    requires Slots(c, s) && Live(s) == {}
    ensures forall j :: 0 <= j < |s.pool.busy| && s.pool.busy[j] ==> s.pool.cursor == Pool.Marked(j)
  {
    forall id: nat ensures id !in s.pool.holder {
      assert id !in Live(s);
    }
  }

  /** How far a state is from its verdict, not counting work of workers. */
  function Rank(c: Config, s: State): nat {
    match s.pc
    case Head(i) => if i <= |c.files| then 3 * (|c.files| - i) + 4 else 4
    case Lookup(i) => if i < |c.files| then 3 * (|c.files| - i) + 3 else 3
    case Dispatch(i, _) => if i < |c.files| then 3 * (|c.files| - i) + 2 else 2
    case _ => 1
  }

  function NextOfDispatcher(s: State): Event {
    match s.pc
    case Head(_) => NextFile
    case Lookup(_) => LookedUp(true)
    case Dispatch(_, _) => if s.pool.cursor.Seek? then Scan else if s.pool.cursor.Found? then Mark else Spawn(true)
    case Draining => if s.pool.cursor.Barrier? then Scan else Decide
    case _ => NextFile
  }

  ghost predicate Closer(c: Config, s: State, s': State) {
    && s'.pc != Aborted && s'.failed == s.failed
    && (Rank(c, s') < Rank(c, s)
        || (Rank(c, s') == Rank(c, s)
            && Pool.CursorDistance(s'.pool.cursor, c.threads) < Pool.CursorDistance(s.pool.cursor, c.threads))
        || s'.pc == Decided(!s.failed))
  }

  lemma TakesSlot(c: Config, s: State)
    requires Slots(c, s) && Live(s) == {} && c.threads > 0 && s.pc.Dispatch? && s.pc.i < |c.files|
    ensures DispatcherStep(c, s, NextOfDispatcher(s)).Some?
    ensures Closer(c, s, DispatcherStep(c, s, NextOfDispatcher(s)).value)
  {
    SlotsFree(c, s);
  }

  lemma PassesBarrier(c: Config, s: State)
    requires Slots(c, s) && Live(s) == {} && s.pc.Draining?
    ensures DispatcherStep(c, s, NextOfDispatcher(s)).Some?
    ensures Closer(c, s, DispatcherStep(c, s, NextOfDispatcher(s)).value)
  {
    SlotsFree(c, s);
  }

  lemma DispatcherCanMove(c: Config, s: State)
    requires Slots(c, s) && Live(s) == {} && c.threads > 0 && !s.pc.Decided? && s.pc != Aborted
    requires s.pc.Lookup? || s.pc.Dispatch? ==> s.pc.i < |c.files|
    ensures DispatcherStep(c, s, NextOfDispatcher(s)).Some?
    ensures Closer(c, s, DispatcherStep(c, s, NextOfDispatcher(s)).value)
  {
    if s.pc.Dispatch? {
      TakesSlot(c, s);
    } else if s.pc.Draining? {
      PassesBarrier(c, s);
    }
  }

  /** Steps of the dispatcher add no worker that is about to fail. */
  lemma DispatcherDoom(c: Config, s: State, e: Event)
    requires IsDispatcher(e) && DispatcherStep(c, s, e).Some? && DispatcherStep(c, s, e).value.failed == s.failed
    requires s.pc.Dispatch? ==> s.pc.i !in s.workers
    ensures Doomed(DispatcherStep(c, s, e).value) == Doomed(s)
  {
    var s' := DispatcherStep(c, s, e).value;
    if !s.failed && Doomed(s) {
      var o :| o in s.workers && s.workers[o].phase.Failing?;
      assert s'.workers[o].phase.Failing?;
    }
    if !s'.failed && Doomed(s') {
      var o :| o in s'.workers && s'.workers[o].phase.Failing?;
      assert s.workers[o].phase.Failing?;
    }
  }

  /** With nobody at work, what is doomed has failed. */
  lemma DoomedMeansFailed(s: State)
    requires Live(s) == {}
    ensures Doomed(s) == s.failed
  {
    forall id | id in s.workers ensures !s.workers[id].phase.Failing? {
      assert id !in Live(s);
    }
  }

  /** From every state that satisfies the invariant a verdict can be reached, and it is success unless something
      had failed. The one thing a run cannot do without is a thread. */
  lemma {:induction false} Finish(c: Config, t0: Table, r0: Remote, s: State) returns (events: seq<Event>)
    requires ValidConfig(c) && Inv(c, t0, r0, s) && s.pc != Aborted && c.threads > 0
    ensures Run(c, s, events).Some?
    ensures Run(c, s, events).value.pc == if s.pc.Decided? then s.pc else Decided(!Doomed(s))
    decreases Rank(c, s), Pool.CursorDistance(s.pool.cursor, c.threads)
  {
    if s.pc.Decided? {
      events := [];
      return;
    }
    var first, s1 := FinishWorkers(c, t0, r0, s);
    var e := NextOfDispatcher(s1);
    DispatcherCanMove(c, s1);
    var s2 := DispatcherStep(c, s1, e).value;
    DispatcherInv(c, t0, r0, s1, e);
    DispatcherDoom(c, s1, e);
    DoomedMeansFailed(s1);
    var rest := [];
    if !s2.pc.Decided? {
      rest := Finish(c, t0, r0, s2);
    }
    events := first + ([e] + rest);
    RunConcat(c, s, first, [e] + rest);
    RunOne(c, s1, e, rest);
  }

  /** Any run so far, however it went, has a continuation to a verdict; it can still succeed unless a lookup or a
      worker has failed. */
  lemma CanAlwaysFinish(c: Config, t0: Table, r0: Remote, events: seq<Event>)
    requires ValidConfig(c) && c.threads > 0 && Run(c, Init(c, t0, r0), events).Some?
    requires var s := Run(c, Init(c, t0, r0), events).value; s.pc != Aborted && !s.pc.Decided?
    ensures exists more :: Run(c, Init(c, t0, r0), events + more).Some?
                           && Run(c, Init(c, t0, r0), events + more).value.pc
                              == Decided(!Doomed(Run(c, Init(c, t0, r0), events).value))
  {
    Reached(c, t0, r0, events);
    var more := Finish(c, t0, r0, Run(c, Init(c, t0, r0), events).value);
    RunConcat(c, Init(c, t0, r0), events, more);
  }
}
