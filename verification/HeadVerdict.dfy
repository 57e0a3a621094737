/** The metadata run cannot get stuck, and one worker makes a bounded number of attempts. */
module HeadVerdict {
  import opened HeadRun
  import opened Retry
  import opened Words
  import opened Wrappers
  import Pool

  // One worker

  /** The seconds slept after an answer. */
  function HeadSleep(cUploads: nat, a: Answer): nat {
    if a.code != CurlOk && ShouldRetryOn(a.code) then cUploads * RETRY_SLEEP_TIME else 0
  }

  /** What a worker does on a sequence of answers: how many it used, how many were redirects, how long it slept,
      and where it is then. */
  datatype HeadTrace = HeadTrace(attempts: nat, redirects: nat, slept: nat, end: Phase)

  function Attempts(url: Option<string>, cUploads: nat, answers: seq<Answer>): HeadTrace
    decreases |answers|
  {
    if answers == [] then HeadTrace(0, 0, 0, Trying(url, cUploads))
    else
      var a := answers[0];
      var phase, slept := AnsweredPhase(url, cUploads, a), HeadSleep(cUploads, a);
      var redirect := if a.code == CurlOk && a.status == 307 then 1 else 0;
      if !phase.Trying? then HeadTrace(1, redirect, slept, phase)
      else
        var rest := Attempts(phase.url, phase.cUploads, answers[1..]);
        HeadTrace(1 + rest.attempts, redirect + rest.redirects, slept + rest.slept, rest.end)
  }

  /** With r redirects a worker makes at most 3(r + 1) attempts and sleeps at most 5r + 15 seconds; while it is
      still trying it has used up all answers, and made fewer attempts than that. */
  lemma {:induction false} HeadBounds(url: Option<string>, cUploads: nat, answers: seq<Answer>)
    requires cUploads < RETRY_FAIL_AFTER
    ensures var t := Attempts(url, cUploads, answers);
            && t.attempts <= 3 * (t.redirects + 1) - cUploads && t.attempts <= |answers|
            && t.slept <= 5 * t.redirects + 15 - (if cUploads == 2 then 5 else 0)
            && (t.end.Trying? ==> t.attempts == |answers| < 3 * (t.redirects + 1) - cUploads)
            && (t.end.Trying? || t.end.Writing? || t.end == Failing)
    decreases |answers|
  {
    if answers != [] {
      var phase := AnsweredPhase(url, cUploads, answers[0]);
      if phase.Trying? {
        HeadBounds(phase.url, phase.cUploads, answers[1..]);
      }
    }
  }

  // Whole runs

  lemma {:induction false} RunConcat(meta: Meta, s: State, first: seq<Event>, second: seq<Event>)
    requires Run(meta, s, first).Some?
    ensures Run(meta, s, first + second) == Run(meta, Run(meta, s, first).value, second)
    decreases |first|
  {
    if first == [] {
      assert first + second == second;
    } else {
      assert (first + second)[1..] == first[1..] + second;
      RunConcat(meta, Step(meta, s, first[0]).value, first[1..], second);
    }
  }

  lemma RunOne(meta: Meta, s: State, e: Event, rest: seq<Event>)
    requires Step(meta, s, e).Some?
    ensures Run(meta, s, [e] + rest) == Run(meta, Step(meta, s, e).value, rest)
  {
  }

  ghost function Live(s: State): set<nat> {
    set id | id in s.workers && !s.workers[id].Gone?
  }

  /** There are never more than sixty workers at work. */
  lemma AtMostSixty(meta: Meta, events: seq<Event>)
    requires Run(meta, Init(meta), events).Some?
    ensures |Live(Run(meta, Init(meta), events).value)| <= 60
  {
    var s := Run(meta, Init(meta), events).value;
    InitInv(meta);
    RunInv(meta, Init(meta), events);
    Pool.AtMostAllSlots(s.pool);
    assert Live(s) == s.pool.holder.Keys;
    assert |s.pool.holder| == |s.pool.holder.Keys|;
  }

  /** Workers that have made a request, or will. */
  ghost function Asking(s: State): set<nat> {
    set id | id in s.workers && s.workers[id] != Started && !HasFate(s.workers[id], Skipped)
  }

  /** The element whose worker the dispatcher is about to start. */
  function AtHand(pc: Pc): set<nat> {
    if pc.Head? || pc.Taking? then {pc.i} else {}
  }

  lemma StepAfterFailure(meta: Meta, s: State, e: Event)
    requires s.failed && Step(meta, s, e).Some?
    ensures var s' := Step(meta, s, e).value;
            && s'.failed && Asking(s') <= Asking(s)
            && s'.workers.Keys + AtHand(s'.pc) <= s.workers.Keys + AtHand(s.pc)
  {
  }

  /** Once a worker has failed at most one more is started, and no worker that has not begun makes a request. */
  lemma {:induction false} NothingAfterFailure(meta: Meta, s: State, events: seq<Event>)
    requires s.failed && Run(meta, s, events).Some?
    ensures var s' := Run(meta, s, events).value;
            && s'.failed && Asking(s') <= Asking(s)
            && s'.workers.Keys + AtHand(s'.pc) <= s.workers.Keys + AtHand(s.pc)
    decreases |events|
  {
    if events != [] {
      StepAfterFailure(meta, s, events[0]);
      NothingAfterFailure(meta, Step(meta, s, events[0]).value, events[1..]);
    }
  }

  /** A worker has failed, or is about to. */
  ghost predicate Doomed(s: State) {
    s.failed || exists id :: id in s.workers && s.workers[id].Failing?
  }

  /** The next step of a worker when its request is answered 200. */
  function Next(meta: Meta, id: nat, phase: Phase): Event
    requires id < |meta| && !phase.Gone?
  {
    match phase
    case Started => Begin(id)
    case Trying(_, _) => Answered(id, Answer(CurlOk, 200, meta[id], ""))
    case Writing(_) => Write(id)
    case Failing => Fail(id)
    case Leaving(_) => Leave(id)
  }

  function Distance(phase: Phase): nat {
    match phase
    case Started => 4
    case Trying(_, _) => 3
    case Writing(_) => 2
    case Failing => 2
    case Leaving(_) => 1
    case Gone(_) => 0
  }

  ghost predicate Continues(meta: Meta, s: State, s': State) {
    Inv(meta, s') && s'.pc == s.pc && s'.pool.cursor == s.pool.cursor && Doomed(s') == Doomed(s)
  }

  lemma WorkerCanMove(meta: Meta, s: State, id: nat, phase: Phase)
    requires s.pc != Aborted && id in s.workers && phase == s.workers[id] && !phase.Gone?
    requires id < |meta| == |s.mtimes| && id in s.pool.holder && s.pool.holder[id] < |s.pool.busy|
    ensures !IsDispatcher(Next(meta, id, phase)) && WorkerStep(meta, s, Next(meta, id, phase)).Some?
    ensures var s' := WorkerStep(meta, s, Next(meta, id, phase)).value;
            && s'.workers == s.workers[id := s'.workers[id]]
            && Distance(s'.workers[id]) < Distance(phase) && !s'.workers[id].Failing?
            && s'.pc == s.pc && s'.pool.cursor == s.pool.cursor && s'.failed == (s.failed || phase.Failing?)
  {
  }

  lemma StillDoomed(s: State, s': State, id: nat)
    requires id in s.workers && s'.workers.Keys == s.workers.Keys && s'.workers == s.workers[id := s'.workers[id]]
    requires s'.failed == (s.failed || s.workers[id].Failing?) && !s'.workers[id].Failing?
    ensures Doomed(s') == Doomed(s)
  {
    if !s'.failed && Doomed(s) {
      var o :| o in s.workers && s.workers[o].Failing?;
      assert s'.workers[o].Failing?;
    }
  }

  lemma MoveWorker(meta: Meta, s: State, id: nat) returns (e: Event, s': State)
    requires Inv(meta, s) && s.pc != Aborted && id in s.workers && !s.workers[id].Gone?
    ensures Step(meta, s, e) == Some(s') && Continues(meta, s, s')
    ensures id in s'.workers && Distance(s'.workers[id]) < Distance(s.workers[id])
    ensures Live(s') == if s'.workers[id].Gone? then Live(s) - {id} else Live(s)
  {
    WorkerCanMove(meta, s, id, s.workers[id]);
    e := Next(meta, id, s.workers[id]);
    s' := WorkerStep(meta, s, e).value;
    StepInv(meta, s, e);
    StillDoomed(s, s', id);
    StillLive(s, s', id);
  }

  lemma StillLive(s: State, s': State, id: nat)
    requires id in s.workers && !s.workers[id].Gone?
    requires s'.workers.Keys == s.workers.Keys && s'.workers == s.workers[id := s'.workers[id]]
    ensures Live(s') == if s'.workers[id].Gone? then Live(s) - {id} else Live(s)
  {
  }

  lemma {:induction false} FinishWorker(meta: Meta, s: State, id: nat) returns (events: seq<Event>, s': State)
    requires Inv(meta, s) && s.pc != Aborted && id in s.workers && !s.workers[id].Gone?
    ensures Run(meta, s, events) == Some(s') && Continues(meta, s, s') && Live(s') == Live(s) - {id}
    decreases Distance(s.workers[id])
  {
    var e, s1 := MoveWorker(meta, s, id);
    if s1.workers[id].Gone? {
      events, s' := [e], s1;
      RunOne(meta, s, e, []);
      assert [e] + [] == [e];
    } else {
      var rest;
      rest, s' := FinishWorker(meta, s1, id);
      events := [e] + rest;
      RunOne(meta, s, e, rest);
    }
  }

  lemma {:induction false} FinishWorkers(meta: Meta, s: State) returns (events: seq<Event>, s': State)
    requires Inv(meta, s) && s.pc != Aborted
    ensures Run(meta, s, events) == Some(s') && Continues(meta, s, s') && Live(s') == {}
    decreases |Live(s)|
  {
    if Live(s) == {} {
      events, s' := [], s;
    } else {
      var id :| id in Live(s);
      var first, s1 := FinishWorker(meta, s, id);
      var second;
      second, s' := FinishWorkers(meta, s1);
      events := first + second;
      RunConcat(meta, s, first, second);
    }
  }

  lemma SlotsFree(s: State)
    requires Slots(s) && Live(s) == {}
    ensures forall j :: 0 <= j < |s.pool.busy| && s.pool.busy[j] ==> s.pool.cursor == Pool.Marked(j)
  {
    forall id: nat ensures id !in s.pool.holder {
      assert id !in Live(s);
    }
  }

  /** How far a state is from its verdict, not counting work of workers. */
  function Rank(s: State): nat {
    var n := |s.mtimes|;
    match s.pc
    case Head(i) => if i <= n then 3 * (n - i) + 4 else 4
    case Taking(i) => if i < n then 3 * (n - i) + 3 else 3
    case Spawned(i) => if i < n then 3 * (n - i) + 2 else 2
    case _ => 1
  }

  function NextOfDispatcher(s: State): Event {
    match s.pc
    case Head(_) => Event.Next
    case Taking(_) => if s.pool.cursor.Seek? then Scan else if s.pool.cursor.Found? then Mark else Spawn(true)
    case Spawned(_) => Check
    case Draining => if s.pool.cursor.Barrier? then Scan else Decide
    case _ => Event.Next
  }

  ghost predicate Closer(s: State, s': State) {
    && s'.pc != Aborted && s'.failed == s.failed
    && (Rank(s') < Rank(s)
        || (Rank(s') == Rank(s)
            && Pool.CursorDistance(s'.pool.cursor, HEAD_THREADS) < Pool.CursorDistance(s.pool.cursor, HEAD_THREADS))
        || s'.pc == Decided(!s.failed))
  }

  lemma TakesSlot(s: State)
    requires Slots(s) && Live(s) == {} && s.pc.Taking? && s.pc.i < |s.mtimes|
    ensures DispatcherStep(s, NextOfDispatcher(s)).Some? && Closer(s, DispatcherStep(s, NextOfDispatcher(s)).value)
  {
    SlotsFree(s);
  }

  lemma PassesBarrier(s: State)
    requires Slots(s) && Live(s) == {} && s.pc.Draining?
    ensures DispatcherStep(s, NextOfDispatcher(s)).Some? && Closer(s, DispatcherStep(s, NextOfDispatcher(s)).value)
  {
    SlotsFree(s);
  }

  lemma DispatcherCanMove(s: State)
    requires Slots(s) && Progress(s) && Live(s) == {} && !s.pc.Decided? && s.pc != Aborted
    ensures DispatcherStep(s, NextOfDispatcher(s)).Some? && Closer(s, DispatcherStep(s, NextOfDispatcher(s)).value)
  {
    if s.pc.Taking? {
      TakesSlot(s);
    } else if s.pc.Draining? {
      PassesBarrier(s);
    }
  }

  /** With nobody at work no worker is about to fail, and the dispatcher's next step changes nothing about that. */
  lemma NoNewDoom(meta: Meta, s: State)
    requires Inv(meta, s) && Live(s) == {} && !s.pc.Decided? && s.pc != Aborted
    ensures DispatcherStep(s, NextOfDispatcher(s)).Some?
    ensures Doomed(s) == s.failed && Doomed(DispatcherStep(s, NextOfDispatcher(s)).value) == s.failed
  {
    DispatcherCanMove(s);
    forall id | id in s.workers ensures s.workers[id].Gone? {
      assert id !in Live(s);
    }
  }

  /** From every state that satisfies the invariant a verdict can be reached, and it is success unless something
      had failed. */
  lemma {:induction false} Finish(meta: Meta, s: State) returns (events: seq<Event>)
    requires Inv(meta, s) && s.pc != Aborted
    ensures Run(meta, s, events).Some?
    ensures Run(meta, s, events).value.pc == if s.pc.Decided? then s.pc else Decided(!Doomed(s))
    decreases Rank(s), Pool.CursorDistance(s.pool.cursor, HEAD_THREADS)
  {
    if s.pc.Decided? {
      events := [];
      return;
    }
    var first, s1 := FinishWorkers(meta, s);
    var e := NextOfDispatcher(s1);
    DispatcherCanMove(s1);
    NoNewDoom(meta, s1);
    var s2 := DispatcherStep(s1, e).value;
    StepInv(meta, s1, e);
    var rest := [];
    if !s2.pc.Decided? {
      rest := Finish(meta, s2);
    }
    events := first + ([e] + rest);
    RunConcat(meta, s, first, [e] + rest);
    RunOne(meta, s1, e, rest);
  }

  /** Any metadata run so far, however it went, has a continuation to a verdict; it can still succeed unless a
      worker has failed. */
  lemma CanAlwaysFinish(meta: Meta, events: seq<Event>)
    requires Run(meta, Init(meta), events).Some?
    requires var s := Run(meta, Init(meta), events).value; s.pc != Aborted && !s.pc.Decided?
    ensures exists more :: Run(meta, Init(meta), events + more).Some?
                           && Run(meta, Init(meta), events + more).value.pc
                              == Decided(!Doomed(Run(meta, Init(meta), events).value))
  {
    InitInv(meta);
    RunInv(meta, Init(meta), events);
    var more := Finish(meta, Run(meta, Init(meta), events).value);
    RunConcat(meta, Init(meta), events, more);
  }
}
