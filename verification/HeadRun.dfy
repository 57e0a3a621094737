/** RemoteListOfFiles::resolveMtimes of src/remoteListOfFiles.cc as a state machine: one dispatcher starts a worker
    for every listed object, each worker asks for the object's metadata and writes one element of mtimes. */
module HeadRun {
  import opened Retry
  import opened Words
  import opened Wrappers
  import Pool

  const HEAD_THREADS: nat := 60

  /** The modification time that the metadata of each object says, zero where it says none. Uploads write it in
      full; the program reads it into thirty-two bits. */
  type Meta = seq<Time>

  function Truncated(meta: Meta): (r: seq<nat>)
    ensures |r| == |meta| && forall i :: 0 <= i < |meta| ==> r[i] == meta[i] % TWO32
  {
    seq(|meta|, i requires 0 <= i < |meta| => meta[i] % TWO32)
  }

  /** How a worker ends: it wrote its element, it failed, or it gave up because another had failed before. */
  datatype Fate = Wrote | Failed | Skipped

  datatype Phase =
    | Started | Trying(url: Option<string>, cUploads: nat) | Writing(mtime: nat) | Failing
    | Leaving(fate: Fate) | Gone(fate: Fate)

  datatype Pc = Head(i: nat) | Taking(i: nat) | Spawned(i: nat) | Draining | Decided(success: bool) | Aborted

  datatype State = State(pc: Pc, pool: Pool.Pool, failed: bool, mtimes: seq<nat>, workers: map<nat, Phase>)

  function Init(meta: Meta): State {
    State(Head(0), Pool.Fresh(HEAD_THREADS), false, seq(|meta|, i => 0), map[])
  }

  /** One answer to a HEAD request, or the reason why there is none. */
  datatype Answer = Answer(code: CurlCode, status: nat, mtime: Time, location: string)

  datatype Event =
    | Next | Scan | Mark | Spawn(created: bool) | Check | Decide
    | Begin(id: nat) | Answered(id: nat, answer: Answer) | Write(id: nat) | Fail(id: nat) | Leave(id: nat)

  predicate IsDispatcher(e: Event) {
    e.Next? || e.Scan? || e.Mark? || e.Spawn? || e.Check? || e.Decide?
  }

  predicate Honest(meta: Meta, id: nat, a: Answer) {
    a.code == CurlOk && a.status == 200 && id < |meta| ==> a.mtime == meta[id]
  }

  /** performHeadOnFileWithRetry inside the loop of runOverThread. The retries keep the URL, a redirect starts them
      afresh with another one. */
  function AnsweredPhase(url: Option<string>, cUploads: nat, a: Answer): Phase {
    if a.code == CurlOk then
      if a.status == 307 then Trying(Some(a.location), 0)
      else if a.status == 200 then Writing(a.mtime % TWO32)
      else Failing
    else if ShouldRetryOn(a.code) && cUploads + 1 < RETRY_FAIL_AFTER then Trying(url, cUploads + 1)
    else Failing
  }

  function DispatcherStep(s: State, e: Event): Option<State> {
    match s.pc
    case Head(i) =>
      if e != Next then None
      else if i < |s.mtimes| then Some(s.(pc := Taking(i), pool := s.pool.(cursor := Pool.Seek(0))))
      else Some(s.(pc := Draining, pool := s.pool.(cursor := Pool.Barrier(0, false))))
    case Taking(i) =>
      if s.pool.cursor.Seek? && e == Scan then Some(s.(pool := Pool.SeekStep(s.pool)))
      else if s.pool.cursor.Found? && s.pool.cursor.slot < |s.pool.busy| && e == Mark then
        Some(s.(pool := Pool.MarkStep(s.pool)))
      else if s.pool.cursor.Marked? && e == Spawn(true) then
        Some(s.(pc := Spawned(i), pool := Pool.SpawnStep(s.pool, i), workers := s.workers[i := Started]))
      else if s.pool.cursor.Marked? && e == Spawn(false) then Some(s.(pc := Aborted))
      else None
    case Spawned(i) =>
      if e != Check then None
      else if s.failed then Some(s.(pc := Draining, pool := s.pool.(cursor := Pool.Barrier(0, false))))
      else Some(s.(pc := Head(i + 1)))
    case Draining =>
      if s.pool.cursor.Barrier? && e == Scan then Some(s.(pool := Pool.BarrierStep(s.pool)))
      else if s.pool.cursor == Pool.Passed && e == Decide then Some(s.(pc := Decided(!s.failed)))
      else None
    case Decided(_) => None
    case Aborted => None
  }

  function WorkerStep(meta: Meta, s: State, e: Event): Option<State>
    requires !IsDispatcher(e)
  {
    var id := e.id;
    if id !in s.workers || s.pc == Aborted then None
    else
      var phase := s.workers[id];
      match e
      case Begin(_) =>
        if phase != Started then None
        else Some(s.(workers := s.workers[id := if s.failed then Leaving(Skipped) else Trying(None, 0)]))
      case Answered(_, a) =>
        if !phase.Trying? || !Honest(meta, id, a) then None
        else Some(s.(workers := s.workers[id := AnsweredPhase(phase.url, phase.cUploads, a)]))
      case Write(_) =>
        if !phase.Writing? || id >= |s.mtimes| then None
        else Some(s.(workers := s.workers[id := Leaving(Wrote)], mtimes := s.mtimes[id := phase.mtime]))
      case Fail(_) =>
        if phase == Failing then Some(s.(workers := s.workers[id := Leaving(Failed)], failed := true)) else None
      case Leave(_) =>
        if phase.Leaving? && id in s.pool.holder && s.pool.holder[id] < |s.pool.busy| then
          Some(s.(workers := s.workers[id := Gone(phase.fate)], pool := Pool.FreeStep(s.pool, id)))
        else None
  }

  function Step(meta: Meta, s: State, e: Event): Option<State> {
    if IsDispatcher(e) then DispatcherStep(s, e) else WorkerStep(meta, s, e)
  }

  function Run(meta: Meta, s: State, events: seq<Event>): Option<State>
    decreases |events|
  {
    if events == [] then Some(s)
    else
      var s' := Step(meta, s, events[0]);
      if s'.None? then None else Run(meta, s'.value, events[1..])
  }

  // What every step keeps

  predicate HasFate(p: Phase, fate: Fate) {
    (p.Leaving? || p.Gone?) && p.fate == fate
  }

  ghost predicate Slots(s: State) {
    && Pool.Inv(s.pool) && |s.pool.busy| == HEAD_THREADS
    && (forall id :: id in s.pool.holder <==> id in s.workers && !s.workers[id].Gone?)
    && match s.pc
       case Head(_) => s.pool.cursor == Pool.Idle
       case Taking(_) => s.pool.cursor.Seek? || s.pool.cursor.Found? || s.pool.cursor.Marked?
       case Spawned(_) => s.pool.cursor == Pool.Idle
       case Draining => s.pool.cursor.Barrier? || s.pool.cursor == Pool.Passed
       case Decided(_) => s.pool.cursor == Pool.Passed
       case Aborted => true
  }

  /** An element is what the metadata says, modulo 2^32, once its worker has written it, and zero until then. */
  ghost predicate Elements(meta: Meta, s: State) {
    && |s.mtimes| == |meta|
    && (forall i :: 0 <= i < |meta| ==>
          s.mtimes[i] == if i in s.workers && HasFate(s.workers[i], Wrote) then meta[i] % TWO32 else 0)
    && (forall id :: id in s.workers && id < |meta| && s.workers[id].Writing? ==>
          s.workers[id].mtime == meta[id] % TWO32)
  }

  ghost predicate Flag(s: State) {
    && (s.failed <==> exists id :: id in s.workers && HasFate(s.workers[id], Failed))
    && (forall id :: id in s.workers && HasFate(s.workers[id], Skipped) ==> s.failed)
    && (s.pc.Decided? ==> s.pc.success == !s.failed)
  }

  /** The workers are those of the positions before the dispatcher's. After a break the flag stays up. */
  ghost predicate Progress(s: State) {
    && (forall id :: id in s.workers ==> id < |s.mtimes|)
    && match s.pc
       case Head(i) => i <= |s.mtimes| && forall id: nat :: id in s.workers <==> id < i
       case Taking(i) => i < |s.mtimes| && forall id: nat :: id in s.workers <==> id < i
       case Spawned(i) => i < |s.mtimes| && forall id: nat :: id in s.workers <==> id <= i
       case Aborted => true
       case _ => s.failed || forall id: nat :: id in s.workers <==> id < |s.mtimes|
  }

  ghost predicate Inv(meta: Meta, s: State) {
    Slots(s) && Elements(meta, s) && Flag(s) && Progress(s)
  }

  lemma InitInv(meta: Meta)
    ensures Inv(meta, Init(meta))
  {
  }

  lemma TakingSlots(s: State, e: Event)
    requires Slots(s) && Progress(s) && s.pc.Taking? && DispatcherStep(s, e).Some?
    ensures Slots(DispatcherStep(s, e).value)
  {
    if e == Scan {
      Pool.SeekInv(s.pool);
    } else if e == Mark {
      Pool.MarkInv(s.pool);
    } else if e == Spawn(true) {
      Pool.SpawnInv(s.pool, s.pc.i);
    }
  }

  lemma OtherSlots(s: State, e: Event)
    requires Slots(s) && !s.pc.Taking? && DispatcherStep(s, e).Some?
    ensures Slots(DispatcherStep(s, e).value)
  {
    if e == Scan {
      Pool.BarrierInv(s.pool);
    }
  }

  lemma DispatcherFlag(s: State, e: Event)
    requires Flag(s) && Progress(s) && DispatcherStep(s, e).Some?
    ensures Flag(DispatcherStep(s, e).value)
  {
    var s' := DispatcherStep(s, e).value;
    assert forall id :: id in s.workers ==> id in s'.workers && s'.workers[id] == s.workers[id];
  }

  lemma DispatcherElements(meta: Meta, s: State, e: Event)
    requires Elements(meta, s) && Progress(s) && DispatcherStep(s, e).Some?
    ensures Elements(meta, DispatcherStep(s, e).value)
  {
  }

  lemma DispatcherProgress(s: State, e: Event)
    requires Progress(s) && DispatcherStep(s, e).Some?
    ensures Progress(DispatcherStep(s, e).value)
  {
  }

  lemma WorkerSlots(meta: Meta, s: State, e: Event)
    requires Slots(s) && !IsDispatcher(e) && WorkerStep(meta, s, e).Some?
    ensures Slots(WorkerStep(meta, s, e).value)
  {
    if e.Leave? {
      Pool.FreeInv(s.pool, e.id);
    }
  }

  lemma WorkerElements(meta: Meta, s: State, e: Event)
    requires Elements(meta, s) && !IsDispatcher(e) && WorkerStep(meta, s, e).Some?
    ensures Elements(meta, WorkerStep(meta, s, e).value)
  {
  }

  lemma WorkerFlag(meta: Meta, s: State, e: Event)
    requires Flag(s) && !s.pc.Decided? && !IsDispatcher(e) && WorkerStep(meta, s, e).Some?
    ensures Flag(WorkerStep(meta, s, e).value)
  {
    var s' := WorkerStep(meta, s, e).value;
    assert forall id :: id in s.workers && id != e.id ==> s'.workers[id] == s.workers[id];
    if e.Fail? {
      assert HasFate(s'.workers[e.id], Failed);
    } else if s.failed {
      var id :| id in s.workers && HasFate(s.workers[id], Failed);
      assert HasFate(s'.workers[id], Failed);
    }
  }

  lemma WorkerProgress(meta: Meta, s: State, e: Event)
    requires Progress(s) && !IsDispatcher(e) && WorkerStep(meta, s, e).Some?
    ensures Progress(WorkerStep(meta, s, e).value)
  {
  }

  /** Only a worker that still holds its slot moves, so none moves after the decision. */
  lemma StillAtWork(meta: Meta, s: State, e: Event)
    requires Slots(s) && !IsDispatcher(e) && WorkerStep(meta, s, e).Some?
    ensures !s.pc.Decided?
  {
  }

  lemma StepInv(meta: Meta, s: State, e: Event)
    requires Inv(meta, s) && Step(meta, s, e).Some?
    ensures Inv(meta, Step(meta, s, e).value)
  {
    if IsDispatcher(e) {
      if s.pc.Taking? {
        TakingSlots(s, e);
      } else {
        OtherSlots(s, e);
      }
      DispatcherFlag(s, e);
      DispatcherElements(meta, s, e);
      DispatcherProgress(s, e);
    } else {
      WorkerSlots(meta, s, e);
      WorkerElements(meta, s, e);
      WorkerProgress(meta, s, e);
      StillAtWork(meta, s, e);
      WorkerFlag(meta, s, e);
    }
  }

  lemma {:induction false} RunInv(meta: Meta, s: State, events: seq<Event>)
    requires Inv(meta, s) && Run(meta, s, events).Some?
    ensures Inv(meta, Run(meta, s, events).value)
    decreases |events|
  {
    if events != [] {
      StepInv(meta, s, events[0]);
      RunInv(meta, Step(meta, s, events[0]).value, events[1..]);
    }
  }

  // Whole runs

  /** Over every interleaving, each element is zero or what its own worker read, and is zero where no worker has
      written. At the verdict no worker is left, and success means that every element is what the metadata says,
      modulo 2^32.
      The run fails exactly when some worker failed. */
  lemma ResolvesAll(meta: Meta, events: seq<Event>)
    requires Run(meta, Init(meta), events).Some?
    ensures var s := Run(meta, Init(meta), events).value;
            && |s.mtimes| == |meta|
            && (forall i :: 0 <= i < |meta| ==>
                  s.mtimes[i] == if i in s.workers && HasFate(s.workers[i], Wrote) then meta[i] % TWO32 else 0)
            && (s.pool.cursor == Pool.Passed ==> forall id :: id in s.workers ==> s.workers[id].Gone?)
            && (s.pc.Decided? ==>
                  (s.pc.success <==> forall id :: id in s.workers ==> s.workers[id] == Gone(Wrote)))
            && (s.pc == Decided(true) ==> s.mtimes == Truncated(meta))
  {
    var s := Run(meta, Init(meta), events).value;
    InitInv(meta);
    RunInv(meta, Init(meta), events);
    if s.pool.cursor == Pool.Passed {
      forall id | id in s.workers ensures s.workers[id].Gone? {
        if id in s.pool.holder {
          Pool.HeldMeansNotPassed(s.pool, id);
        }
      }
    }
    if s.pc.Decided? {
      Verdict(s);
      if s.pc.success {
        assert forall i: nat :: i < |meta| ==> i in s.workers && s.mtimes[i] == meta[i] % TWO32;
      }
    }
  }

  lemma Verdict(s: State)
    requires Flag(s) && s.pc.Decided? && forall id :: id in s.workers ==> s.workers[id].Gone?
    ensures s.pc.success <==> forall id :: id in s.workers ==> s.workers[id] == Gone(Wrote)
  {
  }
}
