/** Uploader::uploadFiles of src/upload.cc as a state machine: one dispatcher and its workers share the slot
    flags, the failed flag, the table of the local database and the remote store. Every access to what is shared
    is one step, and the steps of a run may interleave in any order. */
module UploadRun {
  import opened Wrappers
  import opened Retry
  import opened Storage
  import opened Words
  import Pool

  /** What the remote store holds: the MD5 of each object's content, and the modification time in its metadata. */
  datatype Object = Object(md5: string, mtime: Time)
  type Remote = map<string, Object>

  const MAX_S3_FILE_SIZE: nat := 5315022020

  /** A local file, which does not change during a run: what lstat says of it, and the MD5 of what an upload of it
      sends (for a symbolic link, of the link's target). */
  datatype Stat = Unreadable | Stat(size: nat, mtime: Time, symlink: bool)
  datatype File = File(path: string, stat: Stat, md5: string)

  datatype Config = Config(files: seq<File>, folder: string, dryRun: bool, threads: nat)

  function RemoteKey(folder: string, path: string): string {
    if |folder| > 0 then folder + "/" + path else path
  }

  function Key(c: Config, i: nat): string
    requires i < |c.files|
  {
    RemoteKey(c.folder, c.files[i].path)
  }

  ghost predicate ValidConfig(c: Config) {
    && (forall i, j :: 0 <= i < |c.files| && 0 <= j < |c.files| && i != j ==> c.files[i].path != c.files[j].path)
    && (forall i :: 0 <= i < |c.files| ==> |c.files[i].md5| == 32)
  }

  /** The files that are looked up at all. */
  predicate Eligible(f: File) {
    f.stat.Stat? && f.stat.size < MAX_S3_FILE_SIZE
  }

  /** Where a worker is. */
  datatype Phase =
    | Started | Updating | StoringMeta | Putting(loop: Loop) | Storing(md5: string) | Failing
    | Leaving(ok: bool) | Gone(ok: bool)

  /** A worker knows the row its file had when the dispatcher looked it up. The last component records history:
      whether a metadata update has taken effect in the store. */
  datatype Worker = Worker(stored: Row, phase: Phase, refreshed: bool)

  /** Where the dispatcher is: at the head of the loop for a file, looking it up, getting a worker for it, waiting
      for all workers, finished with a result, or gone because no thread could be made. */
  datatype Pc = Head(i: nat) | Lookup(i: nat) | Dispatch(i: nat, row: Row) | Draining | Decided(success: bool) | Aborted

  /** The last two components only record history: files whose lookup failed, and files found up to date. */
  datatype State = State(pc: Pc, pool: Pool.Pool, failed: bool, table: Table, remote: Remote,
                         workers: map<nat, Worker>, lookupFailed: set<nat>, upToDate: set<nat>)

  function Init(c: Config, table: Table, remote: Remote): State {
    State(Head(0), Pool.Fresh(c.threads), false, table, remote, map[], {}, {})
  }

  datatype Event =
    | NextFile
    | LookedUp(ok: bool)
    | Scan
    | Mark
    | Spawn(created: bool)
    | Decide
    | Begin(id: nat)
    | MetaUpdated(id: nat, ok: bool, took: bool)
    | MetaStored(id: nat, ok: bool)
    | Tried(id: nat, attempt: Attempt, took: bool)
    | Stored(id: nat, ok: bool)
    | Fail(id: nat)
    | Leave(id: nat)

  /** Whether a request that was answered 200 with a well-formed tag tells the truth about the store. */
  predicate Honest(f: File, a: Attempt, took: bool) {
    a.Sent? && a.code == CurlOk && a.status == 200 && |ExtractMd5(a.etag)| == 32 ==> took && ExtractMd5(a.etag) == f.md5
  }

  function SetPhase(s: State, id: nat, phase: Phase): State
    requires id in s.workers
  {
    s.(workers := s.workers[id := s.workers[id].(phase := phase)])
  }

  /** The contents are those that the table has already: only the metadata of the object are sent. Contents of
      symbolic links are never compared. */
  predicate MetaOnly(f: File, stored: Row)
    requires f.stat.Stat?
  {
    !f.stat.symlink && stored.mtime > 0 && f.md5 == stored.md5
  }

  /** The start of Uploader::runOverThread. A dry run stops here. */
  function BeginPhase(c: Config, f: File, stored: Row): Phase
    requires f.stat.Stat?
  {
    if c.dryRun then Leaving(true) else if MetaOnly(f, stored) then Updating else Putting(START)
  }

  /** uploadFileWithRetryAndStore after the retry loop has ended or goes on. */
  function TriedPhase(end: End): Phase {
    match end
    case Running(loop) => Putting(loop)
    case Returned(success, status, md5) => if success && status == 200 && |md5| == 32 then Storing(md5) else Failing
  }

  function MtimeOf(c: Config, i: nat): Time
    requires i < |c.files|
  {
    if c.files[i].stat.Stat? then c.files[i].stat.mtime else 0
  }

  predicate IsDispatcher(e: Event) {
    e.NextFile? || e.LookedUp? || e.Scan? || e.Mark? || e.Spawn? || e.Decide?
  }

  /** A step of the dispatcher. None: the step is not possible here. */
  function DispatcherStep(c: Config, s: State, e: Event): Option<State> {
    match s.pc
    case Head(i) =>
      if !e.NextFile? then None
      else if i >= |c.files| || s.failed then
        Some(s.(pc := Draining, pool := s.pool.(cursor := Pool.Barrier(0, false))))
      else if !Eligible(c.files[i]) then Some(s.(pc := Head(i + 1)))
      else Some(s.(pc := Lookup(i)))
    case Lookup(i) =>
      if !e.LookedUp? || i >= |c.files| then None
      else if !e.ok then Some(s.(pc := Head(i + 1), failed := true, lookupFailed := s.lookupFailed + {i}))
      else
        var row := RowAt(s.table, Key(c, i));
        if row.mtime > 0 && row.mtime == MtimeOf(c, i) then Some(s.(pc := Head(i + 1), upToDate := s.upToDate + {i}))
        else Some(s.(pc := Dispatch(i, row), pool := s.pool.(cursor := Pool.Seek(0))))
    case Dispatch(i, row) =>
      if s.pool.cursor.Seek? && e == Scan then Some(s.(pool := Pool.SeekStep(s.pool)))
      else if s.pool.cursor.Found? && s.pool.cursor.slot < |s.pool.busy| && e == Mark then
        Some(s.(pool := Pool.MarkStep(s.pool)))
      else if s.pool.cursor.Marked? && e == Spawn(true) then
        Some(s.(pc := Head(i + 1), pool := Pool.SpawnStep(s.pool, i),
                workers := s.workers[i := Worker(row, Started, false)]))
      else if s.pool.cursor.Marked? && e == Spawn(false) then Some(s.(pc := Aborted))
      else None
    case Draining =>
      if s.pool.cursor.Barrier? && e == Scan then Some(s.(pool := Pool.BarrierStep(s.pool)))
      else if s.pool.cursor == Pool.Passed && e == Decide then Some(s.(pc := Decided(!s.failed)))
      else None
    case Decided(_) => None
    case Aborted => None
  }

  /** A step of a worker. */
  function WorkerStep(c: Config, s: State, e: Event): Option<State>
    requires !IsDispatcher(e)
  {
    var id := e.id;
    if id !in s.workers || id >= |c.files| || !c.files[id].stat.Stat? || s.pc == Aborted then None
    else
      var f, key, w := c.files[id], Key(c, id), s.workers[id];
      match e
      case Begin(_) =>
        if w.phase == Started then Some(SetPhase(s, id, BeginPhase(c, f, w.stored))) else None
      case MetaUpdated(_, ok, took) =>
        if w.phase != Updating || (took && key !in s.remote) then None
        else
          var w' := w.(phase := if ok then StoringMeta else Failing, refreshed := took);
          var s' := s.(workers := s.workers[id := w']);
          Some(if took then s'.(remote := s.remote[key := s.remote[key].(mtime := f.stat.mtime)]) else s')
      case MetaStored(_, ok) =>
        if w.phase != StoringMeta then None
        else if !ok then Some(SetPhase(s, id, Failing))
        else Some(SetPhase(s, id, Leaving(true)).(table := s.table[key := Row(w.stored.md5, f.stat.mtime % TWO32)]))
      case Tried(_, attempt, took) =>
        if !w.phase.Putting? || !Honest(f, attempt, took) || (took && attempt.NotSent?) then None
        else
          var s' := SetPhase(s, id, TriedPhase(Turn(w.phase.loop, attempt)));
          Some(if took then s'.(remote := s.remote[key := Object(f.md5, f.stat.mtime)]) else s')
      case Stored(_, ok) =>
        if !w.phase.Storing? then None
        else if !ok then Some(SetPhase(s, id, Failing))
        else Some(SetPhase(s, id, Leaving(true)).(table := s.table[key := Row(w.phase.md5, f.stat.mtime % TWO32)]))
      case Fail(_) =>
        if w.phase == Failing then Some(SetPhase(s, id, Leaving(false)).(failed := true)) else None
      case Leave(_) =>
        if w.phase.Leaving? && id in s.pool.holder && s.pool.holder[id] < |s.pool.busy| then
          Some(SetPhase(s, id, Gone(w.phase.ok)).(pool := Pool.FreeStep(s.pool, id)))
        else None
  }

  function Step(c: Config, s: State, e: Event): Option<State> {
    if IsDispatcher(e) then DispatcherStep(c, s, e)
    else WorkerStep(c, s, e)
  }

  /** A run: every step was possible where it was taken. */
  function Run(c: Config, s: State, events: seq<Event>): Option<State>
    decreases |events|
  {
    if events == [] then Some(s)
    else
      var s' := Step(c, s, events[0]);
      if s'.None? then None else Run(c, s'.value, events[1..])
  }
}
